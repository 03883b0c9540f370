/** Values and scopes as reference-counted cells: the shared pointers of the executor, with the
    counts that decide which cells and which ids of the child are given back when a pointer is
    destroyed, and when. */
module SharedValues {
  import opened Common
  import opened Ir
  import opened Evaluator
  import opened IdTables
  import opened InlineExecutors
  import opened ExecutorValues
  import opened ValueReferences

  // The `std::shared_ptr` graph of genc/cc/runtime/control_flow_executor.cc. A value is built
  // from values and scopes that exist already and never changes, so pointers lead to older
  // cells only and counting references reaches every cell. An embedded value owns its id:
  // the id is disposed of when the cell goes.

  datatype Content =
    | Owner(id: nat)
    | Members(elements: seq<nat>)
    | ScopedLambda(param: string, body: Value, scope: nat)
    | ScopedIntrinsic(op: Op, fixed: Option<Value>, scope: nat)
    | EmptyScope
    | Binding(name: string, value: nat, parent: nat)

  datatype Cell = Cell(content: Content, count: nat)

  predicate IsScope(c: Content) {
    c.EmptyScope? || c.Binding?
  }

  /** The pointers inside a cell. */
  function Refs(c: Content): seq<nat> {
    match c
    case Owner(_) => []
    case Members(elements) => elements
    case ScopedLambda(_, _, scope) => [scope]
    case ScopedIntrinsic(_, _, scope) => [scope]
    case EmptyScope => []
    case Binding(_, value, parent) => [value, parent]
  }

  /** The pointers inside the cell at `a`, if there is one. */
  function RefsAt(cells: map<nat, Cell>, a: nat): multiset<nat> {
    if a in cells then multiset(Refs(cells[a].content)) else multiset{}
  }

  /** The pointers inside the cells below `n`. */
  function InBag(cells: map<nat, Cell>, n: nat): multiset<nat> {
    if n == 0 then multiset{} else InBag(cells, n - 1) + RefsAt(cells, n - 1)
  }

  /** Pointers lead to older cells that exist, those to scopes to scopes. */
  ghost predicate Linked(cells: map<nat, Cell>, c: Content, a: nat) {
    && (forall r :: r in Refs(c) ==> r < a && r in cells)
    && (c.Members? ==> forall r :: r in c.elements ==> !IsScope(cells[r].content))
    && (c.ScopedLambda? ==> IsScope(cells[c.scope].content))
    && (c.ScopedIntrinsic? ==> IsScope(cells[c.scope].content))
    && (c.Binding? ==> !IsScope(cells[c.value].content) && IsScope(cells[c.parent].content))
  }

  ghost predicate WellLinked(cells: map<nat, Cell>) {
    forall a :: a in cells ==> Linked(cells, cells[a].content, a)
  }

  /** `roots` are the pointers outside the cells: in the table of tracked values and in the
      variables of running methods. Every cell counts the pointers to it. */
  ghost predicate Counted(cells: map<nat, Cell>, next: nat, roots: multiset<nat>) {
    && (forall a :: a in roots ==> a in cells)
    && forall a :: a in cells ==>
      a < next && cells[a].count > 0 && cells[a].count == roots[a] + InBag(cells, next)[a]
  }

  ghost predicate WellCounted(cells: map<nat, Cell>, next: nat, roots: multiset<nat>) {
    WellLinked(cells) && Counted(cells, next, roots)
  }

  // ----- the pointers inside the cells -----

  lemma {:induction false} InBagHas(cells: map<nat, Cell>, n: nat, a: nat)
    requires a < n
    ensures RefsAt(cells, a) <= InBag(cells, n)
  {
    hide RefsAt;
    if a < n - 1 {
      InBagHas(cells, n - 1, a);
    }
  }

  /** Where a pointer to `r` inside the cells comes from. */
  lemma {:induction false} InBagFrom(cells: map<nat, Cell>, n: nat, r: nat) returns (a: nat)
    requires r in InBag(cells, n)
    ensures a < n && r in RefsAt(cells, a)
  {
    hide RefsAt;
    if r in RefsAt(cells, n - 1) {
      a := n - 1;
    } else {
      a := InBagFrom(cells, n - 1, r);
    }
  }

  lemma {:induction false} InBagSame(cells: map<nat, Cell>, cells': map<nat, Cell>, n: nat)
    requires forall a: nat :: a < n ==> RefsAt(cells', a) == RefsAt(cells, a)
    ensures InBag(cells', n) == InBag(cells, n)
  {
    hide RefsAt;
    if n > 0 {
      InBagSame(cells, cells', n - 1);
    }
  }

  lemma {:induction false} InBagLess(cells: map<nat, Cell>, cells': map<nat, Cell>, n: nat, a: nat)
    requires a < n && RefsAt(cells', a) == multiset{}
    requires forall b: nat :: b != a ==> RefsAt(cells', b) == RefsAt(cells, b)
    ensures InBag(cells, n) == InBag(cells', n) + RefsAt(cells, a)
  {
    hide RefsAt;
    if a == n - 1 {
      InBagSame(cells, cells', n - 1);
    } else {
      InBagLess(cells, cells', n - 1, a);
    }
  }

  // ----- the steps -----

  /** The cells of `cells'` are cells of `cells` with the same contents. */
  ghost predicate Part(cells': map<nat, Cell>, cells: map<nat, Cell>) {
    forall a :: a in cells' ==> a in cells && cells'[a].content == cells[a].content
  }

  /** No pointer is left that leads out of a part. */
  lemma PartLinked(cells': map<nat, Cell>, cells: map<nat, Cell>)
    requires WellLinked(cells) && Part(cells', cells)
    requires forall a, r :: a in cells' && r in Refs(cells[a].content) ==> r in cells'
    ensures WellLinked(cells')
  {
    hide Refs, IsScope;
    forall a | a in cells'
      ensures Linked(cells', cells'[a].content, a)
    {
      LinkedStill(cells, cells', cells[a].content, a);
    }
  }

  lemma LinkedStill(cells: map<nat, Cell>, cells': map<nat, Cell>, c: Content, a: nat)
    requires Linked(cells, c, a)
    requires forall r :: r in Refs(c) ==> r in cells' && cells'[r].content == cells[r].content
    ensures Linked(cells', c, a)
  {
    hide IsScope;
  }

  function Recount(cells: map<nat, Cell>, a: nat, count: nat): map<nat, Cell>
    requires a in cells
  {
    cells[a := Cell(cells[a].content, count)]
  }

  lemma {:induction false} RecountKeeps(cells: map<nat, Cell>, a: nat, count: nat, next: nat)
    requires WellLinked(cells) && a in cells
    ensures WellLinked(Recount(cells, a, count))
    ensures InBag(Recount(cells, a, count), next) == InBag(cells, next)
  {
    var cells' := Recount(cells, a, count);
    InBagSame(cells, cells', next);
    forall b, r | b in cells' && r in Refs(cells[b].content)
      ensures r in cells'
    {
      assert Linked(cells, cells[b].content, b);
    }
    PartLinked(cells', cells);
  }

  /** A pointer is copied. */
  lemma CopyKeeps(cells: map<nat, Cell>, next: nat, roots: multiset<nat>, a: nat)
    requires WellCounted(cells, next, roots) && a in cells
    ensures WellCounted(Recount(cells, a, cells[a].count + 1), next, roots + multiset{a})
  {
    hide WellLinked, InBag;
    RecountKeeps(cells, a, cells[a].count + 1, next);
  }

  /** One of several pointers to a cell goes. */
  lemma DropKeeps(cells: map<nat, Cell>, next: nat, roots: multiset<nat>, a: nat)
    requires WellCounted(cells, next, roots) && a in roots && cells[a].count > 1
    ensures WellCounted(Recount(cells, a, cells[a].count - 1), next, roots - multiset{a})
  {
    hide WellLinked, InBag;
    RecountKeeps(cells, a, cells[a].count - 1, next);
  }

  lemma LinkedRef(cells: map<nat, Cell>, a: nat, r: nat)
    requires WellLinked(cells) && r in RefsAt(cells, a)
    ensures r < a && r in cells
  {
    hide IsScope;
    assert a in cells && r in Refs(cells[a].content);
    assert Linked(cells, cells[a].content, a);
  }

  lemma {:induction false} FreeLinked(cells: map<nat, Cell>, next: nat, roots: multiset<nat>, a: nat)
    requires WellCounted(cells, next, roots) && a in roots && cells[a].count == 1
    ensures WellLinked(cells - {a}) && InBag(cells, next)[a] == 0
    ensures InBag(cells, next) == InBag(cells - {a}, next) + RefsAt(cells, a)
  {
    hide Linked, WellLinked, InBag, Refs;
    var cells' := cells - {a};
    InBagLess(cells, cells', next, a);
    forall b, r | b in cells' && r in Refs(cells[b].content)
      ensures r in cells'
    {
      hide Counted;
      LinkedRef(cells, b, r);
      InBagHas(cells, next, b);
      assert r in InBag(cells, next);
    }
    PartLinked(cells', cells);
  }

  /** The last pointer to a cell goes: the cell goes too, and the pointers inside it are left
      to be dropped. */
  lemma FreeKeeps(cells: map<nat, Cell>, next: nat, roots: multiset<nat>, a: nat)
    requires WellCounted(cells, next, roots) && a in roots && cells[a].count == 1
    ensures WellCounted(cells - {a}, next, roots - multiset{a} + RefsAt(cells, a))
  {
    hide Linked, InBag;
    FreeLinked(cells, next, roots, a);
    forall r | r in RefsAt(cells, a)
      ensures r in cells - {a}
    {
      LinkedRef(cells, a, r);
    }
    hide WellLinked, RefsAt;
  }

  lemma LinkedGrows(cells: map<nat, Cell>, cells': map<nat, Cell>, c: Content, a: nat)
    requires Linked(cells, c, a) && Part(cells, cells')
    ensures Linked(cells', c, a)
  {
    hide IsScope;
    LinkedStill(cells, cells', c, a);
  }

  lemma MakeLinked(cells: map<nat, Cell>, next: nat, c: Content)
    requires WellLinked(cells) && Linked(cells, c, next) && next !in cells
    ensures WellLinked(cells[next := Cell(c, 1)])
  {
    hide Linked;
    var cells' := cells[next := Cell(c, 1)];
    forall b | b in cells'
      ensures Linked(cells', cells'[b].content, b)
    {
      LinkedGrows(cells, cells', cells'[b].content, b);
    }
  }

  lemma MakeBag(cells: map<nat, Cell>, next: nat, c: Content)
    requires WellLinked(cells) && next !in cells
    ensures next !in InBag(cells, next)
    ensures InBag(cells[next := Cell(c, 1)], next + 1) == InBag(cells, next) + multiset(Refs(c))
  {
    hide WellLinked, Refs;
    InBagSame(cells, cells[next := Cell(c, 1)], next);
    if next in InBag(cells, next) {
      var a := InBagFrom(cells, next, next);
      LinkedRef(cells, a, next);
    }
  }

  /** A cell is made from pointers at hand, and there is one pointer to it. */
  lemma MakeKeeps(cells: map<nat, Cell>, next: nat, roots: multiset<nat>, c: Content)
    requires WellCounted(cells, next, roots) && Linked(cells, c, next) && multiset(Refs(c)) <= roots
    ensures WellCounted(cells[next := Cell(c, 1)], next + 1, roots - multiset(Refs(c)) + multiset{next})
  {
    hide Linked, WellLinked, InBag, Refs;
    assert next !in cells && next !in roots;
    MakeLinked(cells, next, c);
    MakeBag(cells, next, c);
    MakeCounted(cells, next, roots, c);
  }

  lemma MakeCounted(cells: map<nat, Cell>, next: nat, roots: multiset<nat>, c: Content)
    requires Counted(cells, next, roots) && multiset(Refs(c)) <= roots
    requires next !in cells && next !in roots && next !in InBag(cells, next)
    requires InBag(cells[next := Cell(c, 1)], next + 1) == InBag(cells, next) + multiset(Refs(c))
    ensures Counted(cells[next := Cell(c, 1)], next + 1, roots - multiset(Refs(c)) + multiset{next})
  {
    hide InBag, Refs;
  }

  // ----- what is reachable -----

  /** There is a way along pointers from the cell at `a` to the cell at `b`. */
  ghost predicate Leads(cells: map<nat, Cell>, a: nat, b: nat)
    decreases a
  {
    a == b || exists r: nat :: r < a && r in RefsAt(cells, a) && Leads(cells, r, b)
  }

  ghost predicate Reachable(cells: map<nat, Cell>, roots: multiset<nat>, b: nat) {
    exists a: nat :: a in roots && Leads(cells, a, b)
  }

  lemma {:induction false} LeadsOn(cells: map<nat, Cell>, a: nat, b: nat, r: nat)
    requires Leads(cells, a, b) && r < b && r in RefsAt(cells, b)
    ensures Leads(cells, a, r)
    decreases a
  {
    hide RefsAt;
    if a == b {
      assert Leads(cells, r, r);
    } else {
      var q: nat :| q < a && q in RefsAt(cells, a) && Leads(cells, q, b);
      LeadsOn(cells, q, b, r);
    }
  }

  /** In a part, every way out of it starts outside. */
  lemma {:induction false} LeadsInside(cells: map<nat, Cell>, cells': map<nat, Cell>, a: nat, b: nat)
    requires Part(cells', cells) && WellLinked(cells') && a in cells' && Leads(cells, a, b)
    ensures b in cells'
    decreases a
  {
    hide Linked;
    if a != b {
      var r: nat :| r < a && r in RefsAt(cells, a) && Leads(cells, r, b);
      LinkedRef(cells', a, r);
      LeadsInside(cells, cells', r, b);
    }
  }

  /** Counts keep no garbage: every cell is reachable from a pointer outside. */
  lemma {:induction false} LiveIsReachable(cells: map<nat, Cell>, next: nat, roots: multiset<nat>, b: nat)
    requires WellCounted(cells, next, roots) && b in cells
    ensures Reachable(cells, roots, b)
    decreases next - b
  {
    hide Linked, RefsAt, WellLinked;
    if b in roots {
      assert Leads(cells, b, b);
    } else {
      var a := InBagFrom(cells, next, b);
      LinkedRef(cells, a, b);
      InCells(cells, a, b);
      LiveIsReachable(cells, next, roots, a);
      var c: nat :| c in roots && Leads(cells, c, a);
      LeadsOn(cells, c, a, b);
    }
  }

  lemma InCells(cells: map<nat, Cell>, a: nat, r: nat)
    requires r in RefsAt(cells, a)
    ensures a in cells
  {
  }

  lemma {:induction false} LeadsAlike(cells: map<nat, Cell>, cells': map<nat, Cell>, a: nat, b: nat)
    requires Part(cells', cells) && Leads(cells', a, b)
    ensures Leads(cells, a, b)
    decreases a
  {
    if a != b {
      var r: nat :| r < a && r in RefsAt(cells', a) && Leads(cells', r, b);
      LeadsAlike(cells, cells', r, b);
    }
  }

  /** What is left after pointers were dropped is exactly what the remaining pointers reached
      before. */
  lemma LeftIsReachable(cells: map<nat, Cell>, cells': map<nat, Cell>, next: nat, roots: multiset<nat>)
    requires Part(cells', cells) && WellCounted(cells', next, roots)
    ensures forall b :: b in cells' <==> b in cells && Reachable(cells, roots, b)
  {
    hide Linked, RefsAt, InBag, WellLinked;
    forall b: nat
      ensures b in cells' <==> b in cells && Reachable(cells, roots, b)
    {
      if b in cells' {
        LiveIsReachable(cells', next, roots, b);
        var a: nat :| a in roots && Leads(cells', a, b);
        LeadsAlike(cells, cells', a, b);
      }
      if a: nat :| a in roots && Leads(cells, a, b) {
        LeadsInside(cells, cells', a, b);
      }
    }
  }

  // ----- what a pointer stands for -----

  /** The value behind a pointer, written out as a tree. */
  ghost function NodeAt(cells: map<nat, Cell>, a: nat): Node
    requires WellLinked(cells) && a in cells && !IsScope(cells[a].content)
    decreases a
  {
    var c := cells[a].content;
    assert Linked(cells, c, a);
    match c
    case Owner(id) => ChildId(id)
    case Members(es) => Parts(seq(|es|, k requires 0 <= k < |es| => assert es[k] in Refs(c); NodeAt(cells, es[k])))
    case ScopedLambda(param, body, scope) => LambdaIn(param, body, ChainAt(cells, scope))
    case ScopedIntrinsic(op, fixed, scope) => OperatorIn(op, fixed, ChainAt(cells, scope))
  }

  ghost function ChainAt(cells: map<nat, Cell>, a: nat): Chain
    requires WellLinked(cells) && a in cells && IsScope(cells[a].content)
    decreases a
  {
    var c := cells[a].content;
    assert Linked(cells, c, a);
    match c
    case EmptyScope => Top
    case Binding(name, value, parent) => Link(name, NodeAt(cells, value), ChainAt(cells, parent))
  }

  /** The references to child ids that a pointer stands for. */
  ghost function IdsAt(cells: map<nat, Cell>, a: nat): multiset<nat>
    requires WellLinked(cells) && a in cells
  {
    if IsScope(cells[a].content) then ScopeBag(ChainAt(cells, a)) else Bag(NodeAt(cells, a))
  }

  /** Those that a list of pointers stands for. */
  ghost function IdsOf(cells: map<nat, Cell>, roots: seq<nat>): multiset<nat>
    requires WellLinked(cells) && forall r :: r in roots ==> r in cells
  {
    if roots == [] then multiset{} else IdsAt(cells, roots[0]) + IdsOf(cells, roots[1..])
  }

  lemma {:induction false} IdsOfSum(cells: map<nat, Cell>, xs: seq<nat>, ys: seq<nat>)
    requires WellLinked(cells) && forall r :: r in xs + ys ==> r in cells
    ensures IdsOf(cells, xs + ys) == IdsOf(cells, xs) + IdsOf(cells, ys)
  {
    hide WellLinked, IdsAt;
    if xs == [] {
      assert xs + ys == ys;
    } else {
      IdsOfSum(cells, xs[1..], ys);
      assert (xs + ys)[1..] == xs[1..] + ys;
    }
  }

  lemma {:induction false} IdsOfOne(cells: map<nat, Cell>, a: nat)
    requires WellLinked(cells) && a in cells
    ensures IdsOf(cells, [a]) == IdsAt(cells, a)
  {
    hide WellLinked, IdsAt;
    assert IdsOf(cells, [a]) == IdsAt(cells, a) + IdsOf(cells, []);
  }

  lemma {:induction false} IdsOfHas(cells: map<nat, Cell>, roots: seq<nat>, a: nat)
    requires WellLinked(cells) && (forall r :: r in roots ==> r in cells) && a in roots
    ensures IdsAt(cells, a) <= IdsOf(cells, roots)
  {
    hide WellLinked, IdsAt;
    if a != roots[0] {
      IdsOfHas(cells, roots[1..], a);
    }
  }

  lemma {:induction false} IdsOfFrom(cells: map<nat, Cell>, roots: seq<nat>, id: nat) returns (a: nat)
    requires WellLinked(cells) && (forall r :: r in roots ==> r in cells) && id in IdsOf(cells, roots)
    ensures a in roots && id in IdsAt(cells, a)
  {
    hide WellLinked, IdsAt;
    if id in IdsAt(cells, roots[0]) {
      a := roots[0];
    } else {
      a := IdsOfFrom(cells, roots[1..], id);
    }
  }

  lemma {:induction false} MembersIds(cells: map<nat, Cell>, es: seq<nat>, xs: seq<Node>)
    requires WellLinked(cells) && |xs| == |es|
    requires forall k :: 0 <= k < |es| ==>
      es[k] in cells && !IsScope(cells[es[k]].content) && xs[k] == NodeAt(cells, es[k])
    ensures BagAll(xs) == IdsOf(cells, es)
  {
    hide WellLinked, NodeAt, Bag;
    if es != [] {
      MembersIds(cells, es[1..], xs[1..]);
    }
  }

  function OwnIds(c: Content): multiset<nat> {
    if c.Owner? then multiset{c.id} else multiset{}
  }

  lemma RefsLive(cells: map<nat, Cell>, a: nat)
    requires WellLinked(cells) && a in cells
    ensures forall r :: r in Refs(cells[a].content) ==> r < a && r in cells
  {
    assert Linked(cells, cells[a].content, a);
  }

  /** A pointer stands for the id its cell owns and for all that the pointers inside stand
      for. */
  lemma {:induction false} IdsUnfold(cells: map<nat, Cell>, a: nat)
    requires WellLinked(cells) && a in cells
    ensures forall r :: r in Refs(cells[a].content) ==> r < a && r in cells
    ensures IdsAt(cells, a) == OwnIds(cells[a].content) + IdsOf(cells, Refs(cells[a].content))
  {
    RefsLive(cells, a);
    var c := cells[a].content;
    assert Linked(cells, c, a);
    match c
    case Owner(_) =>
    case Members(es) =>
      var xs := seq(|es|, k requires 0 <= k < |es| => NodeAt(cells, es[k]));
      assert NodeAt(cells, a) == Parts(xs);
      MembersIds(cells, es, xs);
    case ScopedLambda(_, _, scope) => IdsOfOne(cells, scope);
    case ScopedIntrinsic(_, _, scope) => IdsOfOne(cells, scope);
    case EmptyScope =>
    case Binding(_, value, parent) =>
      assert [value, parent] == [value] + [parent];
      IdsOfSum(cells, [value], [parent]);
      IdsOfOne(cells, value);
      IdsOfOne(cells, parent);
  }

  /** In a part, a pointer stands for what it stood for. */
  lemma {:induction false} IdsAtPart(cells: map<nat, Cell>, cells': map<nat, Cell>, a: nat)
    requires WellLinked(cells) && WellLinked(cells') && Part(cells', cells) && a in cells'
    ensures IdsAt(cells', a) == IdsAt(cells, a)
    decreases a, 2, 0
  {
    hide WellLinked, IdsAt, Refs;
    IdsUnfold(cells, a);
    IdsUnfold(cells', a);
    IdsOfPart(cells, cells', Refs(cells[a].content), a);
  }

  lemma {:induction false} IdsOfPart(cells: map<nat, Cell>, cells': map<nat, Cell>, roots: seq<nat>, bound: nat)
    requires WellLinked(cells) && WellLinked(cells') && Part(cells', cells)
    requires forall r :: r in roots ==> r in cells' && r < bound
    ensures IdsOf(cells', roots) == IdsOf(cells, roots)
    decreases bound, 1, |roots|
  {
    hide WellLinked, IdsAt;
    if roots != [] {
      assert roots[0] in roots;
      IdsAtPart(cells, cells', roots[0]);
      IdsOfPart(cells, cells', roots[1..], bound);
    }
  }

  // ----- ids that are owned and ids that are referred to -----

  ghost predicate Owned(cells: map<nat, Cell>, id: nat) {
    exists a: nat :: a in cells && cells[a].content == Owner(id)
  }

  lemma {:induction false} IdsAtOwned(cells: map<nat, Cell>, a: nat, id: nat)
    requires WellLinked(cells) && a in cells && id in IdsAt(cells, a)
    ensures Owned(cells, id)
    decreases a
  {
    hide WellLinked, IdsAt, Refs;
    IdsUnfold(cells, a);
    if cells[a].content != Owner(id) {
      var r := IdsOfFrom(cells, Refs(cells[a].content), id);
      IdsAtOwned(cells, r, id);
    }
  }

  lemma {:induction false} LeadsIds(cells: map<nat, Cell>, a: nat, b: nat)
    requires WellLinked(cells) && a in cells && Leads(cells, a, b)
    ensures b in cells && IdsAt(cells, b) <= IdsAt(cells, a)
    decreases a
  {
    hide WellLinked, IdsAt, Refs;
    if a != b {
      var r: nat :| r < a && r in RefsAt(cells, a) && Leads(cells, r, b);
      IdsUnfold(cells, a);
      LeadsIds(cells, r, b);
      IdsOfHas(cells, Refs(cells[a].content), r);
    }
  }

  /** The ids that cells own are exactly the ids that the pointers outside stand for: an id
      is kept while its count, taken over the trees that the pointers stand for, is above
      zero. */
  lemma {:induction false} OwnedIsReferred(cells: map<nat, Cell>, next: nat, roots: seq<nat>)
    requires WellCounted(cells, next, multiset(roots))
    ensures forall r :: r in roots ==> r in cells
    ensures forall id :: id in IdsOf(cells, roots) <==> Owned(cells, id)
  {
    assert forall r :: r in roots ==> r in multiset(roots);
    hide WellLinked, IdsAt, InBag, Leads;
    forall id: nat
      ensures id in IdsOf(cells, roots) <==> Owned(cells, id)
    {
      if id in IdsOf(cells, roots) {
        var a := IdsOfFrom(cells, roots, id);
        IdsAtOwned(cells, a, id);
      }
      if b: nat :| b in cells && cells[b].content == Owner(id) {
        LiveIsReachable(cells, next, multiset(roots), b);
        var a: nat :| a in multiset(roots) && Leads(cells, a, b);
        LeadsIds(cells, a, b);
        IdsOfHas(cells, roots, a);
        IdsUnfold(cells, b);
        assert id in IdsAt(cells, b);
      }
    }
  }

  /** Each id has one owner, and the child tracks exactly the owned ids. */
  ghost predicate OwnersMatch(cells: map<nat, Cell>, futures: map<nat, Future>) {
    && (forall id :: id in futures <==> Owned(cells, id))
    && forall a, b :: a in cells && b in cells && cells[a].content.Owner? && cells[a].content == cells[b].content ==> a == b
  }

  /** How the cells and the child's table look to the executor. */
  ghost function Seen(cells: map<nat, Cell>, roots: seq<nat>, futures: map<nat, Future>): Store
    requires WellLinked(cells) && forall r :: r in roots ==> r in cells
  {
    Store(IdsOf(cells, roots), futures)
  }

  lemma SeenConsistent(cells: map<nat, Cell>, next: nat, roots: seq<nat>, futures: map<nat, Future>)
    requires WellCounted(cells, next, multiset(roots)) && OwnersMatch(cells, futures)
    ensures forall r :: r in roots ==> r in cells
    ensures Consistent(Seen(cells, roots, futures))
  {
    OwnedIsReferred(cells, next, roots);
  }

  lemma RootsLive(cells: map<nat, Cell>, next: nat, roots: seq<nat>)
    requires WellCounted(cells, next, multiset(roots))
    ensures forall r :: r in roots ==> r in cells
  {
    assert forall r :: r in roots ==> r in multiset(roots);
  }

  /** A freed owner takes its id along. */
  lemma FreeOwners(cells: map<nat, Cell>, a: nat, futures: map<nat, Future>)
    requires OwnersMatch(cells, futures) && a in cells
    ensures OwnersMatch(cells - {a}, if cells[a].content.Owner? then futures - {cells[a].content.id} else futures)
  {
    var cells' := cells - {a};
    forall id: nat
      ensures Owned(cells', id) <==> Owned(cells, id) && cells[a].content != Owner(id)
    {
      if Owned(cells, id) && cells[a].content != Owner(id) {
        var b: nat :| b in cells && cells[b].content == Owner(id);
        assert b in cells' && cells'[b].content == Owner(id);
      }
      if Owned(cells', id) {
        var b: nat :| b in cells' && cells'[b].content == Owner(id);
        assert b in cells && cells[b].content == Owner(id);
      }
    }
  }

  lemma RecountOwners(cells: map<nat, Cell>, a: nat, count: nat, futures: map<nat, Future>)
    requires OwnersMatch(cells, futures) && a in cells
    ensures OwnersMatch(Recount(cells, a, count), futures)
  {
    var cells' := Recount(cells, a, count);
    forall id: nat
      ensures Owned(cells', id) <==> Owned(cells, id)
    {
      if b: nat :| b in cells && cells[b].content == Owner(id) {
        assert b in cells' && cells'[b].content == Owner(id);
      }
    }
  }

  // ----- the same steps, seen from the executor -----

  lemma {:induction false} IdsOfSame(cells: map<nat, Cell>, cells': map<nat, Cell>, next: nat, roots: seq<nat>)
    requires WellLinked(cells) && WellLinked(cells') && Part(cells', cells)
    requires forall a :: a in cells ==> a < next
    requires forall r :: r in roots ==> r in cells'
    ensures (forall r :: r in roots ==> r in cells) && IdsOf(cells', roots) == IdsOf(cells, roots)
  {
    IdsOfPart(cells, cells', roots, next);
  }

  lemma SeenWithOne(cells: map<nat, Cell>, roots: seq<nat>, a: nat, futures: map<nat, Future>)
    requires WellLinked(cells) && forall r :: r in roots + [a] ==> r in cells
    ensures (forall r :: r in roots ==> r in cells) && a in cells
    ensures Seen(cells, roots + [a], futures).counts == Seen(cells, roots, futures).counts + IdsAt(cells, a)
  {
    hide WellLinked, IdsAt;
    assert forall r :: r in roots ==> r in roots + [a];
    assert a in roots + [a];
    IdsOfSum(cells, roots, [a]);
    IdsOfOne(cells, a);
  }

  lemma SeenCopied(cells: map<nat, Cell>, cells': map<nat, Cell>, next: nat, roots: seq<nat>, a: nat, futures: map<nat, Future>)
    requires WellCounted(cells, next, multiset(roots)) && OwnersMatch(cells, futures) && a in cells
    requires WellCounted(cells', next, multiset(roots + [a])) && OwnersMatch(cells', futures)
    requires Part(cells, cells') && Part(cells', cells)
    ensures (forall r :: r in roots ==> r in cells) && forall r :: r in roots + [a] ==> r in cells'
    ensures Gained(Seen(cells, roots, futures), Seen(cells', roots + [a], futures), IdsAt(cells, a))
  {
    hide WellLinked, OwnersMatch, InBag, IdsOf, IdsAt, Consistent;
    RootsLive(cells, next, roots);
    SeenConsistent(cells, next, roots, futures);
    SeenConsistent(cells', next, roots + [a], futures);
    SeenWithOne(cells, roots, a, futures);
    IdsOfSame(cells, cells', next, roots + [a]);
  }

  lemma SeenDropped(cells: map<nat, Cell>, cells': map<nat, Cell>, next: nat, rest: seq<nat>, a: nat,
    futures: map<nat, Future>, futures': map<nat, Future>)
    requires WellCounted(cells, next, multiset(rest + [a])) && WellCounted(cells', next, multiset(rest))
    requires OwnersMatch(cells', futures') && Part(cells', cells) && Grows(futures', futures)
    ensures (forall r :: r in rest + [a] ==> r in cells) && a in cells && forall r :: r in rest ==> r in cells'
    ensures Dropped(Seen(cells, rest + [a], futures), Seen(cells', rest, futures'), IdsAt(cells, a))
  {
    hide WellLinked, OwnersMatch, InBag, IdsOf, IdsAt, Consistent;
    RootsLive(cells, next, rest + [a]);
    RootsLive(cells', next, rest);
    SeenConsistent(cells', next, rest, futures');
    SeenWithOne(cells, rest, a, futures);
    IdsOfSame(cells, cells', next, rest);
  }

  /** A new cell stands for the id it owns, and for what the pointers moved into it stood
      for. */
  lemma SeenMade(cells: map<nat, Cell>, cells': map<nat, Cell>, next: nat, rest: seq<nat>, c: Content,
    futures: map<nat, Future>)
    requires WellCounted(cells, next, multiset(rest + Refs(c))) && WellCounted(cells', next + 1, multiset(rest + [next]))
    requires Part(cells, cells') && next in cells' && cells'[next].content == c
    ensures (forall r :: r in rest + Refs(c) ==> r in cells) && forall r :: r in rest + [next] ==> r in cells'
    ensures Seen(cells', rest + [next], futures).counts == Seen(cells, rest + Refs(c), futures).counts + OwnIds(c)
  {
    hide WellLinked, InBag, IdsOf, IdsAt, Refs;
    RootsLive(cells, next, rest + Refs(c));
    RootsLive(cells', next + 1, rest + [next]);
    assert forall r :: r in rest ==> r in rest + Refs(c);
    assert forall r :: r in Refs(c) ==> r in rest + Refs(c);
    IdsOfSum(cells, rest, Refs(c));
    SeenWithOne(cells', rest, next, futures);
    IdsUnfold(cells', next);
    IdsOfSame(cells', cells, next + 1, rest);
    IdsOfSame(cells', cells, next + 1, Refs(c));
  }

  lemma MakeOwners(cells: map<nat, Cell>, next: nat, c: Content, futures: map<nat, Future>, future: Future)
    requires OwnersMatch(cells, futures) && next !in cells && (c.Owner? ==> c.id !in futures)
    ensures OwnersMatch(cells[next := Cell(c, 1)], if c.Owner? then futures[c.id := future] else futures)
  {
    var cells' := cells[next := Cell(c, 1)];
    assert cells'[next].content == c;
    forall id: nat
      ensures Owned(cells', id) <==> Owned(cells, id) || c == Owner(id)
    {
      if b: nat :| b in cells && cells[b].content == Owner(id) {
        assert b in cells' && cells'[b].content == Owner(id);
      }
    }
    if c.Owner? {
      forall b | b in cells && cells[b].content == c
        ensures false
      {
        assert Owned(cells, c.id);
      }
    }
  }

  class SharedHeap {
    var cells: map<nat, Cell>
    var next: nat
    const table: IdTable<Future>

    constructor (table: IdTable<Future>)
      requires table.Valid() && table.tracked == map[]
      ensures Valid([]) && this.table == table && cells == map[]
    {
      cells, next, this.table := map[], 0, table;
    }

    /** `roots` are the pointers outside the heap. */
    ghost predicate Valid(roots: seq<nat>)
      reads this, table
    {
      && table.Valid() && OwnersMatch(cells, table.tracked)
      && WellCounted(cells, next, multiset(roots)) && forall r :: r in roots ==> r in cells
    }

    /** The heap and the child's table as the executor sees them. */
    ghost function View(roots: seq<nat>): Store
      requires Valid(roots)
      reads this, table
    {
      Seen(cells, roots, table.tracked)
    }

    method Copy(a: nat, ghost roots: seq<nat>)
      requires Valid(roots) && a in cells
      modifies this`cells
      ensures Valid(roots + [a]) && Part(old(cells), cells)
      ensures Gained(old(View(roots)), View(roots + [a]), old(IdsAt(cells, a)))
    {
      hide WellLinked, OwnersMatch, Counted, IdsAt, Gained;
      CopyKeeps(cells, next, multiset(roots), a);
      RecountOwners(cells, a, cells[a].count + 1, table.tracked);
      assert multiset(roots + [a]) == multiset(roots) + multiset{a};
      cells := Recount(cells, a, cells[a].count + 1);
      SeenCopied(old(cells), cells, next, roots, a, table.tracked);
    }

    /** A new value or scope takes over the pointers it is made from. */
    method Make(c: Content, ghost rest: seq<nat>) returns (a: nat)
      requires Valid(rest + Refs(c)) && Linked(cells, c, next) && !c.Owner?
      modifies this
      ensures Valid(rest + [a]) && a !in old(cells) && cells == old(cells)[a := Cell(c, 1)]
      ensures View(rest + [a]) == old(View(rest + Refs(c)))
    {
      hide WellLinked, OwnersMatch, Counted, Refs, Linked;
      FreshCell(cells, next, multiset(rest + Refs(c)));
      MovedIn(cells, next, rest, c);
      MakeOwners(cells, next, c, table.tracked, Err(NotFound));
      a := next;
      cells, next := cells[next := Cell(c, 1)], next + 1;
      SeenMade(old(cells), cells, old(next), rest, c, table.tracked);
    }

    /** A new value of the child, and the cell that owns its id. */
    method MakeOwner(future: Future, ghost rest: seq<nat>) returns (a: nat)
      requires Valid(rest)
      modifies this, table
      ensures Valid(rest + [a]) && a !in old(cells) && a in cells && cells[a].content.Owner?
      ensures cells == old(cells)[a := cells[a]] && Gained(old(View(rest)), View(rest + [a]), multiset{cells[a].content.id})
    {
      hide WellCounted, OwnersMatch, Gained;
      var id := table.TrackValue(future);
      OwnerMade(cells, next, rest, id, old(table.tracked), future);
      a := next;
      cells, next := cells[next := Cell(Owner(id), 1)], next + 1;
    }

    /** One pointer goes. When it was the last one to its cell, the cell goes too and gives
        back the id it owns, and the pointers inside are left over. */
    method DropOne(a: nat, ghost rest: seq<nat>) returns (refs: seq<nat>)
      requires Valid(rest + [a])
      modifies this`cells, table
      ensures Valid(rest + refs) && Part(cells, old(cells)) && Grows(table.tracked, old(table.tracked))
      ensures cells.Keys < old(cells.Keys) || (cells.Keys == old(cells.Keys) && refs == [])
    {
      hide WellLinked, OwnersMatch, Counted, Refs;
      assert a in rest + [a];
      assert multiset(rest + [a]) - multiset{a} == multiset(rest);
      if cells[a].count > 1 {
        DropKeeps(cells, next, multiset(rest + [a]), a);
        RecountOwners(cells, a, cells[a].count - 1, table.tracked);
        cells := Recount(cells, a, cells[a].count - 1);
        refs := [];
        assert rest + refs == rest;
      } else {
        OneLeft(cells, next, multiset(rest + [a]), a);
        FreeKeeps(cells, next, multiset(rest + [a]), a);
        FreeOwners(cells, a, table.tracked);
        var c := cells[a].content;
        refs := Refs(c);
        assert multiset(rest + refs) == multiset(rest) + RefsAt(cells, a);
        cells := cells - {a};
        if c.Owner? {
          var _ := table.Dispose(c.id);
        }
      }
      RootsLive(cells, next, rest + refs);
    }

    /** The destructor of a pointer, with all that follows from it. Exactly the cells that the
        remaining pointers do not reach go, and the executor loses exactly the references
        that the pointer stood for. */
    method Destroy(a: nat, ghost rest: seq<nat>)
      requires Valid(rest + [a])
      modifies this`cells, table
      ensures Valid(rest) && Part(cells, old(cells))
      ensures forall b :: b in cells <==> b in old(cells) && Reachable(old(cells), multiset(rest), b)
      ensures Dropped(old(View(rest + [a])), View(rest), old(IdsAt(cells, a)))
    {
      hide WellCounted, OwnersMatch, Dropped, Reachable, IdsAt, IdsOf, WellLinked;
      ghost var start := cells;
      var pending := [a];
      while pending != []
        invariant Valid(rest + pending) && Part(cells, start) && Grows(table.tracked, old(table.tracked))
        decreases cells.Keys, |pending|
      {
        var p, others := pending[|pending| - 1], pending[..|pending| - 1];
        assert rest + pending == rest + others + [p];
        var refs := DropOne(p, rest + others);
        pending := others + refs;
        assert rest + others + refs == rest + pending;
      }
      assert rest + pending == rest;
      LeftIsReachable(start, cells, next, multiset(rest));
      SeenDropped(start, cells, next, rest, a, old(table.tracked), table.tracked);
    }
  }

  lemma FreshCell(cells: map<nat, Cell>, next: nat, roots: multiset<nat>)
    requires WellCounted(cells, next, roots)
    ensures next !in cells
  {
  }

  lemma OwnerLinked(cells: map<nat, Cell>, id: nat, a: nat)
    ensures Linked(cells, Owner(id), a)
  {
  }

  lemma OneLeft(cells: map<nat, Cell>, next: nat, roots: multiset<nat>, a: nat)
    requires WellCounted(cells, next, roots) && a in cells && cells[a].count <= 1
    ensures cells[a].count == 1
  {
  }

  lemma MovedIn(cells: map<nat, Cell>, next: nat, rest: seq<nat>, c: Content)
    requires WellCounted(cells, next, multiset(rest + Refs(c))) && Linked(cells, c, next)
    ensures WellCounted(cells[next := Cell(c, 1)], next + 1, multiset(rest + [next]))
    ensures forall r :: r in rest + [next] ==> r in cells[next := Cell(c, 1)]
  {
    hide WellLinked, Counted, Refs, Linked;
    MakeKeeps(cells, next, multiset(rest + Refs(c)), c);
    assert multiset(rest + Refs(c)) - multiset(Refs(c)) + multiset{next} == multiset(rest + [next]);
    RootsLive(cells[next := Cell(c, 1)], next + 1, rest + [next]);
  }

  lemma OwnerMade(cells: map<nat, Cell>, next: nat, rest: seq<nat>, id: nat, futures: map<nat, Future>, future: Future)
    requires WellCounted(cells, next, multiset(rest)) && OwnersMatch(cells, futures) && id !in futures
    ensures next !in cells && forall r :: r in rest ==> r in cells
    ensures var cells' := cells[next := Cell(Owner(id), 1)];
      && WellCounted(cells', next + 1, multiset(rest + [next])) && OwnersMatch(cells', futures[id := future])
      && (forall r :: r in rest + [next] ==> r in cells')
      && Gained(Seen(cells, rest, futures), Seen(cells', rest + [next], futures[id := future]), multiset{id})
  {
    hide WellCounted, OwnersMatch, Linked, IdsOf, Consistent;
    var c, futures' := Owner(id), futures[id := future];
    var cells' := cells[next := Cell(c, 1)];
    assert rest + Refs(c) == rest;
    FreshCell(cells, next, multiset(rest));
    OwnerLinked(cells, id, next);
    MovedIn(cells, next, rest, c);
    MakeOwners(cells, next, c, futures, future);
    CountedLinked(cells, next, rest);
    CountedLinked(cells', next + 1, rest + [next]);
    SeenMade(cells, cells', next, rest, c, futures);
    SeenConsistent(cells, next, rest, futures);
    SeenConsistent(cells', next + 1, rest + [next], futures');
  }

  lemma CountedLinked(cells: map<nat, Cell>, next: nat, roots: seq<nat>)
    requires WellCounted(cells, next, multiset(roots))
    ensures WellLinked(cells) && forall r :: r in roots ==> r in cells
  {
    RootsLive(cells, next, roots);
  }
}
