/** The values of the control-flow executor as they are in memory: an embedded value owns an
    id of the child executor (genc/cc/runtime/control_flow_executor.cc). */
module ExecutorValues {
  import opened Common
  import opened Ir
  import opened Evaluator
  import opened IdTables
  import opened InlineExecutors

  datatype Node =
    | ChildId(id: nat)
    | Parts(elements: seq<Node>)
    | LambdaIn(param: string, body: Value, scope: Chain)
    | OperatorIn(op: Op, fixed: Option<Value>, scope: Chain)

  datatype Chain = Top | Link(name: string, value: Node, parent: Chain)

  /** What a value means, given the futures behind the child's ids. */
  ghost function Denote(x: Node, m: map<nat, Future>): XVal
    decreases x, 1
  {
    match x
    case ChildId(id) => Embedded(if id in m then m[id] else Err(NotFound))
    case Parts(elements) => Structure(DenoteAll(elements, m))
    case LambdaIn(param, body, scope) => Closure(param, body, DenoteScope(scope, m))
    case OperatorIn(op, fixed, scope) => Operator(op, fixed, DenoteScope(scope, m))
  }

  ghost function DenoteAll(xs: seq<Node>, m: map<nat, Future>): (ys: seq<XVal>)
    ensures |ys| == |xs| && forall k :: 0 <= k < |xs| ==> ys[k] == Denote(xs[k], m)
    decreases xs, 0
  {
    seq(|xs|, k requires 0 <= k < |xs| => Denote(xs[k], m))
  }

  ghost function DenoteScope(s: Chain, m: map<nat, Future>): Scope
    decreases s, 1
  {
    match s
    case Top => Root
    case Link(name, value, parent) => Bind(name, Denote(value, m), DenoteScope(parent, m))
  }

  /** The child ids a value keeps alive, each once for every way in which the value refers to
      it. A value shares its parts and its scope with others, and each of the references
      counts. */
  function Bag(x: Node): multiset<nat>
    decreases x, 1
  {
    match x
    case ChildId(id) => multiset{id}
    case Parts(elements) => BagAll(elements)
    case LambdaIn(_, _, scope) => ScopeBag(scope)
    case OperatorIn(_, _, scope) => ScopeBag(scope)
  }

  function BagAll(xs: seq<Node>): multiset<nat>
    decreases xs, 0
  {
    if xs == [] then multiset{} else Bag(xs[0]) + BagAll(xs[1..])
  }

  function ScopeBag(s: Chain): multiset<nat>
    decreases s, 1
  {
    match s
    case Top => multiset{}
    case Link(_, value, parent) => Bag(value) + ScopeBag(parent)
  }

  function ArgumentBag(a: Option<Node>): multiset<nat> {
    if a.None? then multiset{} else Bag(a.value)
  }

  ghost predicate Bound(x: Node, m: map<nat, Future>) {
    forall id :: id in Bag(x) ==> id in m
  }

  ghost predicate AllBound(xs: seq<Node>, m: map<nat, Future>) {
    forall k :: 0 <= k < |xs| ==> Bound(xs[k], m)
  }

  ghost predicate ScopeBound(s: Chain, m: map<nat, Future>) {
    forall id :: id in ScopeBag(s) ==> id in m
  }

  lemma {:induction false} BagAllHas(xs: seq<Node>, k: nat)
    requires k < |xs|
    ensures Bag(xs[k]) <= BagAll(xs)
  {
    if k > 0 {
      BagAllHas(xs[1..], k - 1);
    }
  }

  lemma {:induction false} BagAllAppend(xs: seq<Node>, x: Node)
    ensures BagAll(xs + [x]) == BagAll(xs) + Bag(x)
  {
    if xs == [] {
      assert BagAll([x]) == Bag(x) + BagAll([]);
    } else {
      BagAllAppend(xs[1..], x);
      assert (xs + [x])[1..] == xs[1..] + [x];
    }
  }

  lemma {:induction false} PartsBound(xs: seq<Node>, m: map<nat, Future>)
    ensures (forall id :: id in BagAll(xs) ==> id in m) <==> AllBound(xs, m)
  {
    forall k | 0 <= k < |xs|
      ensures Bag(xs[k]) <= BagAll(xs)
    {
      BagAllHas(xs, k);
    }
    if xs != [] {
      PartsBound(xs[1..], m);
      if AllBound(xs, m) {
        assert Bound(xs[0], m) && forall k :: 0 <= k < |xs[1..]| ==> xs[1..][k] == xs[k + 1];
      }
    }
  }

  lemma {:induction false} PartsMean(xs: seq<Node>, m: map<nat, Future>)
    requires AllBound(xs, m)
    ensures Bound(Parts(xs), m) && Denote(Parts(xs), m) == Structure(DenoteAll(xs, m))
  {
    PartsBound(xs, m);
  }

  lemma {:induction false} PartsBag(xs: seq<Node>, m: map<nat, Future>)
    requires AllBound(xs, m)
    ensures Bag(Parts(xs)) == BagAll(xs)
    ensures Bound(Parts(xs), m) && Denote(Parts(xs), m) == Structure(DenoteAll(xs, m))
  {
    PartsMean(xs, m);
  }

  /** A value means the same for as long as its ids stay in the table. */
  lemma {:induction false} Keep(x: Node, m: map<nat, Future>, m': map<nat, Future>)
    requires Bound(x, m) && forall id :: id in Bag(x) ==> id in m' && m'[id] == m[id]
    ensures Bound(x, m') && Denote(x, m') == Denote(x, m)
    decreases x
  {
    match x
    case ChildId(_) =>
    case Parts(elements) =>
      PartsBound(elements, m);
      forall k | 0 <= k < |elements|
        ensures Denote(elements[k], m') == Denote(elements[k], m)
      {
        BagAllHas(elements, k);
        Keep(elements[k], m, m');
      }
      assert DenoteAll(elements, m') == DenoteAll(elements, m);
    case LambdaIn(_, _, scope) => KeepScope(scope, m, m');
    case OperatorIn(_, _, scope) => KeepScope(scope, m, m');
  }

  lemma {:induction false} KeepScope(s: Chain, m: map<nat, Future>, m': map<nat, Future>)
    requires ScopeBound(s, m) && forall id :: id in ScopeBag(s) ==> id in m' && m'[id] == m[id]
    ensures ScopeBound(s, m') && DenoteScope(s, m') == DenoteScope(s, m)
    decreases s
  {
    match s
    case Top =>
    case Link(_, value, parent) =>
      Keep(value, m, m');
      KeepScope(parent, m, m');
  }

  lemma {:induction false} KeepNode(x: Node, m: map<nat, Future>, m': map<nat, Future>)
    requires Bound(x, m) && Grows(m, m')
    ensures Bound(x, m') && Denote(x, m') == Denote(x, m)
  {
    Keep(x, m, m');
  }

  lemma {:induction false} KeepAll(xs: seq<Node>, m: map<nat, Future>, m': map<nat, Future>)
    requires AllBound(xs, m) && Grows(m, m')
    ensures AllBound(xs, m') && DenoteAll(xs, m') == DenoteAll(xs, m)
  {
    forall k | 0 <= k < |xs|
      ensures Bound(xs[k], m') && Denote(xs[k], m') == Denote(xs[k], m)
    {
      assert Bound(xs[k], m);
      KeepNode(xs[k], m, m');
    }
  }

  lemma {:induction false} KeepChain(s: Chain, m: map<nat, Future>, m': map<nat, Future>)
    requires ScopeBound(s, m) && Grows(m, m')
    ensures ScopeBound(s, m') && DenoteScope(s, m') == DenoteScope(s, m)
  {
    KeepScope(s, m, m');
  }

  /** The concrete result `r` of a step of the executor has the specified outcome. */
  ghost predicate Means(r: Outcome<Node>, spec: Outcome<XVal>, m: map<nat, Future>) {
    match r
    case OutOfFuel => spec == OutOfFuel
    case Done(Err(c)) => spec == Done(Err(c))
    case Done(Ok(x)) => Bound(x, m) && spec == Done(Ok(Denote(x, m)))
  }

  ghost predicate MeanAll(r: Outcome<seq<Node>>, spec: Outcome<seq<XVal>>, m: map<nat, Future>) {
    match r
    case OutOfFuel => spec == OutOfFuel
    case Done(Err(c)) => spec == Done(Err(c))
    case Done(Ok(xs)) => AllBound(xs, m) && spec == Done(Ok(DenoteAll(xs, m)))
  }

  ghost function DenoteArgument(a: Option<Node>, m: map<nat, Future>): Option<XVal> {
    if a.None? then None else Some(Denote(a.value, m))
  }

  /** `Scope::Resolve`. */
  function Lookup(s: Chain, name: string): Result<Node> {
    match s
    case Top => Err(NotFound)
    case Link(n, x, parent) => if n == name then Ok(x) else Lookup(parent, name)
  }

  lemma {:induction false} LookupMeans(s: Chain, name: string, m: map<nat, Future>)
    requires ScopeBound(s, m)
    ensures Means(Done(Lookup(s, name)), Done(Resolve(DenoteScope(s, m), name)), m)
    decreases s
  {
    match s
    case Top =>
    case Link(n, x, parent) => LookupMeans(parent, name, m);
  }

  lemma {:induction false} LookupHas(s: Chain, name: string)
    ensures Lookup(s, name).Ok? ==> Bag(Lookup(s, name).value) <= ScopeBag(s)
    decreases s
  {
    match s
    case Top =>
    case Link(n, x, parent) => LookupHas(parent, name);
  }

  /** One more member has been evaluated. */
  lemma FollowedStep(done: seq<XVal>, x: XVal, rest: Outcome<seq<XVal>>)
    ensures Followed(done, Followed([x], rest)) == Followed(done + [x], rest)
  {
    if rest.IsOk() {
      assert done + ([x] + rest.result.value) == (done + [x]) + rest.result.value;
    }
  }

  lemma FollowedEnds(rest: Outcome<seq<XVal>>)
    ensures Followed([], rest) == rest
  {
    if rest.IsOk() {
      assert [] + rest.result.value == rest.result.value;
    }
  }

  /** As `Means`, for a value that comes with something else. */
  ghost predicate MeanPair<T>(r: Outcome<(Node, T)>, spec: Outcome<(XVal, T)>, m: map<nat, Future>) {
    match r
    case OutOfFuel => spec == OutOfFuel
    case Done(Err(c)) => spec == Done(Err(c))
    case Done(Ok((x, t))) => Bound(x, m) && spec == Done(Ok((Denote(x, m), t)))
  }

  function Answer(o: Outcome<(XVal, Value)>): Outcome<Value> {
    var (y, d) :- o;
    Done(Ok(d))
  }

  // ----- what a result owns -----

  function Got(r: Outcome<Node>): multiset<nat> {
    if r.IsOk() then Bag(r.result.value) else multiset{}
  }

  function GotAll(r: Outcome<seq<Node>>): multiset<nat> {
    if r.IsOk() then BagAll(r.result.value) else multiset{}
  }

  function GotPair<T>(r: Outcome<(Node, T)>): multiset<nat> {
    if r.IsOk() then Bag(r.result.value.0) else multiset{}
  }

  /** A result keeps its meaning when others give their ids back. */
  lemma StillMeans(r: Outcome<Node>, spec: Outcome<XVal>, m: map<nat, Future>, m': map<nat, Future>)
    requires Means(r, spec, m) && Grows(m', m) && forall id :: id in Got(r) ==> id in m'
    ensures Means(r, spec, m')
  {
    if r.IsOk() {
      KeepNode(r.result.value, m', m);
    }
  }

  lemma StillMeanAll(r: Outcome<seq<Node>>, spec: Outcome<seq<XVal>>, m: map<nat, Future>, m': map<nat, Future>)
    requires MeanAll(r, spec, m) && Grows(m', m) && forall id :: id in GotAll(r) ==> id in m'
    ensures MeanAll(r, spec, m')
  {
    if r.IsOk() {
      PartsBound(r.result.value, m');
      KeepAll(r.result.value, m', m);
    }
  }

  lemma StillMeanPair<T>(r: Outcome<(Node, T)>, spec: Outcome<(XVal, T)>, m: map<nat, Future>, m': map<nat, Future>)
    requires MeanPair(r, spec, m) && Grows(m', m) && forall id :: id in GotPair(r) ==> id in m'
    ensures MeanPair(r, spec, m')
  {
    if r.IsOk() {
      KeepNode(r.result.value.0, m', m);
    }
  }
}
