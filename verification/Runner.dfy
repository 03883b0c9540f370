/** The control-flow executor behind its public methods, and the runner that drives it.

    genc/cc/runtime/executor.h and genc/cc/runtime/runner.cc. The child executor serves this
    executor alone. */
module Runners {
  import opened Common
  import opened Ir
  import opened Evaluator
  import opened IdTables
  import opened InlineExecutors
  import opened ExecutorValues
  import opened ValueReferences
  import opened ControlFlowExecutors

  /** The references that the values tracked under ids below `n` hold. */
  function TableBag(m: map<nat, Node>, n: nat): multiset<nat> {
    if n == 0 then multiset{}
    else TableBag(m, n - 1) + if n - 1 in m then Bag(m[n - 1]) else multiset{}
  }

  lemma {:induction false} TableBagAbove(m: map<nat, Node>, n: nat, k: nat, x: Node)
    requires n <= k
    ensures TableBag(m[k := x], n) == TableBag(m, n)
  {
    if n > 0 {
      TableBagAbove(m, n - 1, k, x);
    }
  }

  /** Tracking a value adds the references it holds, under the next id. */
  lemma TableBagAdd(m: map<nat, Node>, n: nat, x: Node)
    ensures TableBag(m[n := x], n + 1) == TableBag(m, n) + Bag(x)
  {
    TableBagAbove(m, n, n, x);
  }

  lemma {:induction false} TableBagHas(m: map<nat, Node>, n: nat, k: nat)
    requires k in m && k < n
    ensures Bag(m[k]) <= TableBag(m, n)
  {
    if k < n - 1 {
      TableBagHas(m, n - 1, k);
    }
  }

  lemma {:induction false} TableBagWithout(m: map<nat, Node>, n: nat, k: nat)
    requires k !in m || n <= k
    ensures TableBag(m - {k}, n) == TableBag(m, n)
  {
    if n > 0 {
      TableBagWithout(m, n - 1, k);
    }
  }

  /** Untracking a value takes away exactly the references it holds. */
  lemma {:induction false} TableBagLess(m: map<nat, Node>, n: nat, k: nat)
    requires k in m && k < n
    ensures TableBag(m, n) == TableBag(m - {k}, n) + Bag(m[k])
  {
    hide Bag;
    if k == n - 1 {
      TableBagWithout(m, n - 1, k);
    } else {
      TableBagLess(m, n - 1, k);
      var last := if n - 1 in m then Bag(m[n - 1]) else multiset{};
      assert TableBag(m - {k}, n) == TableBag(m - {k}, n - 1) + last;
    }
  }

  class Executor {
    const core: ControlFlowExecutor
    const table: IdTable<Node>

    constructor (core: ControlFlowExecutor, table: IdTable<Node>)
      requires core.Valid() && core.counts == multiset{} && table.Valid() && table.tracked == map[]
      requires table.nextValueId == 0 && (table as object) != (core.child.table as object)
      ensures Valid() && this.core == core && this.table == table
    {
      this.core, this.table := core, table;
    }

    ghost function Child(): map<nat, Future>
      reads core.child.table
    {
      core.child.table.tracked
    }

    /** Between calls the only references are those of the tracked values, and the child
        tracks exactly the ids that are referred to. */
    ghost predicate Valid()
      reads table, core, core.child.table
    {
      && (table as object) != (core.child.table as object)
      && table.Valid() && core.Valid()
      && core.counts == TableBag(table.tracked, table.nextValueId)
    }

    lemma Held(id: nat)
      requires Valid() && id in table.tracked
      ensures core.Holds(Bag(table.tracked[id])) && Bound(table.tracked[id], Child())
      ensures core.Holds(multiset{})
    {
      TableBagHas(table.tracked, table.nextValueId, id);
    }

    lemma HoldsNothing()
      requires Valid()
      ensures core.Holds(ScopeBag(Top)) && DenoteScope(Top, Child()) == Root
    {
    }

    lemma StartsEmpty()
      requires Valid()
      ensures Gained(core.State(), core.State(), BagAll([]))
    {
    }

    lemma TableHolds(st: Store, id: nat)
      requires Consistent(st) && st.counts == TableBag(table.tracked, table.nextValueId)
      requires table.Valid() && id in table.tracked
      ensures Has(st, Bag(table.tracked[id]))
    {
      TableBagHas(table.tracked, table.nextValueId, id);
    }

    /** `TrackValue` on the result of a call: the table takes over the reference. */
    method Finish(x: Outcome<Node>, ghost before: Store) returns (r: Outcome<nat>)
      requires (table as object) != (core.child.table as object) && table.Valid() && core.child.Valid()
      requires Gained(before, core.State(), Got(x)) && before.counts == TableBag(table.tracked, table.nextValueId)
      modifies table
      ensures Valid()
      ensures r.OutOfFuel? <==> x.OutOfFuel?
      ensures x.Done? && x.result.Err? ==> r == Done(Err(x.result.code))
      ensures !x.IsOk() ==> table.tracked == old(table.tracked) && core.State() == before
      ensures x.IsOk() ==> r == Done(Ok(old(table.nextValueId))) && r.result.value !in old(table.tracked)
      ensures x.IsOk() ==> table.tracked == old(table.tracked)[r.result.value := x.result.value]
    {
      hide Bag, TableBag;
      GainedIds(before, core.State(), Got(x));
      if x.IsOk() {
        TableBagAdd(table.tracked, table.nextValueId, x.result.value);
        var id := table.TrackValue(x.result.value);
        return Done(Ok(id));
      }
      return x.PropagateFailure();
    }

    /** A tracked value, seen from outside. */
    ghost function Meaning(id: nat): XVal
      requires id in table.tracked
      reads table, core.child.table
    {
      Denote(table.tracked[id], Child())
    }

    /** A call has added one tracked value, meaning `x`, and the references that value holds,
        and nothing else. */
    twostate predicate Tracks(id: nat, new x: XVal)
      reads table, core, core.child.table
    {
      && id == old(table.nextValueId) && id !in old(table.tracked)
      && id in table.tracked && table.tracked == old(table.tracked)[id := table.tracked[id]]
      && Gained(old(core.State()), core.State(), Bag(table.tracked[id]))
      && Meaning(id) == x
    }

    /** The result of a public method whose specified outcome is `spec`. */
    twostate predicate Reports(new r: Outcome<nat>, new spec: Outcome<XVal>)
      reads table, core, core.child.table
    {
      match spec
      case OutOfFuel => r == OutOfFuel && Unchanged()
      case Done(Err(c)) => r == Done(Err(c)) && Unchanged()
      case Done(Ok(x)) => r.IsOk() && Tracks(r.result.value, x)
    }

    twostate predicate Unchanged()
      reads table, core, core.child.table
    {
      table.tracked == old(table.tracked) && core.State() == old(core.State())
    }

    method CreateValue(n: nat, v: Value) returns (r: Outcome<nat>)
      requires Valid()
      modifies table, core`counts, core.child.table
      ensures Valid() && Reports(r, Create(core.child.rt, n, v, Root))
    {
      hide Bag, TableBag, Denote, Create, Consistent, Has, Gained, Bound;
      ghost var before := core.State();
      HoldsNothing();
      var x := core.CreateInContext(n, v, Top);
      r := Finish(x, before);
    }

    method CreateCall(n: nat, fn: nat, argument: Option<nat>) returns (r: Outcome<nat>)
      requires Valid()
      modifies table, core`counts, core.child.table
      ensures Valid()
      ensures fn !in old(table.tracked) || (argument.Some? && argument.value !in old(table.tracked)) ==>
        r == Done(Err(NotFound)) && Unchanged()
      ensures fn in old(table.tracked) && (argument.Some? ==> argument.value in old(table.tracked)) ==>
        Reports(r, Apply(core.child.rt, n, old(Meaning(fn)),
          if argument.Some? then Some(old(Meaning(argument.value))) else None))
    {
      hide Bag, TableBag, Denote, Apply, Consistent, Has, Gained, Bound;
      var f := table.GetTracked(fn);
      if f.Err? {
        return Done(Err(f.code));
      }
      Held(fn);
      var a: Option<Node> := None;
      if argument.Some? {
        var x := table.GetTracked(argument.value);
        if x.Err? {
          return Done(Err(x.code));
        }
        Held(argument.value);
        a := Some(x.value);
      }
      ghost var before := core.State();
      var y := core.CreateCall(n, f.value, a);
      r := Finish(y, before);
    }

    ghost function Meanings(ids: seq<nat>): (xs: seq<XVal>)
      requires forall k :: 0 <= k < |ids| ==> ids[k] in table.tracked
      reads table, core.child.table
    {
      seq(|ids|, k requires 0 <= k < |ids| && ids[k] in table.tracked reads table, core.child.table => Meaning(ids[k]))
    }

    /** A member may be named more than once; each mention copies its references. */
    method CreateStruct(members: seq<nat>) returns (r: Outcome<nat>)
      requires Valid()
      modifies table, core`counts, core.child.table
      ensures Valid()
      ensures (exists k :: 0 <= k < |members| && members[k] !in old(table.tracked)) ==>
        r == Done(Err(NotFound)) && Unchanged()
      ensures (forall k :: 0 <= k < |members| ==> members[k] in old(table.tracked)) ==>
        Reports(r, Done(Ok(Structure(old(Meanings(members))))))
    {
      hide Bag, BagAll, TableBag, Denote, Has, Gained, Consistent, Bound;
      ghost var before := core.State();
      StartsEmpty();
      var values: seq<Node> := [];
      for i := 0 to |members|
        invariant (table as object) != (core.child.table as object) && table.Valid() && core.child.Valid()
        invariant table.tracked == old(table.tracked) && table.nextValueId == old(table.nextValueId)
        invariant |values| == i && Gained(before, core.State(), BagAll(values)) && Child() == before.futures
        invariant forall k :: 0 <= k < i ==> members[k] in table.tracked && values[k] == table.tracked[members[k]]
      {
        var x := table.GetTracked(members[i]);
        ghost var s1 := core.State();
        HasGained(before, s1, BagAll(values));
        if x.Err? {
          HasGainsNothing(s1, BagAll(values));
          core.AbandonNodes(before, s1, values);
          GainedIds(before, core.State(), multiset{});
          return Done(Err(x.code));
        }
        TableHolds(before, members[i]);
        HasStill(before, s1, BagAll(values), Bag(x.value));
        core.Retain(Bag(x.value));
        GainElement(before, s1, core.State(), values, x.value);
        values := values + [x.value];
      }
      HasGained(before, core.State(), BagAll(values));
      HasAllBound(values, core.State());
      PartsBag(values, Child());
      assert DenoteAll(values, Child()) == old(Meanings(members));
      r := Finish(Done(Ok(Parts(values))), before);
    }

    method CreateSelection(source: nat, index: nat) returns (r: Outcome<nat>)
      requires Valid()
      modifies table, core`counts, core.child.table
      ensures Valid()
      ensures source !in old(table.tracked) ==> r == Done(Err(NotFound)) && Unchanged()
      ensures source in old(table.tracked) ==> Reports(r, Done(Selection(old(Meaning(source)), index)))
    {
      hide Bag, TableBag, Denote, Selection, Consistent, Has, Gained, Bound;
      var x := table.GetTracked(source);
      if x.Err? {
        return Done(Err(x.code));
      }
      Held(source);
      ghost var before := core.State();
      var y := core.CreateSelection(x.value, index);
      r := Finish(y, before);
    }

    method Materialize(id: nat) returns (r: Result<Value>)
      requires Valid()
      modifies core.child.table
      ensures Valid() && Unchanged()
      ensures r == if id in table.tracked then Evaluator.Materialize(Meaning(id)) else Err(NotFound)
    {
      var x :- table.GetTracked(id);
      Held(id);
      r := core.MaterializeValue(x);
    }

    /** The value leaves the table and gives up its references. What the others refer to
        stays. */
    method Dispose(id: nat) returns (r: Result<bool>)
      requires Valid()
      modifies table, core`counts, core.child.table
      ensures Valid() && table.tracked == old(table.tracked) - {id}
      ensures r == if id in old(table.tracked) then Ok(true) else Err(NotFound)
      ensures id in old(table.tracked) ==> Dropped(old(core.State()), core.State(), old(Bag(table.tracked[id])))
      ensures id !in old(table.tracked) ==> core.State() == old(core.State())
    {
      hide Bag, TableBag, Consistent, Bound;
      var x := table.GetTracked(id);
      r := table.Dispose(id);
      if x.Err? {
        assert table.tracked == old(table.tracked);
        return;
      }
      ghost var rest := TableBag(table.tracked, table.nextValueId);
      TableBagLess(old(table.tracked), table.nextValueId, id);
      assert core.counts == rest + Bag(x.value);
      core.Release(x.value);
      assert core.counts == rest;
    }

    /** The destructor of the owner of a value that was added to the state `s0`. */
    method DisposeOwned(id: nat, ghost s0: Store)
      requires Valid() && id in table.tracked && Gained(s0, core.State(), Bag(table.tracked[id]))
      modifies table, core`counts, core.child.table
      ensures Valid() && table.tracked == old(table.tracked) - {id} && core.State() == s0
    {
      hide Bag, TableBag, Gained, Dropped, Consistent;
      ghost var s1, x := core.State(), table.tracked[id];
      var _ := Dispose(id);
      GainBack(s0, s1, core.State(), Bag(x));
    }
  }

  function CallOutcome(rt: Runtime, n: nat, f: XVal, arg: Value): Outcome<Value> {
    var x :- Create(rt, n, arg, Root);
    Answer(Ask(rt, n, f, Some(x)))
  }

  /** What a run means: create the computation and its argument, call, materialise. */
  function RunOutcome(rt: Runtime, n: nat, computation: Value, arg: Value): Outcome<Value> {
    var f :- Create(rt, n, computation, Root);
    CallOutcome(rt, n, f, arg)
  }

  lemma Removed(t0: map<nat, Node>, t: map<nat, Node>, id: nat, x: Node)
    requires id !in t0 && t == t0[id := x]
    ensures t - {id} == t0
  {
  }

  /** The part of `RunInternal` that owns the result. */
  method CallAndMaterialize(executor: Executor, n: nat, compVal: nat, argVal: nat) returns (r: Outcome<Value>)
    requires executor.Valid() && compVal in executor.table.tracked && argVal in executor.table.tracked
    modifies executor.table, executor.core`counts, executor.core.child.table
    ensures executor.Valid() && executor.Unchanged()
    ensures r == Answer(Ask(executor.core.child.rt, n, old(executor.Meaning(compVal)), Some(old(executor.Meaning(argVal)))))
  {
    hide TableBag, Denote, Bag, Apply, Materialize, Gained, Dropped, Has, Consistent, Bound;
    ghost var s0 := executor.core.State();
    var resultVal :- executor.CreateCall(n, compVal, Some(argVal));
    ghost var x := executor.table.tracked[resultVal];
    var result := executor.Materialize(resultVal);
    executor.DisposeOwned(resultVal, s0);
    Removed(old(executor.table.tracked), old(executor.table.tracked)[resultVal := x], resultVal, x);
    return Done(result);
  }

  /** The part that owns the argument. */
  method CallOnArgument(executor: Executor, n: nat, compVal: nat, arg: Value) returns (r: Outcome<Value>)
    requires executor.Valid() && compVal in executor.table.tracked
    modifies executor.table, executor.core`counts, executor.core.child.table
    ensures executor.Valid() && executor.Unchanged()
    ensures r == CallOutcome(executor.core.child.rt, n, old(executor.Meaning(compVal)), arg)
  {
    hide TableBag, Denote, Bag, Create, Ask, Gained, Dropped, Has, Consistent, Bound;
    ghost var s0 := executor.core.State();
    executor.Held(compVal);
    var argVal :- executor.CreateValue(n, arg);
    ghost var s1 := executor.core.State();
    ghost var x := executor.table.tracked[argVal];
    SameNode(executor.table.tracked[compVal], s0, s1, Bag(x));
    r := CallAndMaterialize(executor, n, compVal, argVal);
    executor.DisposeOwned(argVal, s0);
    Removed(old(executor.table.tracked), old(executor.table.tracked)[argVal := x], argVal, x);
  }

  /** `RunInternal`. The three owners are released on every way out, so on success and on
      error the tables of the executor and of its child end as they began. */
  method RunInternal(executor: Executor, n: nat, computation: Value, arg: Value) returns (r: Outcome<Value>)
    requires executor.Valid()
    modifies executor.table, executor.core`counts, executor.core.child.table
    ensures executor.Valid()
    ensures executor.table.tracked == old(executor.table.tracked)
    ensures executor.core.child.table.tracked == old(executor.core.child.table.tracked)
    ensures r == RunOutcome(executor.core.child.rt, n, computation, arg)
  {
    hide TableBag, Denote, Bag, Create, CallOutcome, Gained, Dropped, Has, Consistent, Bound;
    ghost var s0 := executor.core.State();
    var compVal :- executor.CreateValue(n, computation);
    ghost var x := executor.table.tracked[compVal];
    r := CallOnArgument(executor, n, compVal, arg);
    executor.DisposeOwned(compVal, s0);
    Removed(old(executor.table.tracked), old(executor.table.tracked)[compVal := x], compVal, x);
  }

  /** A run is the call of the computation on the argument, as an expression, materialised. */
  lemma {:induction false} RunIsCall(rt: Runtime, n: nat, computation: Value, arg: Value, meta: Meta)
    requires !computation.NotSet? && !arg.NotSet?
    ensures RunOutcome(rt, n, computation, arg) ==
      var y := Eval(rt, n + 1, Call(computation, Some(arg), meta), Root);
      if y.IsOk() then Done(Materialize(y.result.value)) else y.PropagateFailure()
  {
  }
}
