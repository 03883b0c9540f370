/** The inline executor as an object: a table of futures. */
module InlineExecutors {
  import opened Common
  import opened Ir
  import opened Evaluator
  import opened IdTables

  // genc/cc/runtime/inline_executor.cc behind the public methods of
  // genc/cc/runtime/executor.h. A future is recorded with its outcome, which `Futures` shows
  // no scheduler can change.

  type Future = Result<Value>

  /** What is left of a table after a value was added, or after nothing was. */
  ghost predicate Added(m: map<nat, Future>, n: nat, m': map<nat, Future>, n': nat, id: nat, future: Future) {
    id == n && n' == n + 1 && id !in m && m' == m[id := future]
  }

  class InlineExecutor {
    const rt: Runtime
    const table: IdTable<Future>

    constructor (rt: Runtime)
      ensures this.rt == rt && fresh(table) && table.Valid() && table.tracked == map[]
    {
      this.rt := rt;
      table := new IdTable<Future>();
    }

    ghost predicate Valid()
      reads table
    {
      table.Valid()
    }

    twostate predicate Same()
      reads table
    {
      table.tracked == old(table.tracked) && table.nextValueId == old(table.nextValueId)
    }

    twostate predicate Adds(id: nat, new future: Future)
      reads table
    {
      Added(old(table.tracked), old(table.nextValueId), table.tracked, table.nextValueId, id, future)
    }

    method CreateValue(v: Value) returns (id: nat)
      requires Valid()
      modifies table
      ensures Valid() && Adds(id, Ok(v))
    {
      id := table.TrackValue(Ok(v));
    }

    /** The ids are looked up when the call is made; every other error goes into the future. */
    method CreateCall(fn: nat, argument: Option<nat>) returns (r: Result<nat>)
      requires Valid()
      modifies table
      ensures Valid()
      ensures r.Ok? <==> fn in old(table.tracked) && argument.Some? && argument.value in old(table.tracked)
      ensures r.Err? ==> Same()
      ensures r.Err? && fn in old(table.tracked) && argument.None? ==> r.code == InvalidArgument
      ensures r.Ok? ==>
        Adds(r.value, ChildCall(rt, old(table.tracked)[fn], old(table.tracked)[argument.value]))
    {
      var function_future :- table.GetTracked(fn);
      if argument.None? {
        return Err(InvalidArgument);
      }
      var argument_future :- table.GetTracked(argument.value);
      var id := table.TrackValue(ChildCall(rt, function_future, argument_future));
      return Ok(id);
    }

    method CreateStruct(members: seq<nat>) returns (r: Result<nat>)
      requires Valid()
      modifies table
      ensures Valid()
      ensures r.Ok? <==> forall k :: 0 <= k < |members| ==> members[k] in old(table.tracked)
      ensures r.Err? ==> r.code == NotFound && Same()
      ensures r.Ok? ==> Adds(r.value, ChildStruct(FuturesOf(old(table.tracked), members)))
    {
      var futures :- table.GetAllTracked(members);
      assert futures == FuturesOf(table.tracked, members);
      var future := GatherMembers(futures);
      var id := table.TrackValue(future);
      return Ok(id);
    }

    method CreateSelection(source: nat, index: nat) returns (r: Result<nat>)
      requires Valid()
      modifies table
      ensures Valid()
      ensures r.Ok? <==> source in old(table.tracked)
      ensures r.Err? ==> r.code == NotFound && Same()
      ensures r.Ok? ==> Adds(r.value, ChildSelect(old(table.tracked)[source], index))
    {
      var future :- table.GetTracked(source);
      var id := table.TrackValue(ChildSelect(future, index));
      return Ok(id);
    }

    method Materialize(id: nat) returns (r: Result<Value>)
      ensures r == if id in table.tracked then table.tracked[id] else Err(NotFound)
    {
      var future :- table.GetTracked(id);
      return future;
    }
  }

  /** The futures that the members of a struct name. */
  function FuturesOf(tracked: map<nat, Future>, ids: seq<nat>): (futures: seq<Future>)
    requires forall k :: 0 <= k < |ids| ==> ids[k] in tracked
    ensures |futures| == |ids| && forall k :: 0 <= k < |ids| ==> futures[k] == tracked[ids[k]]
  {
    seq(|ids|, k requires 0 <= k < |ids| => tracked[ids[k]])
  }

  /** A struct task that has already copied `elements`, with `rest` to come. */
  function Resumed(elements: seq<Value>, rest: Result<seq<Value>>): Result<seq<Value>> {
    match rest
    case Err(c) => Err(c)
    case Ok(values) => Ok(elements + values)
  }

  /** The loop of a task that builds a struct: it waits for its members in order, and stops
      at the first that failed. */
  method GatherMembers(futures: seq<Future>) returns (r: Future)
    ensures r == ChildStruct(futures)
  {
    var elements: seq<Value> := [];
    assert futures[0..] == futures;
    ghost var all := ChildMembers(futures);
    assert all.Ok? ==> elements + all.value == all.value;
    for i := 0 to |futures|
      invariant ChildMembers(futures) == Resumed(elements, ChildMembers(futures[i..]))
    {
      ghost var rest := ChildMembers(futures[i + 1..]);
      assert futures[i..][1..] == futures[i + 1..];
      if futures[i].Err? {
        return Err(futures[i].code);
      }
      assert rest.Ok? ==> elements + ([futures[i].value] + rest.value) == elements + [futures[i].value] + rest.value;
      elements := elements + [futures[i].value];
    }
    assert elements + [] == elements;
    return Ok(Struct(elements, NO_META));
  }
}
