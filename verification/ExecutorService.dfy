/** The steps of the executor service on the id table of the executor it serves. */
module ExecutorServices {
  import opened Common
  import opened IdTables

  // genc/cc/runtime/executor_service.cc. A reference that does not parse as an id is `None`.

  /** Every reference is an id in the table. */
  predicate AllTracked(tracked: set<nat>, refs: seq<Option<nat>>) {
    forall k :: 0 <= k < |refs| ==> refs[k].Some? && refs[k].value in tracked
  }

  function IdsOf(refs: seq<Option<nat>>): (ids: set<nat>)
    ensures forall id: nat :: id in ids <==> Some(id) in refs
  {
    if refs == [] then {}
    else IdsOf(refs[..|refs| - 1]) + if refs[|refs| - 1].Some? then {refs[|refs| - 1].value} else {}
  }

  predicate Distinct(refs: seq<Option<nat>>) {
    forall j, k :: 0 <= j < k < |refs| ==> refs[j] != refs[k]
  }

  /** No disposal of the list fails: each names an id that is tracked and not yet disposed of. */
  predicate Disposes(tracked: set<nat>, refs: seq<Option<nat>>) {
    if refs == [] then true
    else
      var last := refs[|refs| - 1];
      var before := refs[..|refs| - 1];
      Disposes(tracked, before) && last.Some? && last.value in tracked && last.value !in IdsOf(before)
  }

  lemma {:induction false} DisposesIff(tracked: set<nat>, refs: seq<Option<nat>>)
    ensures Disposes(tracked, refs) <==> AllTracked(tracked, refs) && Distinct(refs)
  {
    if refs != [] {
      var last := |refs| - 1;
      var before := refs[..last];
      DisposesIff(tracked, before);
      assert refs == before + [refs[last]];
      assert refs[last] in before <==> exists k :: 0 <= k < last && refs[k] == refs[last];
      assert AllTracked(tracked, refs) <==> AllTracked(tracked, before) && refs[last].Some? && refs[last].value in tracked;
      assert Distinct(refs) <==> Distinct(before) && refs[last] !in before;
    }
  }

  class ExecutorService<V(!new)> {
    const table: IdTable<V>

    constructor (table: IdTable<V>)
      ensures this.table == table
    {
      this.table := table;
    }

    /** The arguments of a create request. All references are parsed before any is looked up. */
    method ReadArguments(refs: seq<Option<nat>>) returns (r: Result<seq<V>>)
      ensures r.Ok? <==> AllTracked(table.tracked.Keys, refs)
      ensures r.Ok? ==> |r.value| == |refs| && forall k :: 0 <= k < |refs| ==> r.value[k] == table.tracked[refs[k].value]
      ensures r.Err? ==> r.code == if None in refs then InvalidArgument else NotFound
    {
      var ids: seq<nat> := [];
      for i := 0 to |refs|
        invariant |ids| == i && forall k :: 0 <= k < i ==> refs[k] == Some(ids[k])
      {
        if refs[i].None? {
          return Err(InvalidArgument);
        }
        ids := ids + [refs[i].value];
      }
      r := table.GetAllTracked(ids);
      assert r.Ok? ==> forall k :: 0 <= k < |refs| ==> refs[k].value == ids[k];
    }

    /** A create request, where the executor makes `made` of the arguments. The service owns
        the new id only until it is in the response; then the client has to dispose of it. */
    method Create(refs: seq<Option<nat>>, made: Result<V>) returns (response: Result<nat>)
      requires table.Valid()
      modifies table
      ensures table.Valid()
      ensures response.Ok? <==> AllTracked(old(table.tracked).Keys, refs) && made.Ok?
      ensures response.Ok? ==> response.value !in old(table.tracked) && response.value == old(table.nextValueId)
      ensures response.Ok? ==> table.tracked == old(table.tracked)[response.value := made.value]
      ensures response.Err? ==> table.tracked == old(table.tracked)
    {
      var _ :- ReadArguments(refs);
      var value :- made;
      var id := table.TrackValue(value);
      var owner := new OwnedValueId(table, id);
      response := Ok(id);
      owner.Forget();
      owner.Release();
    }

    /** A dispose request: goes through the whole list whatever fails, and succeeds exactly
        when every reference named a tracked id and none was repeated. */
    method Dispose(refs: seq<Option<nat>>) returns (r: Result<bool>)
      requires table.Valid()
      modifies table
      ensures table.Valid()
      ensures table.tracked == old(table.tracked) - IdsOf(refs)
      ensures r.Ok? <==> AllTracked(old(table.tracked).Keys, refs) && Distinct(refs)
      ensures r.Err? ==> r.code == Internal
    {
      ghost var t0 := table.tracked;
      var errors: seq<Code> := [];
      assert refs[..0] == [];
      for i := 0 to |refs|
        invariant table.Valid() && table.tracked == t0 - IdsOf(refs[..i])
        invariant errors == [] <==> Disposes(t0.Keys, refs[..i])
      {
        assert refs[..i + 1][..i] == refs[..i] && refs[..i + 1][i] == refs[i];
        if refs[i].None? {
          errors := errors + [InvalidArgument];
        } else {
          var status := table.Dispose(refs[i].value);
          if status.Err? {
            errors := errors + [status.code];
          }
        }
      }
      assert refs[..|refs|] == refs;
      DisposesIff(t0.Keys, refs);
      if errors != [] {
        return Err(Internal);
      }
      return Ok(true);
    }
  }
}
