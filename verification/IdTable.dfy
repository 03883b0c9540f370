/** The id table of `ExecutorBase` and the owner type `OwnedValueId`. */
module IdTables {
  import opened Common

  // genc/cc/runtime/executor.h. Bodies under the table's mutex are atomic, so each method is
  // one step. Ids are unbounded: the id that marks an empty owner is never issued.

  function Find<V>(tracked: map<nat, V>, id: nat): Result<V> {
    if id in tracked then Ok(tracked[id]) else Err(NotFound)
  }

  /** Everything in `m` is still in `m'`, unchanged. */
  ghost predicate Grows<V(!new)>(m: map<nat, V>, m': map<nat, V>) {
    forall id :: id in m ==> id in m' && m'[id] == m[id]
  }

  class IdTable<V(!new)> {
    var nextValueId: nat
    var tracked: map<nat, V>

    ghost predicate Valid()
      reads this
    {
      forall id :: id in tracked ==> id < nextValueId
    }

    constructor ()
      ensures Valid() && tracked == map[] && nextValueId == 0
    {
      nextValueId, tracked := 0, map[];
    }

    method TrackValue(value: V) returns (id: nat)
      requires Valid()
      modifies this
      ensures Valid() && id == old(nextValueId) && nextValueId == id + 1
      ensures id !in old(tracked) && tracked == old(tracked)[id := value]
    {
      id := nextValueId;
      nextValueId := nextValueId + 1;
      tracked := tracked[id := value];
    }

    method GetTracked(id: nat) returns (r: Result<V>)
      ensures r == Find(tracked, id)
    {
      if id !in tracked {
        return Err(NotFound);
      }
      return Ok(tracked[id]);
    }

    /** The loop of the public `CreateStruct`. */
    method GetAllTracked(ids: seq<nat>) returns (r: Result<seq<V>>)
      ensures r.Ok? <==> forall k :: 0 <= k < |ids| ==> ids[k] in tracked
      ensures r.Ok? ==> |r.value| == |ids| && forall k :: 0 <= k < |ids| ==> r.value[k] == tracked[ids[k]]
      ensures r.Err? ==> r.code == NotFound
    {
      var values := [];
      for i := 0 to |ids|
        invariant |values| == i && forall k :: 0 <= k < i ==> ids[k] in tracked && values[k] == tracked[ids[k]]
      {
        var value :- GetTracked(ids[i]);
        values := values + [value];
      }
      return Ok(values);
    }

    method Dispose(id: nat) returns (r: Result<bool>)
      requires Valid()
      modifies this
      ensures Valid() && nextValueId == old(nextValueId)
      ensures tracked == old(tracked) - {id}
      ensures r == if id in old(tracked) then Ok(true) else Err(NotFound)
    {
      if id !in tracked {
        return Err(NotFound);
      }
      tracked := tracked - {id};
      return Ok(true);
    }
  }

  /** The single owner of an id. `None` is the source's `INVALID_ID`. */
  class OwnedValueId<V(!new)> {
    var exec: IdTable<V>
    var id: Option<nat>

    constructor (exec: IdTable<V>, id: nat)
      ensures this.exec == exec && this.id == Some(id)
    {
      this.exec, this.id := exec, Some(id);
    }

    /** The move constructor. */
    constructor Move(other: OwnedValueId<V>)
      modifies other
      ensures exec == old(other.exec) && id == old(other.id)
      ensures other.id == None && other.exec == old(other.exec)
    {
      exec, id := other.exec, other.id;
      new;
      other.Forget();
    }

    /** Move assignment: disposes of what this owned, and takes over what `other` owned. An
        owner assigned to itself ends up empty. */
    method Assign(other: OwnedValueId<V>)
      requires exec.Valid()
      modifies this, other, exec
      ensures old(exec).Valid() && other.id == None
      ensures exec == old(other.exec) && (this != other ==> id == old(other.id))
      ensures old(exec).tracked == old(exec.tracked) - if old(id).Some? then {old(id.value)} else {}
      ensures old(exec).nextValueId == old(exec.nextValueId)
    {
      Release();
      exec := other.exec;
      id := other.id;
      other.Forget();
    }

    method Forget()
      modifies this
      ensures id == None && exec == old(exec)
    {
      id := None;
    }

    /** `release`, which the destructor runs. */
    method Release()
      requires exec.Valid()
      modifies this, exec
      ensures id == None && exec == old(exec) && exec.Valid() && exec.nextValueId == old(exec.nextValueId)
      ensures exec.tracked == old(exec.tracked) - if old(id).Some? then {old(id.value)} else {}
    {
      if id.Some? {
        var _ := exec.Dispose(id.value);
        id := None;
      }
    }
  }
}
