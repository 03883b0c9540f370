/** genc/cc/modules/retrieval/bi_map.h. Every method runs under the map's mutex, so each one
    is a single step. */
module BiMaps {
  import opened Common

  class BiMap<K(==), V(==)> {
    var keyToValue: map<K, V>
    var valueToKey: map<V, K>

    /** The two maps are inverse to each other. */
    ghost predicate Valid()
      reads this
    {
      && (forall k :: k in keyToValue ==> keyToValue[k] in valueToKey && valueToKey[keyToValue[k]] == k)
      && (forall v :: v in valueToKey ==> valueToKey[v] in keyToValue && keyToValue[valueToKey[v]] == v)
    }

    constructor ()
      ensures Valid() && keyToValue == map[]
    {
      keyToValue := map[];
      valueToKey := map[];
    }

    method Insert(key: K, value: V) returns (inserted: bool)
      requires Valid()
      modifies this
      ensures Valid()
      ensures inserted <==> key !in old(keyToValue) && value !in old(keyToValue.Values)
      ensures keyToValue == if inserted then old(keyToValue)[key := value] else old(keyToValue)
    {
      if key in keyToValue || value in valueToKey {
        return false;
      }
      keyToValue := keyToValue[key := value];
      valueToKey := valueToKey[value := key];
      return true;
    }

    /** Refuses when both sides are taken, even by each other; otherwise the pair that holds
        the taken side is replaced. */
    method Upsert(key: K, value: V) returns (updated: bool)
      requires Valid()
      modifies this
      ensures Valid()
      ensures updated <==> key !in old(keyToValue) || value !in old(keyToValue.Values)
      ensures !updated ==> keyToValue == old(keyToValue)
      ensures updated ==> keyToValue == (map k | k in old(keyToValue) && old(keyToValue)[k] != value :: old(keyToValue)[k])[key := value]
    {
      if key in keyToValue && value in valueToKey {
        return false;
      }
      if key in keyToValue && keyToValue[key] != value {
        valueToKey := valueToKey - {keyToValue[key]};
      }
      if value in valueToKey && valueToKey[value] != key {
        keyToValue := keyToValue - {valueToKey[value]};
      }
      keyToValue := keyToValue[key := value];
      valueToKey := valueToKey[value := key];
      return true;
    }

    method RemoveByKey(key: K) returns (removed: bool)
      requires Valid()
      modifies this
      ensures Valid()
      ensures removed <==> key in old(keyToValue)
      ensures keyToValue == old(keyToValue) - {key}
    {
      if key !in keyToValue {
        return false;
      }
      valueToKey := valueToKey - {keyToValue[key]};
      keyToValue := keyToValue - {key};
      return true;
    }

    method RemoveByValue(value: V) returns (removed: bool)
      requires Valid()
      modifies this
      ensures Valid()
      ensures removed <==> value in old(keyToValue.Values)
      ensures keyToValue == map k | k in old(keyToValue) && old(keyToValue)[k] != value :: old(keyToValue)[k]
    {
      if value !in valueToKey {
        return false;
      }
      keyToValue := keyToValue - {valueToKey[value]};
      valueToKey := valueToKey - {value};
      return true;
    }

    method FindByKey(key: K) returns (value: Option<V>)
      requires Valid()
      ensures value == if key in keyToValue then Some(keyToValue[key]) else None
    {
      value := if key in keyToValue then Some(keyToValue[key]) else None;
    }

    method FindByValue(value: V) returns (key: Option<K>)
      requires Valid()
      ensures key.Some? <==> value in keyToValue.Values
      ensures key.Some? ==> key.value in keyToValue && keyToValue[key.value] == value
    {
      key := if value in valueToKey then Some(valueToKey[value]) else None;
    }

    method Size() returns (n: nat)
      requires Valid()
      ensures n == |keyToValue|
    {
      n := |keyToValue|;
    }

    /** No two keys share a value. */
    lemma Injective(k: K, l: K)
      requires Valid() && k in keyToValue && l in keyToValue && keyToValue[k] == keyToValue[l]
      ensures k == l
    {
      assert valueToKey[keyToValue[k]] == k && valueToKey[keyToValue[l]] == l;
    }
  }
}
