/**
 * The key-value store the services run on, with the semantics of the
 * in-memory `MockDatabase` (app/tests/test_services.py): plain strings in
 * `data`, field maps in `hashes`, string sets in `sets`. Each method is one
 * single-key store operation.
 */
module MockStore {
  import opened Wrappers
  import opened Keys

  /** A hash value: field name to field value. */
  type Fields = map<string, string>

  /** `hash_get_all` on a value: the fields under `key`, `{}` when it holds no hash. */
  function HashOf(hashes: map<string, Fields>, key: string): (r: Fields) {
    if key in hashes then hashes[key] else map[]
  }

  /** `dict.get(name, default)`. */
  function Field(record: Fields, name: string, default: string): (r: string) {
    if name in record then record[name] else default
  }

  /** `dict.get(name)`. */
  function FieldOpt(record: Fields, name: string): (r: Option<string>) {
    if name in record then Some(record[name]) else None
  }

  /** The distinct elements of a sequence of arguments (`*members`). */
  function Elems(members: seq<string>): (r: set<string>) {
    if members == [] then {} else Elems(members[..|members| - 1]) + {members[|members| - 1]}
  }

  lemma ElemsStep(members: seq<string>, i: nat)
    requires i < |members|
    ensures Elems(members[..i + 1]) == Elems(members[..i]) + {members[i]}
  {
    assert members[..i + 1][..i] == members[..i];
  }

  /** One member of `set_add`: it is new exactly when neither present nor added before. */
  lemma AddStep(before: set<string>, added: set<string>, m: string, current: set<string>, count: nat)
    requires current == before + added && count == |added - before|
    ensures before + (added + {m}) == current + {m}
    ensures |(added + {m}) - before| == if m in current then count else count + 1
  {
    if m in current {
      NewMembersUnchanged(before, added, m);
    } else {
      NewMembersGrow(before, added, m);
    }
  }

  lemma NewMembersUnchanged(before: set<string>, added: set<string>, m: string)
    requires m in before || m in added
    ensures (added + {m}) - before == added - before
  {
  }

  lemma NewMembersGrow(before: set<string>, added: set<string>, m: string)
    requires m !in before && m !in added
    ensures (added + {m}) - before == (added - before) + {m}
    ensures |(added + {m}) - before| == |added - before| + 1
  {
    assert m !in added - before;
  }

  /** One member of `set_remove`: it is counted exactly when still present. */
  lemma RemoveStep(before: set<string>, removed: set<string>, m: string)
    ensures (before - removed) - {m} == before - (removed + {m})
    ensures m in before - removed ==> before * (removed + {m}) == (before * removed) + {m} && m !in before * removed
    ensures m !in before - removed ==> before * (removed + {m}) == before * removed
  {
  }

  class Store {
    var data: map<string, string>
    var hashes: map<string, Fields>
    var sets: map<string, set<string>>

    constructor ()
      ensures data == map[] && hashes == map[] && sets == map[]
    {
      data := map[];
      hashes := map[];
      sets := map[];
    }

    /** `get(key)`: the stored string, None when the key holds none. */
    function Get(key: string): (r: Option<string>)
      reads this
      ensures r.None? <==> key !in data
      ensures r.Some? ==> r.value == data[key]
    {
      if key in data then Some(data[key]) else None
    }

    /** `set_value(key, value)`. */
    method SetValue(key: string, value: string)
      modifies this
      ensures data == old(data)[key := value]
      ensures hashes == old(hashes) && sets == old(sets)
    {
      data := data[key := value];
    }

    /** `exists(key)`: strings and hashes count, sets do not. */
    predicate Exists(key: string)
      reads this
      ensures !Exists(key) ==> Get(key).None? && HashGetAll(key) == map[]
    {
      key in data || key in hashes
    }

    /** `delete(key)`: drops the string and the hash under `key`; sets are left alone. */
    method Delete(key: string) returns (deleted: int)
      modifies this
      ensures deleted == (if old(Exists(key)) then 1 else 0)
      ensures !Exists(key)
      ensures data == old(data) - {key} && hashes == old(hashes) - {key}
      ensures sets == old(sets)
    {
      deleted := 0;
      if key in data {
        data := data - {key};
        deleted := 1;
      }
      if key in hashes {
        hashes := hashes - {key};
        deleted := 1;
      }
    }

    /**
     * `list_keys("link:*:" + code)`: every string or hash key the glob
     * matches, in no promised order.
     */
    method ListLinkKeys(code: string) returns (keys: seq<string>)
      requires PlainCode(code)
      ensures forall k :: k in keys <==> Exists(k) && MatchesLinkPattern(k, code)
    {
      var pending := data.Keys + hashes.Keys;
      keys := [];
      while pending != {}
        invariant pending <= data.Keys + hashes.Keys
        invariant forall k :: k in keys <==> Exists(k) && k !in pending && MatchesLinkPattern(k, code)
        decreases pending
      {
        var k :| k in pending;
        if MatchesLinkPattern(k, code) {
          keys := keys + [k];
        }
        pending := pending - {k};
      }
    }

    /** `hash_get_all(key)`: the fields under `key`, `{}` when it holds no hash. */
    function HashGetAll(key: string): (r: Fields)
      reads this
      ensures key !in hashes ==> r == map[]
      ensures key in hashes ==> r == hashes[key]
    {
      HashOf(hashes, key)
    }

    /**
     * `hash_set_mapping(key, mapping)`: merges `mapping` into the hash,
     * creating it when missing; fields not in `mapping` keep their values.
     */
    method HashSetMapping(key: string, mapping: Fields) returns (n: nat)
      modifies this
      ensures hashes == old(hashes)[key := old(HashGetAll(key)) + mapping]
      ensures forall f :: f in old(HashGetAll(key)) && f !in mapping ==> HashGetAll(key)[f] == old(HashGetAll(key))[f]
      ensures n == |mapping|
      ensures data == old(data) && sets == old(sets)
    {
      if key !in hashes {
        hashes := hashes[key := map[]];
      }
      hashes := hashes[key := hashes[key] + mapping];
      n := |mapping|;
    }

    /** `set_members(key)`: the set under `key`, empty when missing. */
    function SetMembers(key: string): (r: set<string>)
      reads this
      ensures key !in sets ==> r == {}
      ensures key in sets ==> r == sets[key]
    {
      if key in sets then sets[key] else {}
    }

    /**
     * `set_add(key, *members)`: creates the set when missing, adds every
     * member, and counts the members that were not already present.
     */
    method SetAdd(key: string, members: seq<string>) returns (count: nat)
      modifies this
      ensures key in sets && sets == old(sets)[key := old(SetMembers(key)) + Elems(members)]
      ensures count == |Elems(members) - old(SetMembers(key))|
      ensures data == old(data) && hashes == old(hashes)
    {
      ghost var before := SetMembers(key);
      var current := SetMembers(key);
      count := 0;
      ghost var added: set<string> := {};
      var i := 0;
      while i < |members|
        invariant 0 <= i <= |members|
        invariant added == Elems(members[..i])
        invariant current == before + added && count == |added - before|
        modifies {}
      {
        var m := members[i];
        AddStep(before, added, m, current, count);
        if m !in current {
          current := current + {m};
          count := count + 1;
        }
        ElemsStep(members, i);
        added := added + {m};
        i := i + 1;
      }
      assert members[..i] == members;
      sets := sets[key := current];
    }

    /**
     * `set_remove(key, *members)`: 0 and no change for a missing set;
     * otherwise removes the members and counts those that were present.
     */
    method SetRemove(key: string, members: seq<string>) returns (count: nat)
      modifies this
      ensures key !in old(sets) ==> count == 0 && sets == old(sets)
      ensures key in old(sets) ==> sets == old(sets)[key := old(sets[key]) - Elems(members)]
      ensures key in old(sets) ==> count == |old(sets[key]) * Elems(members)|
      ensures data == old(data) && hashes == old(hashes)
    {
      if key !in sets {
        return 0;
      }
      ghost var before := sets[key];
      var current := sets[key];
      count := 0;
      ghost var removed: set<string> := {};
      var i := 0;
      while i < |members|
        invariant 0 <= i <= |members|
        invariant removed == Elems(members[..i])
        invariant current == before - removed && count == |before * removed|
        modifies {}
      {
        var m := members[i];
        RemoveStep(before, removed, m);
        if m in current {
          current := current - {m};
          count := count + 1;
        }
        ElemsStep(members, i);
        removed := removed + {m};
        i := i + 1;
      }
      assert members[..i] == members;
      sets := sets[key := current];
    }
  }
}
