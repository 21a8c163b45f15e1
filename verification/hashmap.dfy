/** The store of hashes: a map from keys to maps from fields to values. */
module HashMaps {
  import opened ByteStrings

  type Hash = map<Bytes, Bytes>
  type HashStore = map<Bytes, Hash>

  function HashAt(m: HashStore, key: Bytes): Hash {
    if key in m then m[key] else map[]
  }

  /** What a list of alternating fields and values writes; a later write of a field wins. */
  function Writes(fvs: seq<Bytes>): Hash {
    if |fvs| < 2 then map[] else map[fvs[0] := fvs[1]] + Writes(fvs[2..])
  }

  function Written(m: HashStore, key: Bytes, fvs: seq<Bytes>): HashStore {
    if |fvs| % 2 != 0 then m else m[key := HashAt(m, key) + Writes(fvs)]
  }

  function Erased(m: HashStore, key: Bytes, fields: seq<Bytes>): HashStore {
    if key !in m then m
    else
      var rest := m[key] - AsSet(fields);
      if rest == map[] then m - {key} else m[key := rest]
  }

  /** A written field holds the value of its last occurrence. */
  lemma {:induction false} LastWriteWins(fvs: seq<Bytes>, i: nat)
    requires |fvs| % 2 == 0 && i < |fvs| / 2
    requires forall j :: i < j < |fvs| / 2 ==> fvs[2 * j] != fvs[2 * i]
    ensures fvs[2 * i] in Writes(fvs) && Writes(fvs)[fvs[2 * i]] == fvs[2 * i + 1]
    decreases |fvs|
  {
    var rest := fvs[2..];
    assert forall j :: 0 <= j < |rest| / 2 ==> rest[2 * j] == fvs[2 * (j + 1)];
    if i > 0 {
      LastWriteWins(rest, i - 1);
    } else {
      OnlyFieldsWritten(rest, fvs[0]);
    }
  }

  /** And nothing else is written. */
  lemma {:induction false} OnlyFieldsWritten(fvs: seq<Bytes>, f: Bytes)
    requires |fvs| % 2 == 0
    requires forall j :: 0 <= j < |fvs| / 2 ==> fvs[2 * j] != f
    ensures f !in Writes(fvs)
    decreases |fvs|
  {
    if fvs != [] {
      var rest := fvs[2..];
      assert fvs[2 * 0] != f;
      assert forall j :: 0 <= j < |rest| / 2 ==> rest[2 * j] == fvs[2 * (j + 1)];
      OnlyFieldsWritten(rest, f);
    }
  }

  lemma WritesStep(hash: Hash, fvs: seq<Bytes>, i: nat)
    requires i + 1 < |fvs|
    ensures hash + Writes(fvs[i..]) == hash[fvs[i] := fvs[i + 1]] + Writes(fvs[i + 2..])
  {
    assert fvs[i..][2..] == fvs[i + 2..];
    assert hash + (map[fvs[i] := fvs[i + 1]] + Writes(fvs[i + 2..])) == hash[fvs[i] := fvs[i + 1]] + Writes(fvs[i + 2..]);
  }

  class HashMap {
    var items: HashStore

    constructor ()
      ensures items == map[]
    {
      items := map[];
    }

    method Hset(key: Bytes, fieldValues: seq<Bytes>) returns (added: nat)
      modifies this
      ensures items == Written(old(items), key, fieldValues)
      ensures added == |HashAt(items, key)| - |HashAt(old(items), key)|
    {
      if |fieldValues| % 2 != 0 {
        return 0;
      }
      hide Writes;
      var hash;
      hash, added := WriteFields(HashAt(items, key), fieldValues);
      items := items[key := hash];
    }

    method Hdel(key: Bytes, fields: seq<Bytes>) returns (count: nat)
      modifies this
      ensures items == Erased(old(items), key, fields)
      ensures count == |HashAt(old(items), key)| - |HashAt(items, key)|
    {
      if key !in items {
        return 0;
      }
      hide AsSet;
      var hash;
      hash, count := DeleteFields(items[key], fields);
      if |hash| == 0 {
        items := items - {key};
      } else {
        items := items[key := hash];
      }
    }

    method Dump() returns (snapshot: HashStore)
      ensures snapshot == items
    {
      snapshot := map[];
      var todo := items.Keys;
      while todo != {}
        invariant todo <= items.Keys
        invariant snapshot == map k | k in items && k !in todo :: items[k]
      {
        var key :| key in todo;
        todo := todo - {key};
        snapshot := snapshot[key := items[key]];
      }
    }
  }

  method WriteFields(before: Hash, fieldValues: seq<Bytes>) returns (hash: Hash, added: nat)
    requires |fieldValues| % 2 == 0
    ensures hash == before + Writes(fieldValues)
    ensures added == |hash| - |before|
  {
    hide Writes;
    hash, added := before, 0;
    var i := 0;
    ghost var goal := before + Writes(fieldValues);
    assert fieldValues[0..] == fieldValues;
    while i < |fieldValues|
      invariant 0 <= i <= |fieldValues| && (|fieldValues| - i) % 2 == 0
      invariant hash + Writes(fieldValues[i..]) == goal
      invariant added == |hash| - |before|
    {
      var field, value := fieldValues[i], fieldValues[i + 1];
      WritesStep(hash, fieldValues, i);
      AddOne(hash, field, value);
      if field !in hash {
        added := added + 1;
      }
      hash := hash[field := value];
      i := i + 2;
    }
    NoWrites(hash, fieldValues[i..]);
  }

  method DeleteFields(before: Hash, fields: seq<Bytes>) returns (hash: Hash, count: nat)
    ensures hash == before - AsSet(fields)
    ensures count == |before| - |hash|
  {
    hide AsSet;
    hash, count := before, 0;
    DropNone(before, fields);
    for i := 0 to |fields|
      invariant hash == before - AsSet(fields[..i])
      invariant count == |before| - |hash|
    {
      DropNext(before, fields, i);
      DropOne(hash, fields[i]);
      if fields[i] in hash {
        hash := hash - {fields[i]};
        count := count + 1;
      }
    }
  }

  lemma NoWrites(hash: Hash, fvs: seq<Bytes>)
    requires fvs == []
    ensures hash + Writes(fvs) == hash
  {
  }

  lemma AddOne(m: Hash, f: Bytes, v: Bytes)
    ensures |m[f := v]| == if f in m then |m| else |m| + 1
  {
    assert m[f := v].Keys == m.Keys + {f};
    assert |m.Keys| == |m| && |m[f := v].Keys| == |m[f := v]|;
  }
}
