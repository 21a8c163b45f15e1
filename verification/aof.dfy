/** The append-only file: appending records, and rewriting the whole from a snapshot. */
module AppendOnlyFile {
  import opened ByteStrings
  import opened Resp
  import opened Expiry
  import opened Sets
  import opened HashMaps
  import opened Commands
  import opened Loading
  import opened Compaction
  import RespReader

  lemma ImageAppend(a: seq<Command>, b: seq<Command>)
    requires AllLoggable(a) && AllLoggable(b)
    ensures AllLoggable(a + b) && Image(a + b) == Image(a) + Image(b)
  {
    hide Emit, Loggable;
    EncodeAllAppend(EmitAll(a), EmitAll(b));
    assert EmitAll(a + b) == EmitAll(a) + EmitAll(b);
  }

  lemma ImageOne(c: Command)
    requires Loggable(c)
    ensures AllLoggable([c]) && Image([c]) == Encode(Emit(c)) && Image([]) == ""
  {
    hide Emit, Loggable, Encode;
    assert EmitAll([c]) == [Emit(c)];
    assert EncodeAll([Emit(c)][1..]) == "";
  }

  class AOF {
    var file: Bytes
    var enabled: bool
    var replaying: bool

    /** Opens the file, which may hold records already. */
    constructor (file: Bytes, enabled: bool)
      ensures this.file == file && this.enabled == enabled && !replaying
    {
      this.file, this.enabled, replaying := file, enabled, false;
    }

    method Append(v: Value)
      modifies this`file
      ensures file == old(file) + if enabled && !replaying then Encode(v) else ""
    {
      if !enabled || replaying {
        return;
      }
      var encoded := RespReader.Write(v);
      file := file + encoded;
    }

    /** Replaces the file. `order` is the order in which the maps were visited: nothing is
        assumed of it but that it visits each of their keys once. */
    method RewriteWithLists(s: Snapshot) returns (ghost order: Order)
      modifies this`file
      ensures Visits(order, s) && AllLoggable(RewriteLog(s, order))
      ensures file == if enabled then Image(RewriteLog(s, order)) else old(file)
    {
      hide AsSet, DictLog, SetLog, ListLog, HashLog, AllLoggable, Image;
      ghost var dictOrder, setOrder, members, listOrder, hashOrder, fields;
      var dict, sets, lists, hashes;
      dict, dictOrder := WriteDict(s.dict);
      sets, setOrder, members := WriteSets(s.sets);
      lists, listOrder := WriteLists(s.lists);
      hashes, hashOrder, fields := WriteHashes(s.hashes);
      order := Order(dictOrder, setOrder, members, listOrder, hashOrder, fields);
      ImageAppend(DictLog(s.dict, dictOrder), SetLog(s.sets, setOrder, members));
      ImageAppend(DictLog(s.dict, dictOrder) + SetLog(s.sets, setOrder, members), ListLog(s.lists, listOrder));
      ImageAppend(DictLog(s.dict, dictOrder) + SetLog(s.sets, setOrder, members) + ListLog(s.lists, listOrder),
                  HashLog(s.hashes, hashOrder, fields));
      if enabled {
        file := dict + sets + lists + hashes;
      }
    }
  }

  /** A visiting order under construction: the keys seen so far are those not still to do. */
  ghost predicate Visited(order: seq<Bytes>, all: set<Bytes>, todo: set<Bytes>) {
    && todo <= all && AsSet(order) == all - todo
    && forall i, j :: 0 <= i < j < |order| ==> order[i] != order[j]
  }

  lemma VisitNext(order: seq<Bytes>, all: set<Bytes>, todo: set<Bytes>, key: Bytes)
    requires Visited(order, all, todo) && key in todo
    ensures Visited(order + [key], all, todo - {key})
    ensures (order + [key])[..|order|] == order && (order + [key])[|order|] == key
  {
    forall i | 0 <= i < |order| ensures order[i] != key {
      assert order[i] in AsSet(order);
    }
    assert AsSet(order + [key]) == AsSet(order) + {key};
  }

  method WriteDeadline(key: Bytes, at: Option<int64>) returns (out: Bytes)
    ensures AllLoggable(DeadlineLog(key, at)) && out == Image(DeadlineLog(key, at))
  {
    ImageOne(PExpireAt(key, 0));
    if at.None? {
      return "";
    }
    ImageOne(PExpireAt(key, at.value));
    out := Encode(Record("PEXPIREAT", [key, FormatInt(at.value)]));
  }

  method WriteDict(m: Store<Bytes>) returns (out: Bytes, ghost keys: seq<Bytes>)
    ensures Enumerates(keys, m.Keys)
    ensures AllLoggable(DictLog(m, keys)) && out == Image(DictLog(m, keys))
  {
    hide Image, AsSet, Encode, DeadlineLog, Enumerates;
    out, keys := "", [];
    var todo := m.Keys;
    VisitNone(m.Keys);
    while todo != {}
      invariant Visited(keys, m.Keys, todo) && AsSet(keys) <= m.Keys
      invariant AllLoggable(DictLog(m, keys)) && out == Image(DictLog(m, keys))
    {
      var key :| key in todo;
      VisitNext(keys, m.Keys, todo, key);
      var item := m[key];
      var deadline := WriteDeadline(key, item.expiredAt);
      var c := Set(key, item.value, 0);
      ImageOne(c);
      ImageAppend(DictLog(m, keys), [c]);
      ImageAppend(DictLog(m, keys) + [c], DeadlineLog(key, item.expiredAt));
      out := out + Encode(Record("SET", [key, item.value])) + deadline;
      keys := keys + [key];
      todo := todo - {key};
    }
    VisitAll(keys, m.Keys);
  }

  lemma VisitNone(all: set<Bytes>)
    ensures Visited([], all, all) && AsSet([]) == {} && Image([]) == ""
  {
    assert all - all == {};
  }

  lemma VisitAll(order: seq<Bytes>, all: set<Bytes>)
    requires Visited(order, all, {})
    ensures Enumerates(order, all) && AsSet(order) == all
  {
    assert all - {} == all;
  }

  /** The members of a set, in the order its loop happens to meet them. */
  method Elements(s: set<Bytes>) returns (order: seq<Bytes>)
    ensures Enumerates(order, s)
  {
    hide AsSet, Enumerates;
    order := [];
    var todo := s;
    VisitNone(s);
    while todo != {}
      invariant Visited(order, s, todo)
    {
      var x :| x in todo;
      VisitNext(order, s, todo, x);
      order := order + [x];
      todo := todo - {x};
    }
    VisitAll(order, s);
  }

  lemma {:induction false} SetLogSame(m: Store<Members>, keys: seq<Bytes>, a: map<Bytes, seq<Bytes>>, b: map<Bytes, seq<Bytes>>)
    requires AsSet(keys) <= m.Keys && AsSet(keys) <= a.Keys && AsSet(keys) <= b.Keys
    requires forall k :: k in AsSet(keys) ==> a[k] == b[k]
    ensures SetLog(m, keys, a) == SetLog(m, keys, b)
    decreases |keys|
  {
    if keys != [] {
      assert keys[|keys| - 1] in AsSet(keys) && AsSet(keys[..|keys| - 1]) <= AsSet(keys);
      SetLogSame(m, keys[..|keys| - 1], a, b);
    }
  }

  lemma {:induction false} HashLogSame(m: HashStore, keys: seq<Bytes>, a: map<Bytes, seq<Bytes>>, b: map<Bytes, seq<Bytes>>)
    requires AsSet(keys) <= m.Keys && AsSet(keys) <= a.Keys && AsSet(keys) <= b.Keys
    requires forall k :: k in m && k in a ==> AsSet(a[k]) <= m[k].Keys
    requires forall k :: k in m && k in b ==> AsSet(b[k]) <= m[k].Keys
    requires forall k :: k in AsSet(keys) ==> a[k] == b[k]
    ensures HashLog(m, keys, a) == HashLog(m, keys, b)
    decreases |keys|
  {
    if keys != [] {
      assert keys[|keys| - 1] in AsSet(keys) && AsSet(keys[..|keys| - 1]) <= AsSet(keys);
      HashLogSame(m, keys[..|keys| - 1], a, b);
    }
  }

  method WriteSets(m: Store<Members>) returns (out: Bytes, ghost keys: seq<Bytes>, ghost members: map<Bytes, seq<Bytes>>)
    ensures Enumerates(keys, m.Keys) && members.Keys == m.Keys
    ensures forall k :: k in m ==> Enumerates(members[k], m[k].value)
    ensures AllLoggable(SetLog(m, keys, members)) && out == Image(SetLog(m, keys, members))
  {
    hide Image, AsSet, Encode, DeadlineLog, Enumerates;
    out, keys, members := "", [], map[];
    var todo := m.Keys;
    VisitNone(m.Keys);
    while todo != {}
      invariant Visited(keys, m.Keys, todo) && AsSet(keys) == members.Keys == m.Keys - todo
      invariant forall k :: k in members ==> Enumerates(members[k], m[k].value)
      invariant AllLoggable(SetLog(m, keys, members)) && out == Image(SetLog(m, keys, members))
    {
      var key :| key in todo;
      VisitNext(keys, m.Keys, todo, key);
      var item := m[key];
      var order := Elements(item.value);
      SetLogSame(m, keys, members, members[key := order]);
      members := members[key := order];
      if |item.value| > 0 {
        var deadline := WriteDeadline(key, item.expiredAt);
        var c := Sadd(key, order);
        OrderNonempty(order, item.value);
        ImageOne(c);
        ImageAppend([c], DeadlineLog(key, item.expiredAt));
        ImageAppend(SetLog(m, keys, members), [c] + DeadlineLog(key, item.expiredAt));
        out := out + (Encode(Record("SADD", [key] + order)) + deadline);
      } else {
        assert SetLog(m, keys, members) + [] == SetLog(m, keys, members);
      }
      keys := keys + [key];
      todo := todo - {key};
    }
    VisitAll(keys, m.Keys);
  }

  lemma OrderNonempty(order: seq<Bytes>, s: set<Bytes>)
    requires Enumerates(order, s)
    ensures order == [] <==> s == {}
  {
    if order != [] {
      assert order[0] in AsSet(order);
    }
  }

  method WriteLists(m: map<Bytes, seq<Bytes>>) returns (out: Bytes, ghost keys: seq<Bytes>)
    ensures Enumerates(keys, m.Keys)
    ensures AllLoggable(ListLog(m, keys)) && out == Image(ListLog(m, keys))
  {
    hide Image, AsSet, Encode, Enumerates;
    out, keys := "", [];
    var todo := m.Keys;
    VisitNone(m.Keys);
    while todo != {}
      invariant Visited(keys, m.Keys, todo) && AsSet(keys) <= m.Keys
      invariant AllLoggable(ListLog(m, keys)) && out == Image(ListLog(m, keys))
    {
      var key :| key in todo;
      VisitNext(keys, m.Keys, todo, key);
      if |m[key]| > 0 {
        var c := Rpush(key, m[key]);
        ImageOne(c);
        ImageAppend(ListLog(m, keys), [c]);
        out := out + Encode(Record("RPUSH", [key] + m[key]));
      } else {
        assert ListLog(m, keys) + [] == ListLog(m, keys);
      }
      keys := keys + [key];
      todo := todo - {key};
    }
    VisitAll(keys, m.Keys);
  }

  method WriteFields(key: Bytes, hash: Hash) returns (out: Bytes, ghost fields: seq<Bytes>)
    ensures Enumerates(fields, hash.Keys) && AsSet(fields) == hash.Keys
    ensures AllLoggable(FieldLog(key, hash, fields)) && out == Image(FieldLog(key, hash, fields))
  {
    hide Image, AsSet, Encode, Enumerates;
    out, fields := "", [];
    var todo := hash.Keys;
    VisitNone(hash.Keys);
    while todo != {}
      invariant Visited(fields, hash.Keys, todo) && AsSet(fields) <= hash.Keys
      invariant AllLoggable(FieldLog(key, hash, fields)) && out == Image(FieldLog(key, hash, fields))
    {
      var field :| field in todo;
      VisitNext(fields, hash.Keys, todo, field);
      var c := Hset(key, [field, hash[field]]);
      ImageOne(c);
      ImageAppend(FieldLog(key, hash, fields), [c]);
      assert [key, field, hash[field]] == [key] + [field, hash[field]];
      out := out + Encode(Record("HSET", [key, field, hash[field]]));
      fields := fields + [field];
      todo := todo - {field};
    }
    VisitAll(fields, hash.Keys);
  }

  method WriteHashes(m: HashStore) returns (out: Bytes, ghost keys: seq<Bytes>, ghost fields: map<Bytes, seq<Bytes>>)
    ensures Enumerates(keys, m.Keys) && fields.Keys == m.Keys
    ensures forall k :: k in m ==> AsSet(fields[k]) == m[k].Keys && Enumerates(fields[k], m[k].Keys)
    ensures AllLoggable(HashLog(m, keys, fields)) && out == Image(HashLog(m, keys, fields))
  {
    hide Image, AsSet, Encode, Enumerates;
    out, keys, fields := "", [], map[];
    var todo := m.Keys;
    VisitNone(m.Keys);
    while todo != {}
      invariant Visited(keys, m.Keys, todo) && AsSet(keys) == fields.Keys == m.Keys - todo
      invariant forall k :: k in fields ==> AsSet(fields[k]) == m[k].Keys && Enumerates(fields[k], m[k].Keys)
      invariant AllLoggable(HashLog(m, keys, fields)) && out == Image(HashLog(m, keys, fields))
    {
      var key :| key in todo;
      VisitNext(keys, m.Keys, todo, key);
      ghost var order;
      var record;
      record, order := WriteFields(key, m[key]);
      HashLogSame(m, keys, fields, fields[key := order]);
      fields := fields[key := order];
      ImageAppend(HashLog(m, keys, fields), FieldLog(key, m[key], order));
      out := out + record;
      keys := keys + [key];
      todo := todo - {key};
    }
    VisitAll(keys, m.Keys);
  }
}
