/** Rewriting the log from a snapshot, loading a snapshot, and what each rebuilds. */
module Compaction {
  import opened ByteStrings
  import opened Expiry
  import opened Deques
  import opened Lists
  import opened Sets
  import opened HashMaps
  import opened Commands
  import opened LogRefinement

  datatype Snapshot = Snapshot(dict: Store<Bytes>, sets: Store<Members>,
                               lists: map<Bytes, seq<Bytes>>, hashes: HashStore)

  // The order in which the map loops happen to visit keys, members and fields.
  datatype Order = Order(dict: seq<Bytes>, sets: seq<Bytes>, members: map<Bytes, seq<Bytes>>,
                         lists: seq<Bytes>, hashes: seq<Bytes>, fields: map<Bytes, seq<Bytes>>)

  predicate Visits(o: Order, s: Snapshot) {
    && Enumerates(o.dict, s.dict.Keys) && Enumerates(o.sets, s.sets.Keys)
    && Enumerates(o.lists, s.lists.Keys) && Enumerates(o.hashes, s.hashes.Keys)
    && (forall k :: k in s.sets ==> k in o.members && Enumerates(o.members[k], s.sets[k].value))
    && (forall k :: k in s.hashes ==> k in o.fields && Enumerates(o.fields[k], s.hashes[k].Keys))
  }

  // ---------- The rewritten log ----------

  function DeadlineLog(key: Bytes, at: Option<int64>): seq<Command> {
    if at.Some? then [PExpireAt(key, at.value)] else []
  }

  function DictLog(m: Store<Bytes>, keys: seq<Bytes>): seq<Command>
    requires AsSet(keys) <= m.Keys
  {
    if keys == [] then []
    else
      var k := keys[|keys| - 1];
      assert k in AsSet(keys) && AsSet(keys[..|keys| - 1]) <= AsSet(keys);
      DictLog(m, keys[..|keys| - 1]) + [Set(k, m[k].value, 0)] + DeadlineLog(k, m[k].expiredAt)
  }

  function SetLog(m: Store<Members>, keys: seq<Bytes>, members: map<Bytes, seq<Bytes>>): seq<Command>
    requires AsSet(keys) <= m.Keys && AsSet(keys) <= members.Keys
  {
    if keys == [] then []
    else
      var k := keys[|keys| - 1];
      assert k in AsSet(keys) && AsSet(keys[..|keys| - 1]) <= AsSet(keys);
      SetLog(m, keys[..|keys| - 1], members) +
      if m[k].value == {} then [] else [Sadd(k, members[k])] + DeadlineLog(k, m[k].expiredAt)
  }

  function ListLog(m: map<Bytes, seq<Bytes>>, keys: seq<Bytes>): seq<Command>
    requires AsSet(keys) <= m.Keys
  {
    if keys == [] then []
    else
      var k := keys[|keys| - 1];
      assert k in AsSet(keys) && AsSet(keys[..|keys| - 1]) <= AsSet(keys);
      ListLog(m, keys[..|keys| - 1]) + if m[k] == [] then [] else [Rpush(k, m[k])]
  }

  function FieldLog(key: Bytes, hash: Hash, fields: seq<Bytes>): seq<Command>
    requires AsSet(fields) <= hash.Keys
  {
    if fields == [] then []
    else
      var f := fields[|fields| - 1];
      assert f in AsSet(fields) && AsSet(fields[..|fields| - 1]) <= AsSet(fields);
      FieldLog(key, hash, fields[..|fields| - 1]) + [Hset(key, [f, hash[f]])]
  }

  function HashLog(m: HashStore, keys: seq<Bytes>, fields: map<Bytes, seq<Bytes>>): seq<Command>
    requires AsSet(keys) <= m.Keys && AsSet(keys) <= fields.Keys
    requires forall k :: k in m && k in fields ==> AsSet(fields[k]) <= m[k].Keys
  {
    if keys == [] then []
    else
      var k := keys[|keys| - 1];
      assert k in AsSet(keys) && AsSet(keys[..|keys| - 1]) <= AsSet(keys);
      HashLog(m, keys[..|keys| - 1], fields) + FieldLog(k, m[k], fields[k])
  }

  function RewriteLog(s: Snapshot, o: Order): seq<Command>
    requires Visits(o, s)
  {
    DictLog(s.dict, o.dict) + SetLog(s.sets, o.sets, o.members) +
    ListLog(s.lists, o.lists) + HashLog(s.hashes, o.hashes, o.fields)
  }

  // ---------- Closed forms: each store once some keys of a snapshot have been put into it ----------

  /** A snapshot entry replaces the old one, and is gone if its deadline has passed. */
  function DictAfter(base: Store<Bytes>, m: Store<Bytes>, done: set<Bytes>, now: Time): Store<Bytes> {
    map k | k in base.Keys + m.Keys && (if k in m && k in done then !Expired(m[k], now) else k in base)
      :: if k in m && k in done then m[k] else base[k]
  }

  /** Members are added to those present; a deadline in the snapshot does not reach the set. */
  function SetsAfter(base: Store<Members>, m: Store<Members>, done: set<Bytes>): Store<Members> {
    map k | k in base.Keys + m.Keys && (k in base || (k in done && m[k].value != {}))
      :: if k in m && k in done && m[k].value != {}
         then Item(MembersAt(base, k) + m[k].value, if k in base then base[k].expiredAt else None)
         else base[k]
  }

  /** It reaches the dict entry of the same name instead. */
  predicate Hits(m: Store<Members>, done: set<Bytes>, key: Bytes) {
    key in m && key in done && m[key].value != {} && m[key].expiredAt.Some?
  }

  function DictHit(base: Store<Bytes>, m: Store<Members>, done: set<Bytes>, now: Time): Store<Bytes> {
    map k | k in base && !(Hits(m, done, k) && Expired(m[k], now))
      :: if Hits(m, done, k) then base[k].(expiredAt := m[k].expiredAt) else base[k]
  }

  /** Loading a snapshot directly does give the set its deadline. */
  function SetsLoaded(base: Store<Members>, m: Store<Members>, done: set<Bytes>, now: Time): Store<Members> {
    map k | k in base.Keys + m.Keys && (k in base || (k in done && m[k].value != {}))
            && !(Hits(m, done, k) && Expired(m[k], now))
      :: if k in m && k in done && m[k].value != {}
         then Item(MembersAt(base, k) + m[k].value,
                   if m[k].expiredAt.Some? then m[k].expiredAt else if k in base then base[k].expiredAt else None)
         else base[k]
  }

  /** Elements are appended to those present. */
  function ListsAfter(base: ListMap, m: map<Bytes, seq<Bytes>>, done: set<Bytes>): ListMap
    requires SoundLists(base)
  {
    map k | k in base.Keys + m.Keys && (k in base || (k in done && m[k] != []))
      :: if k in m && k in done && m[k] != [] then PushAllBack(RingAt(base, k), m[k]) else base[k]
  }

  /** Fields are written over those present. */
  function HashesAfter(base: HashStore, m: HashStore, done: set<Bytes>): HashStore {
    map k | k in base.Keys + m.Keys && (k in base || (k in done && m[k] != map[]))
      :: if k in m && k in done && m[k] != map[] then HashAt(base, k) + m[k] else base[k]
  }

  lemma DictNext(base: Store<Bytes>, m: Store<Bytes>, done: set<Bytes>, k: Bytes, now: Time)
    requires k in m && k !in done
    ensures var d := Put(DictAfter(base, m, done, now), k, m[k].value, 0, now);
            DictAfter(base, m, done + {k}, now) ==
              if m[k].expiredAt.Some? then ExpireAt(d, k, m[k].expiredAt.value, now) else d
  {
  }

  lemma SetsNext(base: Store<Members>, m: Store<Members>, done: set<Bytes>, k: Bytes, ms: seq<Bytes>)
    requires k in m && k !in done && AsSet(ms) == m[k].value
    ensures SetsAfter(base, m, done + {k}) ==
              if m[k].value == {} then SetsAfter(base, m, done) else Added(SetsAfter(base, m, done), k, ms)
  {
    hide AsSet;
  }

  lemma HitNext(base: Store<Bytes>, m: Store<Members>, done: set<Bytes>, k: Bytes, now: Time)
    requires k in m && k !in done
    ensures var d := DictHit(base, m, done, now);
            DictHit(base, m, done + {k}, now) ==
              if m[k].value != {} && m[k].expiredAt.Some? then ExpireAt(d, k, m[k].expiredAt.value, now) else d
  {
  }

  lemma LoadedNext(base: Store<Members>, m: Store<Members>, done: set<Bytes>, k: Bytes, ms: seq<Bytes>, now: Time)
    requires k in m && k !in done && AsSet(ms) == m[k].value
    ensures var before := SetsLoaded(base, m, done, now); var after := Added(before, k, ms);
            SetsLoaded(base, m, done + {k}, now) ==
              if m[k].value == {} then before
              else if m[k].expiredAt.Some? then ExpireAt(after, k, m[k].expiredAt.value, now) else after
  {
    hide AsSet, SetsLoaded, Added, ExpireAt;
    if m[k].value == {} {
      SkipEmpty(base, m, done, k, now);
    } else if m[k].expiredAt.None? {
      LoadPlain(base, m, done, k, ms, now);
    } else {
      LoadDeadline(base, m, done, k, ms, now);
    }
  }

  lemma LoadPlain(base: Store<Members>, m: Store<Members>, done: set<Bytes>, k: Bytes, ms: seq<Bytes>, now: Time)
    requires k in m && k !in done && AsSet(ms) == m[k].value != {} && m[k].expiredAt.None?
    ensures SetsLoaded(base, m, done + {k}, now) == Added(SetsLoaded(base, m, done, now), k, ms)
  {
    hide AsSet;
  }

  lemma LoadDeadline(base: Store<Members>, m: Store<Members>, done: set<Bytes>, k: Bytes, ms: seq<Bytes>, now: Time)
    requires k in m && k !in done && AsSet(ms) == m[k].value != {} && m[k].expiredAt.Some?
    ensures SetsLoaded(base, m, done + {k}, now) ==
              ExpireAt(Added(SetsLoaded(base, m, done, now), k, ms), k, m[k].expiredAt.value, now)
  {
    hide AsSet, SetsLoaded;
    LoadMembers(base, m, done, k, now);
    var before := SetsLoaded(base, m, done, now);
    assert MembersAt(before, k) == MembersAt(base, k);
    assert Added(before, k, ms)[k].value == MembersAt(base, k) + m[k].value;
  }

  lemma LoadMembers(base: Store<Members>, m: Store<Members>, done: set<Bytes>, k: Bytes, now: Time)
    requires k in m && k !in done && m[k].value != {} && m[k].expiredAt.Some?
    ensures var before, after := SetsLoaded(base, m, done, now), SetsLoaded(base, m, done + {k}, now);
            && MembersAt(before, k) == MembersAt(base, k)
            && after == if m[k].expiredAt.value < now then before - {k}
                        else before[k := Item(MembersAt(base, k) + m[k].value, m[k].expiredAt)]
  {
  }

  lemma SkipEmpty(base: Store<Members>, m: Store<Members>, done: set<Bytes>, k: Bytes, now: Time)
    requires k in m && m[k].value == {}
    ensures SetsLoaded(base, m, done + {k}, now) == SetsLoaded(base, m, done, now)
  {
  }

  lemma ListsNext(base: ListMap, m: map<Bytes, seq<Bytes>>, done: set<Bytes>, k: Bytes)
    requires SoundLists(base) && k in m && k !in done
    ensures var before := ListsAfter(base, m, done);
            && !PushBackPanics(before, k, m[k])
            && ListsAfter(base, m, done + {k}) == if m[k] == [] then before else PushedBack(before, k, m[k])
  {
    hide PushAllBack;
  }

  lemma HashesNext(base: HashStore, m: HashStore, done: set<Bytes>, k: Bytes)
    requires k in m && k !in done
    ensures var before := HashesAfter(base, m, done);
            HashesAfter(base, m, done + {k}) == if m[k] == map[] then before else before[k := HashAt(before, k) + m[k]]
  {
  }

  // ---------- Replaying the rewritten log ----------

  lemma FrontKeys(keys: seq<Bytes>)
    requires keys != [] && forall i, j :: 0 <= i < j < |keys| ==> keys[i] != keys[j]
    ensures var n := |keys| - 1;
            && keys[n] in AsSet(keys) && keys[n] !in AsSet(keys[..n])
            && AsSet(keys) == AsSet(keys[..n]) + {keys[n]}
            && forall i, j :: 0 <= i < j < n ==> keys[..n][i] != keys[..n][j]
  {
    var n := |keys| - 1;
    AsSetNext(keys, n);
    assert keys[..n + 1] == keys;
  }

  /** One entry's commands: the write, then the deadline if there is one. */
  lemma ReplayEntry(db: DB, c: Command, key: Bytes, at: Option<int64>, now: Time)
    requires Apply(db, c, now).Some?
    ensures var d := Apply(db, c, now).value;
            ReplayFrom(db, [c] + DeadlineLog(key, at), now) ==
              Some(if at.Some? then d.(dict := ExpireAt(d.dict, key, at.value, now)) else d)
  {
    hide ExpireAt;
    assert [] + [c] == [c];
    ReplayOne(db, [], c, now);
    if at.Some? {
      ReplayOne(db, [c], PExpireAt(key, at.value), now);
    } else {
      assert [c] + [] == [c];
    }
  }

  lemma {:induction false} DictPhase(db: DB, m: Store<Bytes>, keys: seq<Bytes>, now: Time)
    requires AsSet(keys) <= m.Keys && forall i, j :: 0 <= i < j < |keys| ==> keys[i] != keys[j]
    ensures ReplayFrom(db, DictLog(m, keys), now) == Some(db.(dict := DictAfter(db.dict, m, AsSet(keys), now)))
    decreases |keys|
  {
    hide ReplayFrom, AsSet;
    if keys == [] {
      ReplayNone(db, now);
      NothingDone(db, m, map[], map[], map[], now);
    } else {
      var front, k := keys[..|keys| - 1], keys[|keys| - 1];
      FrontKeys(keys);
      DictPhase(db, m, front, now);
      var d := db.(dict := DictAfter(db.dict, m, AsSet(front), now));
      DictNext(db.dict, m, AsSet(front), k, now);
      var c := Set(k, m[k].value, 0);
      ReplayEntry(d, c, k, m[k].expiredAt, now);
      assert DictLog(m, keys) == DictLog(m, front) + ([c] + DeadlineLog(k, m[k].expiredAt));
      ReplayConcat(db, DictLog(m, front), [c] + DeadlineLog(k, m[k].expiredAt), now);
    }
  }

  lemma NothingDone(db: DB, dict: Store<Bytes>, sets: Store<Members>, lists: map<Bytes, seq<Bytes>>,
                    hashes: HashStore, now: Time)
    ensures AsSet([]) == {}
    ensures DictAfter(db.dict, dict, {}, now) == db.dict
    ensures DictHit(db.dict, sets, {}, now) == db.dict
    ensures SetsAfter(db.sets, sets, {}) == db.sets
    ensures SoundLists(db.lists) ==> ListsAfter(db.lists, lists, {}) == db.lists
    ensures HashesAfter(db.hashes, hashes, {}) == db.hashes
  {
  }

  lemma {:induction false} SetPhase(db: DB, m: Store<Members>, keys: seq<Bytes>, members: map<Bytes, seq<Bytes>>, now: Time)
    requires AsSet(keys) <= m.Keys && AsSet(keys) <= members.Keys
    requires forall i, j :: 0 <= i < j < |keys| ==> keys[i] != keys[j]
    requires forall k :: k in m && k in members ==> AsSet(members[k]) == m[k].value
    ensures ReplayFrom(db, SetLog(m, keys, members), now) ==
              Some(db.(dict := DictHit(db.dict, m, AsSet(keys), now), sets := SetsAfter(db.sets, m, AsSet(keys))))
    decreases |keys|
  {
    hide ReplayFrom, AsSet, DictHit, SetsAfter;
    if keys == [] {
      ReplayNone(db, now);
      NothingDone(db, map[], m, map[], map[], now);
    } else {
      var front, k := keys[..|keys| - 1], keys[|keys| - 1];
      FrontKeys(keys);
      SetPhase(db, m, front, members, now);
      var d := db.(dict := DictHit(db.dict, m, AsSet(front), now), sets := SetsAfter(db.sets, m, AsSet(front)));
      SetsNext(db.sets, m, AsSet(front), k, members[k]);
      HitNext(db.dict, m, AsSet(front), k, now);
      var more := if m[k].value == {} then [] else [Sadd(k, members[k])] + DeadlineLog(k, m[k].expiredAt);
      if m[k].value == {} {
        ReplayNone(d, now);
      } else {
        ReplayEntry(d, Sadd(k, members[k]), k, m[k].expiredAt, now);
      }
      assert SetLog(m, keys, members) == SetLog(m, front, members) + more;
      ReplayConcat(db, SetLog(m, front, members), more, now);
    }
  }

  lemma {:induction false} ListPhase(db: DB, m: map<Bytes, seq<Bytes>>, keys: seq<Bytes>, now: Time)
    requires AsSet(keys) <= m.Keys && forall i, j :: 0 <= i < j < |keys| ==> keys[i] != keys[j]
    requires SoundLists(db.lists)
    ensures ReplayFrom(db, ListLog(m, keys), now) == Some(db.(lists := ListsAfter(db.lists, m, AsSet(keys))))
    decreases |keys|
  {
    hide ReplayFrom, AsSet, ListsAfter, SoundLists;
    if keys == [] {
      ReplayNone(db, now);
      NothingDone(db, map[], map[], m, map[], now);
    } else {
      var front, k := keys[..|keys| - 1], keys[|keys| - 1];
      FrontKeys(keys);
      ListPhase(db, m, front, now);
      var d := db.(lists := ListsAfter(db.lists, m, AsSet(front)));
      ListsNext(db.lists, m, AsSet(front), k);
      var more := if m[k] == [] then [] else [Rpush(k, m[k])];
      ReplayNone(d, now);
      if m[k] != [] {
        ReplayEntry(d, Rpush(k, m[k]), k, None, now);
        assert [Rpush(k, m[k])] + DeadlineLog(k, None) == more;
      }
      assert ListLog(m, keys) == ListLog(m, front) + more;
      ReplayConcat(db, ListLog(m, front), more, now);
    }
  }

  /** A hash with the fields in `done` written over those present; nothing if there are none. */
  function FieldsAfter(base: HashStore, key: Bytes, hash: Hash, done: set<Bytes>): HashStore {
    if done == {} then base else base[key := HashAt(base, key) + (map f | f in hash && f in done :: hash[f])]
  }

  lemma FieldNext(base: HashStore, key: Bytes, hash: Hash, done: set<Bytes>, f: Bytes)
    requires f in hash && f !in done
    ensures FieldsAfter(base, key, hash, done + {f}) == Written(FieldsAfter(base, key, hash, done), key, [f, hash[f]])
  {
    assert [f, hash[f]][2..] == [] && Writes([]) == map[];
    assert Writes([f, hash[f]]) == map[f := hash[f]];
    var part := map g | g in hash && g in done :: hash[g];
    assert (map g | g in hash && g in done + {f} :: hash[g]) == part + map[f := hash[f]];
    var h := HashAt(base, key);
    assert h + (part + map[f := hash[f]]) == (h + part) + map[f := hash[f]];
    if done == {} {
      assert part == map[] && h + part == h;
    } else {
      assert HashAt(FieldsAfter(base, key, hash, done), key) == h + part;
    }
  }

  lemma {:induction false} FieldPhase(db: DB, key: Bytes, hash: Hash, fields: seq<Bytes>, now: Time)
    requires AsSet(fields) <= hash.Keys && forall i, j :: 0 <= i < j < |fields| ==> fields[i] != fields[j]
    ensures ReplayFrom(db, FieldLog(key, hash, fields), now) ==
              Some(db.(hashes := FieldsAfter(db.hashes, key, hash, AsSet(fields))))
    decreases |fields|
  {
    hide ReplayFrom, AsSet, FieldsAfter, Written;
    if fields == [] {
      ReplayNone(db, now);
      NoFields(db.hashes, key, hash);
    } else {
      var front, f := fields[..|fields| - 1], fields[|fields| - 1];
      FrontKeys(fields);
      FieldPhase(db, key, hash, front, now);
      FieldNext(db.hashes, key, hash, AsSet(front), f);
      var c := Hset(key, [f, hash[f]]);
      ReplayOne(db, FieldLog(key, hash, front), c, now);
    }
  }

  lemma NoFields(base: HashStore, key: Bytes, hash: Hash)
    ensures AsSet([]) == {} && FieldsAfter(base, key, hash, {}) == base
  {
  }

  lemma AllFields(base: HashStore, key: Bytes, hash: Hash)
    ensures FieldsAfter(base, key, hash, hash.Keys) ==
              if hash == map[] then base else base[key := HashAt(base, key) + hash]
  {
    assert (map f | f in hash && f in hash.Keys :: hash[f]) == hash;
  }

  lemma {:induction false} HashPhase(db: DB, m: HashStore, keys: seq<Bytes>, fields: map<Bytes, seq<Bytes>>, now: Time)
    requires AsSet(keys) <= m.Keys && AsSet(keys) <= fields.Keys
    requires forall i, j :: 0 <= i < j < |keys| ==> keys[i] != keys[j]
    requires forall k :: k in m && k in fields ==> AsSet(fields[k]) <= m[k].Keys && Enumerates(fields[k], m[k].Keys)
    ensures ReplayFrom(db, HashLog(m, keys, fields), now) ==
              Some(db.(hashes := HashesAfter(db.hashes, m, AsSet(keys))))
    decreases |keys|
  {
    hide ReplayFrom, AsSet, HashesAfter, FieldsAfter;
    if keys == [] {
      ReplayNone(db, now);
      NothingDone(db, map[], map[], map[], m, now);
    } else {
      var front, k := keys[..|keys| - 1], keys[|keys| - 1];
      FrontKeys(keys);
      HashPhase(db, m, front, fields, now);
      var d := db.(hashes := HashesAfter(db.hashes, m, AsSet(front)));
      HashesNext(db.hashes, m, AsSet(front), k);
      FieldPhase(d, k, m[k], fields[k], now);
      AllFields(d.hashes, k, m[k]);
      ReplayConcat(db, HashLog(m, front, fields), FieldLog(k, m[k], fields[k]), now);
    }
  }

  /** The stores once a snapshot's rewritten log has been replayed on `base`. */
  function Rebuilt(base: DB, s: Snapshot, now: Time): DB
    requires SoundLists(base.lists)
  {
    DB(DictHit(DictAfter(base.dict, s.dict, s.dict.Keys, now), s.sets, s.sets.Keys, now),
       SetsAfter(base.sets, s.sets, s.sets.Keys),
       ListsAfter(base.lists, s.lists, s.lists.Keys),
       HashesAfter(base.hashes, s.hashes, s.hashes.Keys))
  }

  /** Whatever order the maps are visited in, replaying the rewritten log gives the same stores. */
  lemma RewriteRebuilds(base: DB, s: Snapshot, o: Order, now: Time)
    requires Visits(o, s) && SoundLists(base.lists)
    ensures ReplayFrom(base, RewriteLog(s, o), now) == Some(Rebuilt(base, s, now))
  {
    hide ReplayFrom, SoundLists, DictAfter, DictHit, SetsAfter, ListsAfter, HashesAfter, AsSet;
    hide DictLog, SetLog, ListLog, HashLog;
    DictPhase(base, s.dict, o.dict, now);
    var d1 := ReplayFrom(base, DictLog(s.dict, o.dict), now).value;
    SetPhase(d1, s.sets, o.sets, o.members, now);
    var d2 := ReplayFrom(d1, SetLog(s.sets, o.sets, o.members), now).value;
    ListPhase(d2, s.lists, o.lists, now);
    var d3 := ReplayFrom(d2, ListLog(s.lists, o.lists), now).value;
    HashPhase(d3, s.hashes, o.hashes, o.fields, now);
    ReplayConcat(base, DictLog(s.dict, o.dict), SetLog(s.sets, o.sets, o.members), now);
    ReplayConcat(base, DictLog(s.dict, o.dict) + SetLog(s.sets, o.sets, o.members), ListLog(s.lists, o.lists), now);
    ReplayConcat(base, DictLog(s.dict, o.dict) + SetLog(s.sets, o.sets, o.members) + ListLog(s.lists, o.lists),
                 HashLog(s.hashes, o.hashes, o.fields), now);
  }

  // ---------- What survives ----------

  /** No set with a deadline, and no empty collection (but for a set that is over anyway). */
  predicate Clean(s: Snapshot, now: Time) {
    && (forall k :: k in s.sets ==> PlainSet(s.sets[k], now))
    && (forall k :: k in s.lists ==> s.lists[k] != [])
    && (forall k :: k in s.hashes ==> s.hashes[k] != map[])
  }

  predicate PlainSet(item: Item<Members>, now: Time) {
    if item.value == {} then Expired(item, now) else item.expiredAt == None
  }

  /** The stores hold what the snapshot still shows at `now`. */
  predicate Holds(db: DB, s: Snapshot, now: Time) {
    && db.dict == Visible(s.dict, now) && db.sets == Visible(s.sets, now)
    && Contents(db.lists) == s.lists && db.hashes == s.hashes
  }

  lemma EmptySoundLists()
    ensures SoundLists(EMPTY.lists)
  {
  }

  /** Appending to empty stores lists exactly what was not empty. */
  lemma ListsFromNothing(m: map<Bytes, seq<Bytes>>)
    ensures SoundLists(map[])
    ensures Contents(ListsAfter(map[], m, m.Keys)) == map k | k in m && m[k] != [] :: m[k]
    ensures SoundLists(ListsAfter(map[], m, m.Keys))
  {
    hide PushAllBack;
    forall k | k in m
      ensures PushAllBack(NewRing(), m[k]).elems == m[k] && !PushAllBack(NewRing(), m[k]).Stuck()
    {
      PushAllBackElems(NewRing(), m[k]);
      PushAllBackSound(NewRing(), m[k]);
    }
  }

  lemma DictFromNothing(m: Store<Bytes>, sets: Store<Members>, now: Time)
    ensures DictAfter(map[], m, m.Keys, now) == Visible(m, now)
    ensures (forall k :: k in sets ==> PlainSet(sets[k], now))
            ==> DictHit(Visible(m, now), sets, sets.Keys, now) == Visible(m, now)
  {
  }

  lemma SetsFromNothing(m: Store<Members>, now: Time)
    ensures SetsAfter(map[], m, m.Keys) == Visible(m, now) <==> forall k :: k in m ==> PlainSet(m[k], now)
    ensures SetsLoaded(map[], m, m.Keys, now) == Visible(m, now)
            <==> forall k :: k in m && m[k].value == {} ==> Expired(m[k], now)
  {
    var after, loaded, visible := SetsAfter(map[], m, m.Keys), SetsLoaded(map[], m, m.Keys, now), Visible(m, now);
    forall k | k in m
      ensures k in after <==> m[k].value != {}
      ensures k in visible <==> !Expired(m[k], now)
      ensures k in after ==> after[k] == Item(m[k].value, None)
      ensures k in visible ==> visible[k] == m[k]
      ensures k in loaded <==> m[k].value != {} && !Expired(m[k], now)
      ensures k in loaded ==> loaded[k] == m[k]
    {
      assert {} + m[k].value == m[k].value;
    }
    if after == visible {
      forall k | k in m ensures PlainSet(m[k], now) {
        assert k in after <==> k in visible;
      }
    }
    if loaded == visible {
      forall k | k in m && m[k].value == {} ensures Expired(m[k], now) {
        assert k in loaded <==> k in visible;
      }
    }
  }

  lemma HashesFromNothing(m: HashStore)
    ensures HashesAfter(map[], m, m.Keys) == m <==> forall k :: k in m ==> m[k] != map[]
  {
    var after := HashesAfter(map[], m, m.Keys);
    forall k | k in after ensures after[k] == m[k] {
      assert map[] + m[k] == m[k];
    }
    if after == m {
      forall k | k in m ensures m[k] != map[] {
        assert k in after;
      }
    }
  }

  /** Compaction preserves the snapshot, for every visiting order and whatever has expired since,
      if and only if the snapshot is clean. */
  lemma RewritePreservesExactly(s: Snapshot, o: Order, now: Time)
    requires Visits(o, s)
    ensures var r := ReplayFrom(EMPTY, RewriteLog(s, o), now);
            r.Some? && (Holds(r.value, s, now) <==> Clean(s, now))
  {
    hide ReplayFrom, RewriteLog, SetsAfter, HashesAfter, ListsAfter, DictAfter, DictHit, SoundLists, Visible;
    EmptySoundLists();
    RewriteRebuilds(EMPTY, s, o, now);
    DictFromNothing(s.dict, s.sets, now);
    SetsFromNothing(s.sets, now);
    HashesFromNothing(s.hashes);
    ListsFromNothing(s.lists);
    NonemptyLists(s.lists);
  }

  lemma NonemptyLists(m: map<Bytes, seq<Bytes>>)
    ensures (map k | k in m && m[k] != [] :: m[k]) == m <==> forall k :: k in m ==> m[k] != []
  {
    var kept := map k | k in m && m[k] != [] :: m[k];
    if kept == m {
      forall k | k in m ensures m[k] != [] {
        assert k in kept;
      }
    }
  }

  /** What the server dumps at an instant. */
  function SnapshotOf(db: DB, now: Time): Snapshot {
    Snapshot(Visible(db.dict, now), Visible(db.sets, now), Dumped(db.lists), db.hashes)
  }

  // ---------- Loading a snapshot at startup ----------

  /** The stores once a snapshot has been loaded on `base`. */
  function LoadedOn(base: DB, s: Snapshot, now: Time): DB
    requires SoundLists(base.lists)
  {
    DB(DictAfter(base.dict, s.dict, s.dict.Keys, now),
       SetsLoaded(base.sets, s.sets, s.sets.Keys, now),
       ListsAfter(base.lists, s.lists, s.lists.Keys),
       HashesAfter(base.hashes, s.hashes, s.hashes.Keys))
  }

  /** Loading on empty stores gives back what the snapshot still shows, set deadlines included,
      if and only if it has no empty list, no empty hash and no unexpired empty set. */
  lemma LoadPreservesExactly(s: Snapshot, now: Time)
    ensures SoundLists(EMPTY.lists)
    ensures Holds(LoadedOn(EMPTY, s, now), s, now) <==>
              && (forall k :: k in s.sets && s.sets[k].value == {} ==> Expired(s.sets[k], now))
              && (forall k :: k in s.lists ==> s.lists[k] != [])
              && (forall k :: k in s.hashes ==> s.hashes[k] != map[])
  {
    hide SetsLoaded, HashesAfter, ListsAfter, DictAfter, Visible;
    EmptySoundLists();
    DictFromNothing(s.dict, map[], now);
    SetsFromNothing(s.sets, now);
    HashesFromNothing(s.hashes);
    ListsFromNothing(s.lists);
    NonemptyLists(s.lists);
  }

  /** A server that loads a clean snapshot and then replays the log rewritten from it keeps dict,
      sets and hashes, but holds every list twice over: it keeps the lists only if there are none. */
  lemma LoadThenReplayDoublesLists(s: Snapshot, o: Order, now: Time)
    requires Visits(o, s) && Clean(s, now)
    ensures SoundLists(EMPTY.lists)
    ensures var loaded := LoadedOn(EMPTY, s, now); var r := ReplayFrom(loaded, RewriteLog(s, o), now);
            && r.Some?
            && r.value.dict == loaded.dict && r.value.sets == loaded.sets && r.value.hashes == loaded.hashes
            && Contents(r.value.lists) == (map k | k in s.lists :: s.lists[k] + s.lists[k])
            && (Contents(r.value.lists) == Contents(loaded.lists) <==> s.lists == map[])
  {
    hide ReplayFrom, RewriteLog, SetsLoaded, SetsAfter, HashesAfter, ListsAfter, DictAfter, DictHit, Visible;
    hide SoundLists, Visits;
    LoadPreservesExactly(s, now);
    ListsFromNothing(s.lists);
    var loaded := LoadedOn(EMPTY, s, now);
    RewriteRebuilds(loaded, s, o, now);
    DictTwice(s.dict, s.sets, now);
    SetsTwice(s.sets, now);
    HashesTwice(s.hashes);
    ListsTwice(s.lists, loaded.lists);
  }

  lemma DictTwice(m: Store<Bytes>, sets: Store<Members>, now: Time)
    requires forall k :: k in sets ==> PlainSet(sets[k], now)
    ensures DictHit(DictAfter(Visible(m, now), m, m.Keys, now), sets, sets.Keys, now) == Visible(m, now)
  {
  }

  lemma SetsTwice(m: Store<Members>, now: Time)
    requires forall k :: k in m ==> PlainSet(m[k], now)
    ensures SetsAfter(Visible(m, now), m, m.Keys) == Visible(m, now)
  {
    forall k | k in m ensures m[k].value + m[k].value == m[k].value {
    }
  }

  lemma HashesTwice(m: HashStore)
    ensures HashesAfter(m, m, m.Keys) == m
  {
    forall k | k in m ensures m[k] + m[k] == m[k] {
    }
  }

  lemma ListsTwice(m: map<Bytes, seq<Bytes>>, base: ListMap)
    requires SoundLists(base) && Contents(base) == m && forall k :: k in m ==> m[k] != []
    ensures Contents(ListsAfter(base, m, m.Keys)) == map k | k in m :: m[k] + m[k]
  {
    hide PushAllBack;
    assert base.Keys == Contents(base).Keys;
    forall k | k in m
      ensures k in base && base[k].elems == m[k] && !base[k].Stuck()
      ensures PushAllBack(base[k], m[k]).elems == m[k] + m[k]
    {
      assert Contents(base)[k] == base[k].elems;
      PushAllBackElems(base[k], m[k]);
    }
  }
}
