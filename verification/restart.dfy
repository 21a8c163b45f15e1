/** Restarts after whole runs: on a rewritten log, and on a snapshot and a log together. */
module Restarting {
  import opened ByteStrings
  import opened Resp
  import opened Expiry
  import opened Lists
  import opened Sets
  import opened HashMaps
  import opened Commands
  import opened LogRefinement
  import opened Loading
  import opened Compaction
  import opened Replies

  // ---------- The log ----------

  /** A restart that loses no key goes unnoticed: from then on, sets, lists and hashes are as they
      were, and every read of a text or a set answers as it would have without the restart. */
  lemma RestartUnnoticed(es: seq<Event>, args: seq<Value>, now: Time, later: Time)
    requires RestRun(es) && DictRun(es) && Ordered(es) && EndOf(es) < now <= later
    requires Run(es).Some? && Fits(Run(es).value.log) && forall k :: !Lost(Run(es).value, k, now)
    ensures var live := Run(es).value; var back := Recover(Image(live.log), now);
            back.Some? && SameRest(live.db, back.value) && AnswerAlike(live.db, back.value, args, later)
  {
    hide RestRun, DictRun, Run, Recover, Lost, EncodeAll, AnswerAlike, Visible;
    RestartExactly(es, now);
    var live := Run(es).value;
    var back := Recover(Image(live.log), now).value;
    SeenLater(live.db.dict, back.dict, now, later);
    ReadsAgree(live.db, back, args, later);
  }

  lemma SeenLater(a: Store<Bytes>, b: Store<Bytes>, now: Time, later: Time)
    requires Visible(a, now) == Visible(b, now) && now <= later
    ensures Visible(a, later) == Visible(b, later)
  {
    forall k
      ensures k in Visible(a, later) <==> k in Visible(b, later)
      ensures k in Visible(a, later) ==> a[k] == b[k]
    {
      assert k in Visible(a, now) ==> Visible(a, now)[k] == a[k];
      assert k in Visible(b, now) ==> Visible(b, now)[k] == b[k];
      assert k in Visible(a, now) <==> k in Visible(b, now);
    }
  }

  // ---------- A rewritten log ----------

  /** A rewrite after a run of any commands, then a restart at any later instant: for every
      visiting order, the server comes back with every store as a client would see it if and only
      if no set still to be seen had a deadline. No pop is undone, and no key is lost, even one
      whose deadline had been raised. */
  lemma CompactedRestart(es: seq<Event>, o: Order, taken: Time, now: Time)
    requires Run(es).Some? && taken <= now && Visits(o, SnapshotOf(Run(es).value.db, taken))
    requires Fits(RewriteLog(SnapshotOf(Run(es).value.db, taken), o))
    ensures var db := Run(es).value.db; var back := Recover(Image(RewriteLog(SnapshotOf(db, taken), o)), now);
            && back.Some?
            && (back.value.dict == Visible(db.dict, now) && back.value.sets == Visible(db.sets, now)
                && Contents(back.value.lists) == Contents(db.lists) && back.value.hashes == db.hashes
                <==> forall k :: k in Visible(db.sets, taken) ==> db.sets[k].expiredAt == None)
  {
    hide Run, NoEmpty, Visible, Clean;
    RunNoEmpty(es);
    RecoverRewritten(SnapshotOf(Run(es).value.db, taken), o, now);
    NoEmptyIsClean(Run(es).value.db, taken, now);
  }

  lemma RecoverRewritten(s: Snapshot, o: Order, now: Time)
    requires Visits(o, s) && Fits(RewriteLog(s, o))
    ensures var back := Recover(Image(RewriteLog(s, o)), now);
            back.Some? && (Holds(back.value, s, now) <==> Clean(s, now))
  {
    hide ReplayFrom, RewriteLog, Recover, EncodeAll, Visits, Holds, Clean;
    var log := RewriteLog(s, o);
    RewritePreservesExactly(s, o, now);
    RecoverTruncated(log, |Image(log)|, now);
    AllWhole(EmitAll(log));
    assert Image(log)[..|Image(log)|] == Image(log) && log[..|log|] == log;
  }

  lemma NoEmptyIsClean(db: DB, taken: Time, now: Time)
    requires NoEmpty(db) && taken <= now
    ensures var s := SnapshotOf(db, taken);
            && (Clean(s, now) <==> forall k :: k in Visible(db.sets, taken) ==> db.sets[k].expiredAt == None)
            && Visible(s.dict, now) == Visible(db.dict, now)
            && Visible(s.sets, now) == Visible(db.sets, now) && s.lists == Contents(db.lists) && s.hashes == db.hashes
  {
    var s := SnapshotOf(db, taken);
    if Clean(s, now) {
      forall k | k in Visible(db.sets, taken) ensures db.sets[k].expiredAt == None {
        assert k in s.sets && PlainSet(s.sets[k], now);
      }
    }
  }

  // ---------- A snapshot, and the whole log on top of it ----------

  function ElementsAt(m: ListMap, key: Bytes): multiset<Bytes> {
    if key in m then multiset(m[key].elems) else multiset{}
  }

  // A log has been replayed on empty stores, giving `a`, and on `base`, giving `b`: what the log
  // put there is in both, and the rest of `b` was in `base`; lists have both.

  ghost predicate ListsOverlaid(a: ListMap, b: ListMap, base: ListMap) {
    forall k {:trigger ElementsAt(b, k)} :: ElementsAt(b, k) == ElementsAt(base, k) + ElementsAt(a, k)
  }

  ghost predicate SetsOverlaid(a: Store<Members>, b: Store<Members>, base: Store<Members>) {
    forall k {:trigger MembersAt(b, k)} :: MembersAt(a, k) <= MembersAt(b, k) <= MembersAt(a, k) + MembersAt(base, k)
  }

  ghost predicate HashesOverlaid(a: HashStore, b: HashStore, base: HashStore) {
    forall k {:trigger HashAt(b, k)} :: HashOverlaid(HashAt(a, k), HashAt(b, k), HashAt(base, k))
  }

  ghost predicate HashOverlaid(a: Hash, b: Hash, base: Hash) {
    && a.Keys <= b.Keys <= a.Keys + base.Keys
    && forall f :: f in a ==> b[f] == a[f]
  }

  ghost predicate Overlaid(a: DB, b: DB, base: DB) {
    && Sound(b) && ListsOverlaid(a.lists, b.lists, base.lists)
    && SetsOverlaid(a.sets, b.sets, base.sets) && HashesOverlaid(a.hashes, b.hashes, base.hashes)
  }

  lemma OverlaidStep(a: DB, b: DB, base: DB, c: Command, now: Time)
    requires Overlaid(a, b, base) && Loggable(c) && Apply(a, c, now).Some?
    ensures Apply(b, c, now).Some? && Overlaid(Apply(a, c, now).value, Apply(b, c, now).value, base)
  {
    hide Sound, ListsOverlaid, SetsOverlaid, HashesOverlaid, SortOptions;
    SoundStep(b, c, now);
    if c.Lpush? || c.Rpush? || c.Sort? {
      ListsOverlaidStep(a, b, base, c, now);
    } else if c.Sadd? || c.Srem? {
      SetsOverlaidStep(a, b, base, c, now);
    } else if c.Hset? || c.Hdel? {
      HashesOverlaidStep(a, b, base, c, now);
    }
  }

  lemma ListsOverlaidStep(a: DB, b: DB, base: DB, c: Command, now: Time)
    requires c.Lpush? || c.Rpush? || c.Sort?
    requires ListsOverlaid(a.lists, b.lists, base.lists) && Apply(a, c, now).Some? && Apply(b, c, now).Some?
    ensures ListsOverlaid(Apply(a, c, now).value.lists, Apply(b, c, now).value.lists, base.lists)
  {
    hide ElementsAt, Apply;
    ElementsAfter(a, c, now);
    ElementsAfter(b, c, now);
    assert ElementsAt(b.lists, c.key) == ElementsAt(base.lists, c.key) + ElementsAt(a.lists, c.key);
  }

  lemma ElementsAfter(db: DB, c: Command, now: Time)
    requires (c.Lpush? || c.Rpush? || c.Sort?) && Apply(db, c, now).Some?
    ensures forall k :: ElementsAt(Apply(db, c, now).value.lists, k) ==
                          ElementsAt(db.lists, k) + if k == c.key && !c.Sort? then multiset(c.values) else multiset{}
  {
    hide PushedFront, PushedBack, Sorted, ElementsAt;
    match c
    case Lpush(key, vs) => ElementsPushedFront(db.lists, key, vs);
    case Rpush(key, vs) => ElementsPushedBack(db.lists, key, vs);
    case Sort(key, asc, alpha, _) => ElementsSorted(db.lists, key, asc, alpha);
  }

  lemma ElementsPushedFront(m: ListMap, key: Bytes, vs: seq<Bytes>)
    ensures forall k :: ElementsAt(PushedFront(m, key, vs), k) ==
                          ElementsAt(m, k) + if k == key then multiset(vs) else multiset{}
  {
    hide PushAllFront, Reverse;
    PushAllFrontElems(RingAt(m, key), vs);
    ReversePermutes(vs);
  }

  lemma ElementsPushedBack(m: ListMap, key: Bytes, vs: seq<Bytes>)
    requires !PushBackPanics(m, key, vs)
    ensures forall k :: ElementsAt(PushedBack(m, key, vs), k) ==
                          ElementsAt(m, k) + if k == key then multiset(vs) else multiset{}
  {
    hide PushAllBack;
    if vs != [] {
      PushAllBackElems(RingAt(m, key), vs);
    }
  }

  lemma ElementsSorted(m: ListMap, key: Bytes, asc: bool, alpha: bool)
    ensures forall k :: ElementsAt(Sorted(m, key, asc, alpha), k) == ElementsAt(m, k)
  {
    hide Sorting.SortSlice;
    if key in m {
      Sorting.SortSlicePermutes(Sorting.Comparator(asc, alpha), m[key].elems);
    }
  }

  lemma {:induction false} ReversePermutes(s: seq<Bytes>)
    ensures multiset(Reverse(s)) == multiset(s)
  {
    if s != [] {
      ReversePermutes(s[1..]);
      assert s == [s[0]] + s[1..];
    }
  }

  lemma SetsOverlaidStep(a: DB, b: DB, base: DB, c: Command, now: Time)
    requires (c.Sadd? || c.Srem?) && SetsOverlaid(a.sets, b.sets, base.sets)
    ensures SetsOverlaid(Apply(a, c, now).value.sets, Apply(b, c, now).value.sets, base.sets)
  {
    hide MembersAt, Added, Removed, AsSet;
    MembersAfter(a.sets, c.key, c.members);
    MembersAfter(b.sets, c.key, c.members);
    assert forall k :: MembersAt(a.sets, k) <= MembersAt(b.sets, k) <= MembersAt(a.sets, k) + MembersAt(base.sets, k);
  }

  lemma MembersAfter(m: Store<Members>, key: Bytes, ms: seq<Bytes>)
    ensures forall k :: MembersAt(Added(m, key, ms), k) == MembersAt(m, k) + if k == key then AsSet(ms) else {}
    ensures forall k :: MembersAt(Removed(m, key, ms), k) == MembersAt(m, k) - if k == key then AsSet(ms) else {}
  {
    hide AsSet;
  }

  lemma HashesOverlaidStep(a: DB, b: DB, base: DB, c: Command, now: Time)
    requires (c.Hset? || c.Hdel?) && HashesOverlaid(a.hashes, b.hashes, base.hashes)
    ensures HashesOverlaid(Apply(a, c, now).value.hashes, Apply(b, c, now).value.hashes, base.hashes)
  {
    hide HashAt, Written, Erased, AsSet, Writes, HashOverlaid;
    var ts := if c.Hset? then c.fieldValues else c.fields;
    HashAfter(a.hashes, c.key, ts);
    HashAfter(b.hashes, c.key, ts);
    assert HashOverlaid(HashAt(a.hashes, c.key), HashAt(b.hashes, c.key), HashAt(base.hashes, c.key));
    HashOverlaidStep(HashAt(a.hashes, c.key), HashAt(b.hashes, c.key), HashAt(base.hashes, c.key), ts);
  }

  lemma HashOverlaidStep(a: Hash, b: Hash, base: Hash, ts: seq<Bytes>)
    requires HashOverlaid(a, b, base)
    ensures HashOverlaid(a + Writes(ts), b + Writes(ts), base) && HashOverlaid(a - AsSet(ts), b - AsSet(ts), base)
  {
    hide Writes, AsSet;
  }

  lemma HashAfter(m: HashStore, key: Bytes, ts: seq<Bytes>)
    ensures forall k :: HashAt(Written(m, key, ts), k) ==
                          if k == key && |ts| % 2 == 0 then HashAt(m, k) + Writes(ts) else HashAt(m, k)
    ensures forall k :: HashAt(Erased(m, key, ts), k) == if k == key then HashAt(m, k) - AsSet(ts) else HashAt(m, k)
  {
    hide Writes, AsSet;
  }

  lemma {:induction false} OverlaidRun(base: DB, log: seq<Command>, now: Time)
    requires Sound(base) && AllLoggable(log) && ReplayFrom(EMPTY, log, now).Some?
    ensures ReplayFrom(base, log, now).Some?
    ensures Overlaid(ReplayFrom(EMPTY, log, now).value, ReplayFrom(base, log, now).value, base)
    decreases |log|
  {
    hide Sound, Apply, Overlaid, Loggable;
    if log == [] {
      OverlaidStart(base);
    } else {
      var front, c := log[..|log| - 1], log[|log| - 1];
      OverlaidRun(base, front, now);
      OverlaidStep(ReplayFrom(EMPTY, front, now).value, ReplayFrom(base, front, now).value, base, c, now);
    }
  }

  lemma OverlaidStart(base: DB)
    requires Sound(base)
    ensures Overlaid(EMPTY, base, base)
  {
  }

  /** A snapshot of sound stores, loaded, gives them back as far as they can still be seen. */
  lemma LoadedSound(db: DB, taken: Time, now: Time)
    requires Sound(db) && taken <= now
    ensures SoundLists(EMPTY.lists)
    ensures var base := LoadedOn(EMPTY, SnapshotOf(db, taken), now);
            && Sound(base) && base.sets == db.sets && base.hashes == db.hashes
            && Contents(base.lists) == Contents(db.lists) && base.dict.Keys <= db.dict.Keys
  {
    hide SetsLoaded, HashesAfter, ListsAfter;
    EmptySoundLists();
    var s := SnapshotOf(db, taken);
    NothingHidden(db, taken, now);
    SetsFromNothing(s.sets, now);
    HashesFromNothing(s.hashes);
    ListsFromNothing(s.lists);
    NonemptyLists(s.lists);
    var base := LoadedOn(EMPTY, s, now);
    assert Contents(base.lists).Keys == base.lists.Keys;
    forall k | k in base.lists ensures base.lists[k].elems != [] {
      assert Contents(base.lists)[k] == base.lists[k].elems;
    }
  }

  lemma NothingHidden(db: DB, taken: Time, now: Time)
    requires Sound(db) && taken <= now
    ensures Visible(db.sets, taken) == db.sets && Visible(Visible(db.sets, taken), now) == db.sets
    ensures Dumped(db.lists) == Contents(db.lists)
  {
  }

  /** What is laid over a copy of itself is there once, but for lists. */
  lemma OverlaidOnItself(a: DB, b: DB, base: DB)
    requires Overlaid(a, b, base) && Sound(a)
    requires base.sets == a.sets && base.hashes == a.hashes && Contents(base.lists) == Contents(a.lists)
    ensures b.sets == a.sets && b.hashes == a.hashes && b.lists.Keys == a.lists.Keys
    ensures forall k :: k in a.lists ==> multiset(b.lists[k].elems) == multiset(a.lists[k].elems + a.lists[k].elems)
  {
    forall k
      ensures k in b.sets <==> k in a.sets
      ensures k in a.sets ==> b.sets[k] == a.sets[k]
    {
      assert MembersAt(b.sets, k) == MembersAt(a.sets, k);
    }
    forall k
      ensures k in b.hashes <==> k in a.hashes
      ensures k in a.hashes ==> b.hashes[k] == a.hashes[k]
    {
      assert HashAt(b.hashes, k) == HashAt(a.hashes, k);
    }
    ListsOverlaidOnThemselves(a.lists, b.lists, base.lists);
  }

  lemma ListsOverlaidOnThemselves(a: ListMap, b: ListMap, base: ListMap)
    requires ListsOverlaid(a, b, base) && SoundLists(a) && SoundLists(b) && Contents(base) == Contents(a)
    ensures b.Keys == a.Keys
    ensures forall k :: k in a ==> multiset(b[k].elems) == multiset(a[k].elems + a[k].elems)
  {
    assert base.Keys == Contents(base).Keys == a.Keys;
    forall k
      ensures k in b <==> k in a
      ensures k in a ==> multiset(b[k].elems) == multiset(a[k].elems + a[k].elems)
    {
      if k in a {
        assert base[k].elems == Contents(base)[k] == a[k].elems;
      }
      assert ElementsAt(b, k) == ElementsAt(base, k) + ElementsAt(a, k);
      assert k in a ==> |a[k].elems| > 0 && a[k].elems[0] in ElementsAt(a, k);
      assert k in b ==> |b[k].elems| > 0 && b[k].elems[0] in ElementsAt(b, k);
    }
  }

  lemma LoadWhole(log: seq<Command>)
    requires Fits(log)
    ensures !Load(Image(log)).panicked && ParseAll(Load(Image(log)).calls) == log
  {
    hide Load, EncodeAll, Emit, Loggable, Normal;
    var records := EmitAll(log);
    LoadTruncated(records, |Image(log)|);
    AllWhole(records);
    assert Image(log)[..|Image(log)|] == Image(log) && records[..|records|] == records;
    ParseEmitAll(log);
  }

  /** A normal restart, end to end: the snapshot taken after a run the log does justice to, and the
      run's whole log on top of it. Sets and hashes come back as they were, the dict as a replay
      alone would show it, and every list with all its elements twice. */
  lemma SnapshotThenLog(es: seq<Event>, taken: Time, now: Time)
    requires RestRun(es) && DictRun(es) && Ordered(es) && EndOf(es) < now && taken <= now
    requires Run(es).Some? && Fits(Run(es).value.log)
    ensures SoundLists(EMPTY.lists)
    ensures var live := Run(es).value; var file := Image(live.log);
            var r := ReplayFrom(LoadedOn(EMPTY, SnapshotOf(live.db, taken), now), ParseAll(Load(file).calls), now);
            && !Load(file).panicked && r.Some?
            && r.value.sets == live.db.sets && r.value.hashes == live.db.hashes
            && Visible(r.value.dict, now) ==
                 (map k | k in Visible(live.db.dict, now) && !Lost(live, k, now) :: live.db.dict[k])
            && r.value.lists.Keys == live.db.lists.Keys
            && forall k :: k in live.db.lists ==>
                 multiset(r.value.lists[k].elems) == multiset(live.db.lists[k].elems + live.db.lists[k].elems)
  {
    hide RestRun, DictRun, Run, ReplayFrom, Load, EncodeAll, Sound, Overlaid, LoadedOn, Lost, Visible;
    EmptySoundLists();
    var live := Run(es).value;
    LoadWhole(live.log);
    RunRest(es, now);
    LoggableRun(es);
    LoadedSound(live.db, taken, now);
    var base := LoadedOn(EMPTY, SnapshotOf(live.db, taken), now);
    OverlaidRun(base, live.log, now);
    RunDict(es, base, now);
    var fromEmpty, r := ReplayFrom(EMPTY, live.log, now).value, ReplayFrom(base, live.log, now).value;
    SoundWithoutDict(live.db, fromEmpty);
    OverlaidOnItself(fromEmpty, r, base);
  }
}
