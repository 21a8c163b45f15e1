/** Runs of the server, the log they write, and what replaying that log rebuilds. */
module LogRefinement {
  import opened ByteStrings
  import opened Expiry
  import opened Sorting
  import opened Deques
  import opened Lists
  import opened Sets
  import opened HashMaps
  import opened Commands

  // ---------- Replay ----------

  /** Runs a log on `db` with the clock at `now`; None if a command panics. */
  function ReplayFrom(db: DB, log: seq<Command>, now: Time): Option<DB>
    decreases |log|
  {
    if log == [] then Some(db)
    else
      match ReplayFrom(db, log[..|log| - 1], now)
      case None => None
      case Some(d) => Apply(d, log[|log| - 1], now)
  }

  lemma ReplayNone(db: DB, now: Time)
    ensures ReplayFrom(db, [], now) == Some(db)
  {
  }

  lemma ReplayOne(db: DB, log: seq<Command>, c: Command, now: Time)
    ensures ReplayFrom(db, log + [c], now) ==
              match ReplayFrom(db, log, now)
              case None => None
              case Some(d) => Apply(d, c, now)
  {
    assert (log + [c])[..|log|] == log;
  }

  lemma {:induction false} ReplayConcat(db: DB, a: seq<Command>, b: seq<Command>, now: Time)
    ensures ReplayFrom(db, a + b, now) ==
              match ReplayFrom(db, a, now)
              case None => None
              case Some(d) => ReplayFrom(d, b, now)
    decreases |b|
  {
    if b == [] {
      assert a + b == a;
    } else {
      assert (a + b)[..|a + b| - 1] == a + b[..|b| - 1];
      ReplayConcat(db, a, b[..|b| - 1], now);
    }
  }

  // ---------- Runs ----------

  datatype Event =
    | Do(call: Call, now: Time)
    | Evict(dictKeys: set<Bytes>, setKeys: set<Bytes>, now: Time)

  datatype Live = Live(db: DB, log: seq<Command>)

  /** Drops those of the keys that have expired: any amount of eviction, lazy or sampled. */
  function EvictKeys<V>(m: Store<V>, keys: set<Bytes>, now: Time): (r: Store<V>)
    ensures Evicted(m, r, now)
  {
    map k | k in m && !(k in keys && Expired(m[k], now)) :: m[k]
  }

  /** Those of the keys that have expired go and no other; and every eviction is such a choice of keys. */
  lemma EvictionsAre<V>(m: Store<V>, keys: set<Bytes>, now: Time, left: Store<V>)
    ensures forall k :: k in EvictKeys(m, keys, now) <==> k in m && !(k in keys && Expired(m[k], now))
    ensures EvictKeys(m, m.Keys, now) == Visible(m, now)
    ensures Evicted(m, left, now) ==> EvictKeys(m, m.Keys - left.Keys, now) == left
  {
    if Evicted(m, left, now) {
      forall k
        ensures k in EvictKeys(m, m.Keys - left.Keys, now) <==> k in left
        ensures k in left ==> k in m && left[k] == m[k]
      {
        assert if k in m && (k in left || !Expired(m[k], now)) then k in left && left[k] == m[k] else k !in left;
      }
    }
  }

  function Step(s: Live, e: Event): Option<Live> {
    match e
    case Do(call, now) =>
      (match Apply(s.db, Parse(call), now)
       case None => None
       case Some(db) => Some(Live(db, s.log + Logged(s.db, Parse(call), now))))
    case Evict(dictKeys, setKeys, now) =>
      Some(s.(db := s.db.(dict := EvictKeys(s.db.dict, dictKeys, now), sets := EvictKeys(s.db.sets, setKeys, now))))
  }

  /** The server after a run, one command at a time, from empty stores and an empty log. Clients
      whose changes and appends interleave are the subject of `Concurrency`. */
  function Run(es: seq<Event>): Option<Live>
    decreases |es|
  {
    if es == [] then Some(Live(EMPTY, []))
    else
      match Run(es[..|es| - 1])
      case None => None
      case Some(s) => Step(s, es[|es| - 1])
  }

  predicate Ordered(es: seq<Event>) {
    forall i, j :: 0 <= i < j < |es| ==> es[i].now <= es[j].now
  }

  // ---------- Which commands the log does justice to ----------

  /** Sets, lists and hashes: pops and set deadlines are not logged (as such), and neither is an
      HSET that adds no field, so they must change nothing. Nor does the log survive a crash. */
  predicate DurableRest(db: DB, c: Command) {
    match c
    case Lpop(k, n) => k !in db.lists || n == 0
    case Rpop(k, n) => k !in db.lists || n == 0
    case Hset(k, fvs) =>
      || |HashAt(Written(db.hashes, k, fvs), k)| > |HashAt(db.hashes, k)|
      || Written(db.hashes, k, fvs) == db.hashes
    case SExpire(k, _) => k !in db.sets
    case Crash => false
    case _ => true
  }

  /** The dict: a PEXPIREAT sent by a client is not logged, so it must give the deadline there is
      already, or an expired one to an expired key; and a set deadline is logged as one, so the
      dict key of that name must be missing, expired, or have that deadline already. */
  predicate DurableDict(db: DB, c: Command, now: Time) {
    match c
    case PExpireAt(k, at) =>
      k !in db.dict || db.dict[k].expiredAt == Some(at) || (Expired(db.dict[k], now) && at < now)
    case SExpire(k, s) =>
      || k !in db.sets || k !in db.dict || Expired(db.dict[k], now)
      || db.dict[k].expiredAt == Some(After(now, Expiry.Seconds(s)))
    case _ => true
  }

  ghost predicate RestRun(es: seq<Event>) {
    forall i {:trigger es[i]} :: 0 <= i < |es| && es[i].Do? && Run(es[..i]).Some?
      ==> DurableRest(Run(es[..i]).value.db, Parse(es[i].call))
  }

  ghost predicate DictRun(es: seq<Event>) {
    forall i {:trigger es[i]} :: 0 <= i < |es| && es[i].Do? && Run(es[..i]).Some?
      ==> DurableDict(Run(es[..i]).value.db, Parse(es[i].call), es[i].now)
  }

  // ---------- What stays true of the stores ----------

  /** No empty list, hash or set, no set with a deadline, and no ring whose next push panics. */
  ghost predicate Sound(db: DB) {
    SoundLists(db.lists) && SoundHashes(db.hashes) && SoundSets(db.sets)
  }

  ghost predicate SoundLists(m: ListMap) {
    forall k :: k in m ==> m[k].elems != [] && !m[k].Stuck()
  }

  ghost predicate SoundHashes(m: HashStore) {
    forall k :: k in m ==> m[k] != map[]
  }

  ghost predicate SoundSets(m: Store<Members>) {
    forall k :: k in m ==> m[k].value != {} && m[k].expiredAt == None
  }

  /** No empty list, hash or set. */
  ghost predicate NoEmpty(db: DB) {
    NoEmptyLists(db.lists) && SoundHashes(db.hashes) && NoEmptySets(db.sets)
  }

  ghost predicate NoEmptyLists(m: ListMap) {
    forall k :: k in m ==> m[k].elems != []
  }

  ghost predicate NoEmptySets(m: Store<Members>) {
    forall k :: k in m ==> m[k].value != {}
  }

  // What reading a request guarantees.
  predicate Shaped(c: Command) {
    c.Del? || c.Lpush? || c.Rpush? || c.Sort? || c.Hset? || c.Hdel? || c.Sadd? || c.Srem? ==> Loggable(c)
  }

  lemma ParseShaped(c: Call)
    ensures Shaped(Parse(c))
  {
    hide Lookup, ParseFor, Loggable;
    if Lookup(c.name).Some? {
      ParsedShape(Lookup(c.name).value, c.args);
    }
  }

  lemma {:induction false} PushAllFrontSound(r: Ring<Bytes>, vs: seq<Bytes>)
    requires !r.Stuck()
    ensures !PushAllFront(r, vs).Stuck()
    decreases |vs|
  {
    if vs != [] {
      PushAllFrontSound(r.PushFront(vs[0]), vs[1..]);
    }
  }

  lemma {:induction false} PushAllBackSound(r: Ring<Bytes>, vs: seq<Bytes>)
    requires !r.Stuck()
    ensures !PushAllBack(r, vs).Stuck()
    decreases |vs|
  {
    if vs != [] {
      PushAllBackSound(r.PushBack(vs[0]), vs[1..]);
    }
  }

  lemma ListsStaySound(db: DB, c: Command, now: Time)
    requires SoundLists(db.lists) && Shaped(c) && DurableRest(db, c)
    requires c.Lpush? || c.Rpush? || c.Lpop? || c.Rpop? || c.Sort?
    ensures Apply(db, c, now).Some? && SoundLists(Apply(db, c, now).value.lists)
  {
    hide PushAllFront, PushAllBack, SortOptions, SortSlice;
    match c
    case Lpush(k, vs) =>
      PushAllFrontSound(RingAt(db.lists, k), vs);
      PushAllFrontElems(RingAt(db.lists, k), vs);
    case Rpush(k, vs) =>
      PushAllBackSound(RingAt(db.lists, k), vs);
      PushAllBackElems(RingAt(db.lists, k), vs);
    case Lpop(k, n) => PopNone(db.lists, k, n);
    case Rpop(k, n) => PopNone(db.lists, k, n);
    case Sort(k, asc, alpha, _) =>
  }

  lemma HashesStaySound(m: HashStore, key: Bytes, ts: seq<Bytes>)
    requires SoundHashes(m)
    ensures |ts| >= 2 ==> SoundHashes(Written(m, key, ts))
    ensures SoundHashes(Erased(m, key, ts))
  {
    if |ts| >= 2 {
      assert ts[0] in Writes(ts);
    }
  }

  lemma SetsStaySound(m: Store<Members>, key: Bytes, ts: seq<Bytes>)
    requires SoundSets(m)
    ensures ts != [] ==> SoundSets(Added(m, key, ts))
    ensures SoundSets(Removed(m, key, ts))
  {
    if ts != [] {
      assert ts[0] in AsSet(ts);
    }
  }

  /** Popping nothing from a list that holds something, or anything from none, changes nothing. */
  lemma PopNone(m: ListMap, key: Bytes, count: int)
    requires key in m ==> m[key].elems != [] && count == 0
    ensures PoppedFront(m, key, count).0 == m && PoppedBack(m, key, count).0 == m
  {
    if key in m {
      var r := m[key];
      assert r.elems[0..] == r.elems && r.elems[..|r.elems|] == r.elems;
      assert m[key := r] == m;
    }
  }

  lemma SoundStep(db: DB, c: Command, now: Time)
    requires Sound(db) && Shaped(c) && (!c.Hset? ==> DurableRest(db, c))
    ensures Apply(db, c, now).Some? && Sound(Apply(db, c, now).value)
  {
    hide SoundLists, SoundHashes, Added, Removed, Written, Erased;
    if c.Lpush? || c.Rpush? || c.Lpop? || c.Rpop? || c.Sort? {
      ListsStaySound(db, c, now);
    } else {
      match c
      case Hset(k, fvs) => HashesStaySound(db.hashes, k, fvs);
      case Hdel(k, fs) => HashesStaySound(db.hashes, k, fs);
      case Sadd(k, ms) => SetsStaySound(db.sets, k, ms);
      case Srem(k, ms) => SetsStaySound(db.sets, k, ms);
      case _ =>
    }
  }

  lemma ListsStayNonempty(db: DB, c: Command, now: Time)
    requires NoEmptyLists(db.lists) && Shaped(c) && Apply(db, c, now).Some?
    requires c.Lpush? || c.Rpush? || c.Lpop? || c.Rpop? || c.Sort?
    ensures NoEmptyLists(Apply(db, c, now).value.lists)
  {
    hide PushAllFront, PushAllBack, SortOptions, SortSlice;
    match c
    case Lpush(k, vs) => PushAllFrontElems(RingAt(db.lists, k), vs);
    case Rpush(k, vs) => PushAllBackElems(RingAt(db.lists, k), vs);
    case _ =>
  }

  lemma SetsStayNonempty(m: Store<Members>, key: Bytes, ts: seq<Bytes>)
    requires NoEmptySets(m)
    ensures ts != [] ==> NoEmptySets(Added(m, key, ts))
    ensures NoEmptySets(Removed(m, key, ts))
  {
    if ts != [] {
      assert ts[0] in AsSet(ts);
    }
  }

  /** Whatever the command and the stores, no empty collection is left behind. */
  lemma NoEmptyStep(db: DB, c: Command, now: Time)
    requires NoEmpty(db) && Shaped(c) && Apply(db, c, now).Some?
    ensures NoEmpty(Apply(db, c, now).value)
  {
    hide SoundHashes, NoEmptyLists, Added, Removed, Written, Erased;
    if c.Lpush? || c.Rpush? || c.Lpop? || c.Rpop? || c.Sort? {
      ListsStayNonempty(db, c, now);
    } else {
      match c
      case Hset(k, fvs) => HashesStaySound(db.hashes, k, fvs);
      case Hdel(k, fs) => HashesStaySound(db.hashes, k, fs);
      case Sadd(k, ms) => SetsStayNonempty(db.sets, k, ms);
      case Srem(k, ms) => SetsStayNonempty(db.sets, k, ms);
      case _ =>
    }
  }

  /** Over every run, of any commands and with any eviction, no empty list, hash or set is
      reachable. */
  lemma {:induction false} RunNoEmpty(es: seq<Event>)
    requires Run(es).Some?
    ensures NoEmpty(Run(es).value.db)
    decreases |es|
  {
    hide Apply, Parse, Logged, Shaped;
    if es != [] {
      var front, e := es[..|es| - 1], es[|es| - 1];
      RunNoEmpty(front);
      if e.Do? {
        ParseShaped(e.call);
        NoEmptyStep(Run(front).value.db, Parse(e.call), e.now);
      }
    }
  }

  // ---------- Sets, lists and hashes: the log repeats every step ----------

  predicate SameRest(a: DB, b: DB) {
    a.sets == b.sets && a.lists == b.lists && a.hashes == b.hashes
  }

  /** What a log command does to sets, lists and hashes depends on nothing else: neither on the
      dict nor on the clock. */
  lemma RestStep(a: DB, b: DB, c: Command, now: Time, later: Time)
    requires SameRest(a, b) && Loggable(c)
    ensures Apply(a, c, now).Some? == Apply(b, c, later).Some?
    ensures Apply(a, c, now).Some? ==> SameRest(Apply(a, c, now).value, Apply(b, c, later).value)
  {
  }

  lemma AddNothing(m: Store<Members>, key: Bytes, ms: seq<Bytes>)
    requires ms != [] && |MembersAt(Added(m, key, ms), key)| <= |MembersAt(m, key)|
    ensures Added(m, key, ms) == m
  {
    var was, extra := MembersAt(m, key), AsSet(ms);
    assert ms[0] in extra;
    SameSize(was, was + extra);
    assert key in m && m[key := m[key]] == m;
  }

  lemma SameSize<T>(small: set<T>, large: set<T>)
    requires small <= large && |large| <= |small|
    ensures small == large
  {
    if small != large {
      var x :| x in large && x !in small;
      Monotone(small, large - {x});
    }
  }

  lemma {:induction false} Monotone<T>(small: set<T>, large: set<T>)
    requires small <= large
    ensures |small| <= |large|
  {
    if x :| x in small {
      Monotone(small - {x}, large - {x});
    }
  }

  lemma RemoveNothing(m: Store<Members>, key: Bytes, ms: seq<Bytes>)
    requires key in m ==> m[key].value != {}
    requires |MembersAt(Removed(m, key, ms), key)| >= |MembersAt(m, key)|
    ensures Removed(m, key, ms) == m
  {
    hide AsSet;
    if key in m {
      var was := m[key].value;
      assert |was| > 0;
      SameSize(was - AsSet(ms), was);
      assert m[key := m[key]] == m;
    }
  }

  lemma EraseNothing(m: HashStore, key: Bytes, fs: seq<Bytes>)
    requires key in m ==> m[key] != map[]
    requires |HashAt(Erased(m, key, fs), key)| >= |HashAt(m, key)|
    ensures Erased(m, key, fs) == m
  {
    hide AsSet;
    if key in m {
      var was, rest := m[key], m[key] - AsSet(fs);
      assert |was.Keys| == |was| && |rest.Keys| == |rest|;
      SameSize(rest.Keys, was.Keys);
      assert rest == was && m[key := was] == m;
    }
  }

  /** A command that logs nothing, or is logged and done again, leaves equal stores behind. */
  lemma StepReproduced(live: DB, copy: DB, c: Command, now: Time, later: Time)
    requires Sound(live) && Shaped(c) && DurableRest(live, c) && SameRest(live, copy)
    ensures Apply(live, c, now).Some? && ReplayFrom(copy, Logged(live, c, now), later).Some?
    ensures SameRest(Apply(live, c, now).value, ReplayFrom(copy, Logged(live, c, now), later).value)
  {
    hide Sound, Apply, Shaped, DurableRest, SameRest;
    SoundStep(live, c, now);
    var log := Logged(live, c, now);
    if log == [] {
      Unlogged(live, c, now);
      SameRestTrans(Apply(live, c, now).value, live, copy);
    } else if log == [c] {
      LoggedItself(live, c, now);
      ReplayOne(copy, [], c, later);
      RestStep(live, copy, c, now, later);
    } else {
      DictOnly(live, copy, c, now, later);
    }
  }

  lemma SameRestTrans(a: DB, b: DB, c: DB)
    requires SameRest(a, b) && SameRest(b, c)
    ensures SameRest(a, c)
  {
  }

  lemma LoggedItself(db: DB, c: Command, now: Time)
    requires Shaped(c) && Logged(db, c, now) == [c]
    ensures Loggable(c)
  {
    if c.Set? {
      assert Logged(db, c, now)[0] == Set(c.key, c.value, 0);
    }
  }

  /** What is logged in other words concerns the dict alone. */
  lemma DictOnly(live: DB, copy: DB, c: Command, now: Time, later: Time)
    requires SameRest(live, copy) && DurableRest(live, c)
    requires Logged(live, c, now) != [] && Logged(live, c, now) != [c]
    ensures Apply(live, c, now).Some? && ReplayFrom(copy, Logged(live, c, now), later).Some?
    ensures SameRest(Apply(live, c, now).value, ReplayFrom(copy, Logged(live, c, now), later).value)
  {
    hide Apply, Logged, DurableRest, ReplayFrom;
    var log := Logged(live, c, now);
    OtherWords(live, c, now);
    ReplayNone(copy, later);
    DictKeepsRest(live, c, now);
    ReplayOne(copy, [], log[0], later);
    DictKeepsRest(copy, log[0], later);
    if |log| == 2 {
      assert log == [log[0]] + [log[1]] && [] + [log[0]] == [log[0]];
      ReplayOne(copy, [log[0]], log[1], later);
      DictKeepsRest(Apply(copy, log[0], later).value, log[1], later);
    } else {
      assert log == [] + [log[0]];
    }
  }

  lemma OtherWords(db: DB, c: Command, now: Time)
    requires DurableRest(db, c) && Logged(db, c, now) != [] && Logged(db, c, now) != [c]
    ensures c.Set? || c.Expire?
    ensures var log := Logged(db, c, now);
            1 <= |log| <= 2 && forall i :: 0 <= i < |log| ==> log[i].Set? || log[i].PExpireAt?
  {
  }

  lemma DictKeepsRest(db: DB, c: Command, now: Time)
    requires c.Set? || c.PExpireAt? || c.Expire?
    ensures Apply(db, c, now).Some? && SameRest(db, Apply(db, c, now).value)
  {
  }

  /** An unlogged command leaves sets, lists and hashes as they were. */
  lemma Unlogged(db: DB, c: Command, now: Time)
    requires Sound(db) && Shaped(c) && DurableRest(db, c) && Logged(db, c, now) == []
    ensures Apply(db, c, now).Some? && SameRest(Apply(db, c, now).value, db)
  {
    hide Added, Removed, Written, Erased, PushedFront, PushedBack, PoppedFront, PoppedBack, Sorted, SortOptions;
    match c
    case Lpush(k, vs) => ListsStaySound(db, c, now); PushIsLogged(db, c, now);
    case Rpush(k, vs) => ListsStaySound(db, c, now); PushIsLogged(db, c, now);
    case Lpop(k, n) => PopNone(db.lists, k, n);
    case Rpop(k, n) => PopNone(db.lists, k, n);
    case Hdel(k, fs) => EraseNothing(db.hashes, k, fs);
    case Sadd(k, ms) => AddNothing(db.sets, k, ms);
    case Srem(k, ms) => RemoveNothing(db.sets, k, ms);
    case _ =>
  }

  lemma PushIsLogged(db: DB, c: Command, now: Time)
    requires SoundLists(db.lists) && Loggable(c) && (c.Lpush? || c.Rpush?)
    ensures Logged(db, c, now) == [c]
  {
    hide PushAllFront, PushAllBack;
    if c.Lpush? {
      PushAllFrontElems(RingAt(db.lists, c.key), c.values);
    } else {
      PushAllBackElems(RingAt(db.lists, c.key), c.values);
    }
  }

  lemma PopSome(m: ListMap, key: Bytes, count: int)
    requires key in m && m[key].elems != [] && 0 < count <= MAX_POP
    ensures PoppedFront(m, key, count).0 != m && PoppedBack(m, key, count).0 != m
  {
    hide Reverse;
    var front, back := PoppedFront(m, key, count).0, PoppedBack(m, key, count).0;
    assert key in front ==> |front[key].elems| < |m[key].elems|;
    assert key in back ==> |back[key].elems| < |m[key].elems|;
  }

  lemma Undurable(db: DB, c: Command, now: Time)
    requires Sound(db) && !DurableRest(db, c) && Apply(db, c, now).Some?
    ensures !SameRest(Apply(db, c, now).value, db)
    ensures c.Lpop? || c.Rpop? || c.Hset? || c.SExpire?
  {
    hide PoppedFront, PoppedBack, Writes;
    match c
    case Lpop(k, n) => PopSome(db.lists, k, n);
    case Rpop(k, n) => PopSome(db.lists, k, n);
    case _ =>
  }

  /** Exactly: the step and its log agree on sets, lists and hashes if and only if the command is
      one the log does justice to. */
  lemma StepReproducedExactly(db: DB, c: Command, now: Time, later: Time)
    requires Sound(db) && Shaped(c) && Apply(db, c, now).Some?
    ensures var replayed := ReplayFrom(db, Logged(db, c, now), later);
            replayed.Some? && SameRest(Apply(db, c, now).value, replayed.value) <==> DurableRest(db, c)
  {
    hide Sound, Shaped;
    if DurableRest(db, c) {
      StepReproduced(db, db, c, now, later);
    } else {
      Undurable(db, c, now);
      UndurableLog(db, c, now, later);
    }
  }

  lemma UndurableLog(db: DB, c: Command, now: Time, later: Time)
    requires !DurableRest(db, c) && (c.Lpop? || c.Rpop? || c.Hset? || c.SExpire?)
    ensures var r := ReplayFrom(db, Logged(db, c, now), later); r.Some? && SameRest(db, r.value)
  {
    hide ReplayFrom, PoppedFront, PoppedBack, Written, HashAt;
    ReplayNone(db, later);
    if c.SExpire? {
      var logged := PExpireAt(c.key, After(now, Expiry.Seconds(c.seconds)));
      assert [] + [logged] == [logged];
      ReplayOne(db, [], logged, later);
    }
  }

  lemma RestPrefix(es: seq<Event>)
    requires RestRun(es) && es != []
    ensures RestRun(es[..|es| - 1])
    ensures var s := Run(es[..|es| - 1]);
            es[|es| - 1].Do? && s.Some? ==> DurableRest(s.value.db, Parse(es[|es| - 1].call))
  {
    hide DurableRest, Run;
    var front := es[..|es| - 1];
    forall i | 0 <= i < |front| ensures front[..i] == es[..i] && front[i] == es[i] {
    }
  }

  lemma DictPrefix(es: seq<Event>)
    requires DictRun(es) && es != []
    ensures DictRun(es[..|es| - 1])
    ensures var s := Run(es[..|es| - 1]);
            es[|es| - 1].Do? && s.Some? ==> DurableDict(s.value.db, Parse(es[|es| - 1].call), es[|es| - 1].now)
  {
    hide DurableDict, Run;
    var front := es[..|es| - 1];
    forall i | 0 <= i < |front| ensures front[..i] == es[..i] && front[i] == es[i] {
    }
  }

  /** Sets, lists and hashes over whole runs: no such run panics, no empty collection is
      reachable, and replaying the log at any instant rebuilds all three stores. */
  lemma {:induction false} RunRest(es: seq<Event>, later: Time)
    requires RestRun(es)
    ensures Run(es).Some? && Sound(Run(es).value.db)
    ensures var live := Run(es).value; var replayed := ReplayFrom(EMPTY, live.log, later);
            replayed.Some? && SameRest(live.db, replayed.value)
    decreases |es|
  {
    hide DurableRest, Apply, Logged, Sound, RestRun;
    if es == [] {
      EmptySound();
    } else {
      var front, e := es[..|es| - 1], es[|es| - 1];
      RestPrefix(es);
      RunRest(front, later);
      var s := Run(front).value;
      if e.Do? {
        RunRestStep(s, e.call, e.now, later);
      } else {
        NothingToEvict(s.db, e.setKeys, e.now);
        SoundWithoutDict(s.db, Step(s, e).value.db);
      }
    }
  }

  lemma EmptySound()
    ensures Sound(EMPTY)
  {
  }

  lemma SoundWithoutDict(a: DB, b: DB)
    requires Sound(a) && SameRest(a, b)
    ensures Sound(b)
  {
  }

  lemma RunRestStep(s: Live, call: Call, now: Time, later: Time)
    requires Sound(s.db) && DurableRest(s.db, Parse(call))
    requires var r := ReplayFrom(EMPTY, s.log, later); r.Some? && SameRest(s.db, r.value)
    ensures Apply(s.db, Parse(call), now).Some? && Sound(Apply(s.db, Parse(call), now).value)
    ensures var r := ReplayFrom(EMPTY, s.log + Logged(s.db, Parse(call), now), later);
            r.Some? && SameRest(Apply(s.db, Parse(call), now).value, r.value)
  {
    hide Apply, Logged, Sound, Parse, Shaped, DurableRest, SameRest, ReplayFrom;
    ParseShaped(call);
    SoundStep(s.db, Parse(call), now);
    StepReproduced(s.db, ReplayFrom(EMPTY, s.log, later).value, Parse(call), now, later);
    ReplayConcat(EMPTY, s.log, Logged(s.db, Parse(call), now), later);
  }

  lemma NothingToEvict(db: DB, keys: set<Bytes>, now: Time)
    requires Sound(db)
    ensures EvictKeys(db.sets, keys, now) == db.sets
  {
  }

  // ---------- The dict: what the log remembers of one key ----------

  /** What the log says of a key since it was last set or deleted: its value and the deadlines
      given to it, in order. */
  datatype Track = Absent | Present(value: Bytes, deadlines: seq<int64>)

  function TrackStep(t: Track, c: Command, key: Bytes): Track {
    match c
    case Set(k, v, _) => if k == key then Present(v, []) else t
    case Del(ks) => if key in ks then Absent else t
    case PExpireAt(k, at) => if k == key && t.Present? then Present(t.value, t.deadlines + [at]) else t
    case _ => t
  }

  function TrackOf(log: seq<Command>, key: Bytes): Track
    decreases |log|
  {
    if log == [] then Absent else TrackStep(TrackOf(log[..|log| - 1], key), log[|log| - 1], key)
  }

  lemma TrackOne(log: seq<Command>, c: Command, key: Bytes)
    ensures TrackOf(log + [c], key) == TrackStep(TrackOf(log, key), c, key)
  {
    assert (log + [c])[..|log|] == log;
  }

  function LastOf(deadlines: seq<int64>): Option<int64> {
    if deadlines == [] then None else Some(deadlines[|deadlines| - 1])
  }

  predicate AnyBefore(deadlines: seq<int64>, now: int) {
    exists i :: 0 <= i < |deadlines| && deadlines[i] < now
  }

  /** A key replayed on top of a dict is there unless some deadline given to it has passed, and
      then it has the last one; one the log says nothing of is there only if it was before. */
  predicate Replayed(base: Store<Bytes>, m: Store<Bytes>, t: Track, key: Bytes, now: Time) {
    match t
    case Absent => key in m ==> key in base
    case Present(v, ds) =>
      if AnyBefore(ds, now) then key !in m else key in m && m[key] == Item(v, LastOf(ds))
  }

  /** A live key has the last deadline, or has expired; and it is missing only once some deadline
      given to it is over. */
  predicate Lived(m: Store<Bytes>, t: Track, key: Bytes, now: Time) {
    match t
    case Absent => key !in m
    case Present(v, ds) =>
      if key in m then
        && m[key].value == v
        && (m[key].expiredAt == LastOf(ds) || (Expired(m[key], now) && AnyBefore(ds, now)))
      else AnyBefore(ds, now + 1)
  }

  lemma {:induction false} ReplayTrack(base: DB, log: seq<Command>, key: Bytes, now: Time)
    requires AllLoggable(log) && ReplayFrom(base, log, now).Some?
    ensures Replayed(base.dict, ReplayFrom(base, log, now).value.dict, TrackOf(log, key), key, now)
    decreases |log|
  {
    if log != [] {
      var front, c := log[..|log| - 1], log[|log| - 1];
      ReplayTrack(base, front, key, now);
      ReplayTrackStep(base.dict, ReplayFrom(base, front, now).value, TrackOf(front, key), c, key, now);
    }
  }

  lemma ReplayTrackStep(base: Store<Bytes>, db: DB, t: Track, c: Command, key: Bytes, now: Time)
    requires Loggable(c) && Apply(db, c, now).Some? && Replayed(base, db.dict, t, key, now)
    ensures Replayed(base, Apply(db, c, now).value.dict, TrackStep(t, c, key), key, now)
  {
    if c.PExpireAt? && c.key == key && t.Present? {
      var ds := t.deadlines + [c.at];
      assert ds[|ds| - 1] == c.at;
      if AnyBefore(t.deadlines, now) {
        var i :| 0 <= i < |t.deadlines| && t.deadlines[i] < now;
        assert ds[i] < now;
      }
    }
  }

  lemma AnyBeforeMore(ds: seq<int64>, at: int64, now: int, later: int)
    requires now <= later
    ensures AnyBefore(ds, now) ==> AnyBefore(ds, later)
    ensures AnyBefore(ds + [at], now) <==> AnyBefore(ds, now) || at < now
    ensures LastOf(ds + [at]) == Some(at)
    ensures ds != [] && ds[|ds| - 1] < now ==> AnyBefore(ds, now)
  {
    assert (ds + [at])[|ds|] == at;
    if i :| 0 <= i < |ds| && ds[i] < now {
      assert (ds + [at])[i] < now;
    }
  }

  // The instants `before`, `now` and just after it, and the deadline `at`: what they say of t.
  lemma TrackMore(t: Track, at: int64, before: Time, now: Time)
    requires before <= now
    ensures t.Present? ==>
              var ds := t.deadlines;
              && (AnyBefore(ds, before) ==> AnyBefore(ds, now))
              && (AnyBefore(ds, before + 1) ==> AnyBefore(ds, now + 1))
              && (AnyBefore(ds, now) ==> AnyBefore(ds, now + 1))
              && (AnyBefore(ds + [at], now) <==> AnyBefore(ds, now) || at < now)
              && (AnyBefore(ds + [at], now + 1) <==> AnyBefore(ds, now + 1) || at <= now)
              && LastOf(ds + [at]) == Some(at)
              && (ds != [] && ds[|ds| - 1] < now ==> AnyBefore(ds, now))
  {
    if t.Present? {
      AnyBeforeMore(t.deadlines, at, before, now);
      AnyBeforeMore(t.deadlines, at, before + 1, now + 1);
      AnyBeforeMore(t.deadlines, at, now, now + 1);
      AnyBeforeMore(t.deadlines, at, now + 1, now + 1);
    }
  }

  function DeadlineOf(c: Command, now: Time): int64 {
    if c.Expire? || c.SExpire? then After(now, Expiry.Seconds(c.seconds)) else 0
  }

  lemma LiveTrackStep(db: DB, t: Track, c: Command, key: Bytes, before: Time, now: Time)
    requires Lived(db.dict, t, key, before) && before <= now
    requires DurableDict(db, c, now) && Apply(db, c, now).Some?
    ensures var log := Logged(db, c, now);
            && (log == [] ==> Lived(Apply(db, c, now).value.dict, t, key, now))
            && (|log| == 1 ==> Lived(Apply(db, c, now).value.dict, TrackStep(t, log[0], key), key, now))
            && (|log| == 2 ==> Lived(Apply(db, c, now).value.dict, TrackStep(TrackStep(t, log[0], key), log[1], key), key, now))
            && |log| <= 2
  {
    hide PushedFront, PushedBack, PoppedFront, PoppedBack, Sorted, Written, Erased, Added, Removed, Expiry.Seconds;
    hide AnyBefore, PushBackPanics, PopPanics, HashAt, MembersAt;
    TrackMore(t, DeadlineOf(c, now), before, now);
  }

  lemma LiveTrackLog(db: DB, log: seq<Command>, c: Command, key: Bytes, before: Time, now: Time)
    requires Lived(db.dict, TrackOf(log, key), key, before) && before <= now
    requires DurableDict(db, c, now) && Apply(db, c, now).Some?
    ensures Lived(Apply(db, c, now).value.dict, TrackOf(log + Logged(db, c, now), key), key, now)
  {
    hide DurableDict, Apply, Logged, Lived, TrackStep;
    var more := Logged(db, c, now);
    LiveTrackStep(db, TrackOf(log, key), c, key, before, now);
    if more == [] {
      assert log + more == log;
    } else if |more| == 1 {
      assert more == [more[0]];
      TrackOne(log, more[0], key);
    } else {
      assert log + more == log + [more[0]] + [more[1]];
      TrackOne(log, more[0], key);
      TrackOne(log + [more[0]], more[1], key);
    }
  }

  function EndOf(es: seq<Event>): Time {
    if es == [] then 0 else es[|es| - 1].now
  }

  lemma {:induction false} LiveTrack(es: seq<Event>, key: Bytes)
    requires DictRun(es) && Ordered(es) && Run(es).Some?
    ensures Lived(Run(es).value.db.dict, TrackOf(Run(es).value.log, key), key, EndOf(es))
    decreases |es|
  {
    hide DurableDict, Apply, Logged, DictRun, TrackOf, Parse;
    if es == [] {
      assert TrackOf([], key) == Absent by { TrackNone(key); }
    } else {
      var front, e := es[..|es| - 1], es[|es| - 1];
      DictPrefix(es);
      LiveTrack(front, key);
      var s := Run(front).value;
      if e.Do? {
        LiveTrackLog(s.db, s.log, Parse(e.call), key, EndOf(front), e.now);
      }
    }
  }

  lemma TrackNone(key: Bytes)
    ensures TrackOf([], key) == Absent
  {
  }

  /** The keys a replay at `now` loses: still to be seen in the live dict, though a deadline they
      were given since they were last set has passed. */
  predicate Lost(live: Live, key: Bytes, now: Time) {
    var t := TrackOf(live.log, key);
    key in Visible(live.db.dict, now) && t.Present? && AnyBefore(t.deadlines, now)
  }

  lemma LoggableRun(es: seq<Event>)
    requires Run(es).Some?
    ensures AllLoggable(Run(es).value.log)
    decreases |es|
  {
    hide Apply, Logged, Parse, Loggable;
    if es != [] {
      LoggableRun(es[..|es| - 1]);
      var s, e := Run(es[..|es| - 1]).value, es[|es| - 1];
      if e.Do? {
        LoggedIsLoggable(s.db, e.call, e.now);
      }
    }
  }

  lemma DictAt(live: Store<Bytes>, base: Store<Bytes>, copy: Store<Bytes>, t: Track, key: Bytes, end: Time, now: Time)
    requires Lived(live, t, key, end) && Replayed(base, copy, t, key, now) && end < now
    requires key in base ==> key in live
    ensures key in Visible(copy, now) <==> key in Visible(live, now) && !(t.Present? && AnyBefore(t.deadlines, now))
    ensures key in Visible(copy, now) ==> live[key] == copy[key]
  {
    hide AnyBefore;
    TrackMore(t, 0, end, now);
    if t.Present? {
      AnyBeforeMore(t.deadlines, 0, end + 1, now);
    }
  }

  /** The dict over whole runs, with any eviction: replaying the log at any instant after the run,
      on an empty dict or on one that holds live keys, gives the visible keys of the live dict
      with their values and deadlines, less exactly the lost ones. */
  lemma RunDict(es: seq<Event>, base: DB, now: Time)
    requires DictRun(es) && Ordered(es) && EndOf(es) < now && Run(es).Some?
    requires base.dict.Keys <= Run(es).value.db.dict.Keys && ReplayFrom(base, Run(es).value.log, now).Some?
    ensures var live := Run(es).value; var copy := ReplayFrom(base, live.log, now).value;
            Visible(copy.dict, now) ==
              (map k | k in Visible(live.db.dict, now) && !Lost(live, k, now) :: live.db.dict[k])
  {
    hide Run, ReplayFrom, TrackOf, DictRun, AllLoggable, AnyBefore, Replayed, Lived;
    LoggableRun(es);
    var live := Run(es).value;
    var copy := ReplayFrom(base, live.log, now).value;
    forall k
      ensures k in Visible(copy.dict, now) <==> k in Visible(live.db.dict, now) && !Lost(live, k, now)
      ensures k in Visible(copy.dict, now) ==> copy.dict[k] == live.db.dict[k]
    {
      LiveTrack(es, k);
      ReplayTrack(base, live.log, k, now);
      DictAt(live.db.dict, base.dict, copy.dict, TrackOf(live.log, k), k, EndOf(es), now);
    }
  }

  /** Over a run the log does justice to, replaying the log rebuilds all four stores, as seen at
      any later instant, if and only if it loses no key. */
  lemma RunRebuiltExactly(es: seq<Event>, now: Time)
    requires RestRun(es) && DictRun(es) && Ordered(es) && EndOf(es) < now
    ensures Run(es).Some? && ReplayFrom(EMPTY, Run(es).value.log, now).Some?
    ensures var live := Run(es).value; var copy := ReplayFrom(EMPTY, live.log, now).value;
            SameRest(live.db, copy) && Visible(copy.dict, now) == Visible(live.db.dict, now)
            <==> forall k :: !Lost(live, k, now)
  {
    hide Run, Sound, ReplayFrom, Lost, RestRun, DictRun, Visible;
    RunRest(es, now);
    RunDict(es, EMPTY, now);
    var live := Run(es).value;
    var copy := ReplayFrom(EMPTY, live.log, now).value;
    LostIsVisible(live, now);
  }

  lemma LostIsVisible(live: Live, now: Time)
    ensures forall k :: Lost(live, k, now) ==> k in Visible(live.db.dict, now)
    ensures forall k :: k in Visible(live.db.dict, now) ==> Visible(live.db.dict, now)[k] == live.db.dict[k]
  {
  }

  /** In particular when no key is ever given a later deadline than one it has had since it was
      last set. */
  lemma NoRaisedDeadline(es: seq<Event>, key: Bytes, now: Time)
    requires DictRun(es) && Ordered(es) && EndOf(es) < now && Run(es).Some?
    requires var t := TrackOf(Run(es).value.log, key);
             t.Present? ==> forall i, j :: 0 <= i < j < |t.deadlines| ==> t.deadlines[i] >= t.deadlines[j]
    ensures !Lost(Run(es).value, key, now)
  {
    hide Run, TrackOf, DictRun;
    LiveTrack(es, key);
    var t := TrackOf(Run(es).value.log, key);
    if t.Present? && AnyBefore(t.deadlines, now) {
      var i :| 0 <= i < |t.deadlines| && t.deadlines[i] < now;
      assert t.deadlines[|t.deadlines| - 1] <= t.deadlines[i];
    }
  }

  /** Exactly: some replay after the run loses a key of the live dict if and only if the key's
      deadline is still to come and above another it was given since it was last set. */
  lemma LostSometimeExactly(es: seq<Event>, key: Bytes)
    requires DictRun(es) && Ordered(es) && Run(es).Some?
    requires var m := Run(es).value.db.dict;
             key in m && m[key].expiredAt.Some? && 0 <= m[key].expiredAt.value < 0x4000_0000_0000_0000
    ensures var live := Run(es).value; var last := live.db.dict[key].expiredAt.value;
            var t := TrackOf(live.log, key);
            (exists now: Time :: EndOf(es) < now && Lost(live, key, now))
            <==> last > EndOf(es) && t.Present? && AnyBefore(t.deadlines, last)
  {
    hide Run, TrackOf, DictRun;
    LiveTrack(es, key);
    var live := Run(es).value;
    var t, last := TrackOf(live.log, key), live.db.dict[key].expiredAt.value;
    if now: Time :| EndOf(es) < now && Lost(live, key, now) {
      var i :| 0 <= i < |t.deadlines| && t.deadlines[i] < now;
      assert t.deadlines[i] < last;
    }
    if last > EndOf(es) && AnyBefore(t.deadlines, last) {
      var now: Time := last;
      assert Lost(live, key, now);
    }
  }

  /** A raised deadline loses its key: set for ten seconds at 0 and kept for a hundred more at
      5 s, the key is still visible at 50 s, but a replay then has deleted it. */
  lemma RaisedDeadlineLost(key: Bytes, value: Bytes)
    ensures var put, expire := Set(key, value, Seconds(10)), Expire(key, 100);
            var db := Apply(EMPTY, put, 0).value;
            var live := Live(Apply(db, expire, 5_000).value, Logged(EMPTY, put, 0) + Logged(db, expire, 5_000));
            && Visible(live.db.dict, 50_000) == map[key := Item(value, Some(105_000))]
            && Lost(live, key, 50_000)
  {
    var log := [Set(key, value, 0), PExpireAt(key, 10_000), PExpireAt(key, 105_000)];
    var db := Apply(EMPTY, Set(key, value, Seconds(10)), 0).value;
    assert Logged(EMPTY, Set(key, value, Seconds(10)), 0) + Logged(db, Expire(key, 100), 5_000) == log;
    var ds: seq<int64> := [10_000, 105_000];
    TwoDeadlines(key, value, ds[0], ds[1]);
    assert ds[0] < 50_000;
  }

  lemma TwoDeadlines(key: Bytes, value: Bytes, first: int64, second: int64)
    ensures TrackOf([Set(key, value, 0), PExpireAt(key, first), PExpireAt(key, second)], key) == Present(value, [first, second])
  {
    hide TrackOf;
    var log := [Set(key, value, 0), PExpireAt(key, first), PExpireAt(key, second)];
    TrackNone(key);
    TrackOne([], log[0], key);
    TrackOne([log[0]], log[1], key);
    TrackOne([log[0], log[1]], log[2], key);
    assert [] + [log[0]] == [log[0]];
    assert [log[0]] + [log[1]] == [log[0], log[1]] && [log[0], log[1]] + [log[2]] == log;
  }

  // ---------- The dict: which steps the log repeats ----------

  /** The deadline `at` makes no difference, at `later`, to the dict entry of the key. */
  predicate Immaterial(m: Store<Bytes>, key: Bytes, at: int64, later: Time) {
    key !in m || m[key].expiredAt == Some(at) || (Expired(m[key], later) && at < later)
  }

  predicate DictRepeated(db: DB, c: Command, now: Time, later: Time) {
    match c
    case PExpireAt(k, at) => Immaterial(db.dict, k, at, later)
    case SExpire(k, s) => k !in db.sets || Immaterial(db.dict, k, After(now, Expiry.Seconds(s)), later)
    case _ => true
  }

  /** Exactly: the step and its log, replayed at a later instant, show the same dict then if and
      only if the command is neither a client's PEXPIREAT nor a set deadline that makes a
      difference to the dict key. */
  lemma DictStepExactly(db: DB, c: Command, now: Time, later: Time)
    requires now < later && Apply(db, c, now).Some?
    ensures var replayed := ReplayFrom(db, Logged(db, c, now), later);
            && replayed.Some?
            && (Visible(Apply(db, c, now).value.dict, later) == Visible(replayed.value.dict, later)
                <==> DictRepeated(db, c, now, later))
  {
    hide Apply, Logged, Visible, DictRepeated;
    match c
    case Set(k, v, ttl) => SetStep(db, c, now, later);
    case Expire(k, s) => DeadlineStep(db, c, After(now, Expiry.Seconds(s)), now, later);
    case PExpireAt(k, at) => DeadlineStep(db, c, at, now, later);
    case SExpire(k, s) => DeadlineStep(db, c, After(now, Expiry.Seconds(s)), now, later);
    case _ => OtherStep(db, c, now, later);
  }

  lemma SetStep(db: DB, c: Command, now: Time, later: Time)
    requires c.Set? && now < later
    ensures var replayed := ReplayFrom(db, Logged(db, c, now), later);
            && Apply(db, c, now).Some? && replayed.Some? && DictRepeated(db, c, now, later)
            && Visible(Apply(db, c, now).value.dict, later) == Visible(replayed.value.dict, later)
  {
    hide ReplayFrom;
    ReplayNone(db, later);
    var log := Logged(db, c, now);
    ReplayOne(db, [], log[0], later);
    assert [] + [log[0]] == [log[0]];
    if |log| == 2 {
      assert log == [log[0]] + [log[1]];
      ReplayOne(db, [log[0]], log[1], later);
    } else {
      assert log == [log[0]];
    }
  }

  lemma DeadlineStep(db: DB, c: Command, at: int64, now: Time, later: Time)
    requires now < later
    requires match c
             case Expire(_, s) => at == After(now, Expiry.Seconds(s))
             case SExpire(_, s) => at == After(now, Expiry.Seconds(s))
             case PExpireAt(_, t) => at == t
             case _ => false
    ensures var replayed := ReplayFrom(db, Logged(db, c, now), later);
            && Apply(db, c, now).Some? && replayed.Some?
            && (Visible(Apply(db, c, now).value.dict, later) == Visible(replayed.value.dict, later)
                <==> DictRepeated(db, c, now, later))
  {
    hide ReplayFrom, Visible, Immaterial;
    ReplayNone(db, later);
    if Logged(db, c, now) != [] {
      assert [] + [PExpireAt(c.key, at)] == [PExpireAt(c.key, at)];
      ReplayOne(db, [], PExpireAt(c.key, at), later);
    }
    DeadlineMatters(db.dict, c.key, at, now, later);
    match c
    case Expire(_, s) => ExpireRepeated(db.dict, c.key, Expiry.Seconds(s), now, later);
    case _ =>
  }

  /** A deadline set at `now`, or only when replayed at `later`, shows in the dict exactly unless it
      is immaterial. */
  lemma DeadlineMatters(m: Store<Bytes>, key: Bytes, at: int64, now: Time, later: Time)
    requires now < later
    ensures Visible(ExpireAt(m, key, at, now), later) == Visible(m, later) <==> Immaterial(m, key, at, later)
    ensures Visible(m, later) == Visible(ExpireAt(m, key, at, later), later) <==> Immaterial(m, key, at, later)
  {
    ShowsLater(m, ExpireAt(m, key, at, now), key, at, later);
    ShowsLater(m, ExpireAt(m, key, at, later), key, at, later);
  }

  lemma ShowsLater(m: Store<Bytes>, n: Store<Bytes>, key: Bytes, at: int64, later: Time)
    requires key in m ==> n == m[key := m[key].(expiredAt := Some(at))] || (n == m - {key} && at < later)
    requires key !in m ==> n == m
    ensures Visible(n, later) == Visible(m, later) <==> Immaterial(m, key, at, later)
  {
    var vn, vm := Visible(n, later), Visible(m, later);
    assert forall k :: k != key ==> (k in vn <==> k in vm) && (k in vn ==> vn[k] == vm[k]);
    if key in m {
      assert key in vn <==> at >= later;
      assert key in vn ==> vn[key] == m[key].(expiredAt := Some(at));
      assert key in vm <==> !Expired(m[key], later);
      assert key in vm ==> vm[key] == m[key];
      assert vn == vm <==> (key in vn <==> key in vm) && (key in vn && key in vm ==> vn[key] == vm[key]);
    }
  }

  lemma ExpireRepeated(m: Store<Bytes>, key: Bytes, ttl: int64, now: Time, later: Time)
    requires now < later
    ensures var at := After(now, ttl);
            Visible(Expiry.Expire(m, key, ttl, now), later) == Visible(ExpireAt(m, key, at, later), later)
  {
  }

  lemma OtherStep(db: DB, c: Command, now: Time, later: Time)
    requires now < later && Apply(db, c, now).Some?
    requires !c.Set? && !c.Expire? && !c.PExpireAt? && !c.SExpire?
    ensures var replayed := ReplayFrom(db, Logged(db, c, now), later);
            && replayed.Some? && DictRepeated(db, c, now, later)
            && Visible(Apply(db, c, now).value.dict, later) == Visible(replayed.value.dict, later)
  {
    hide ReplayFrom, Apply, Logged, Visible;
    OtherDict(db, c, now, later);
    ReplayNone(db, later);
    assert [] + [c] == [c];
    ReplayOne(db, [], c, later);
  }

  lemma OtherDict(db: DB, c: Command, now: Time, later: Time)
    requires now < later && Apply(db, c, now).Some?
    requires !c.Set? && !c.Expire? && !c.PExpireAt? && !c.SExpire?
    ensures var log := Logged(db, c, now); var dict := Apply(db, c, now).value.dict;
            || (log == [] && Visible(dict, later) == Visible(db.dict, later))
            || (log == [c] && Apply(db, c, later).Some? && Apply(db, c, later).value.dict == dict)
  {
    hide PushedFront, PushedBack, PoppedFront, PoppedBack, Sorted, Written, Erased, Added, Removed;
    hide PushBackPanics, PopPanics, HashAt, MembersAt;
  }

  /** A PEXPIREAT sent by a client is lost: the key expires at 10 s, but a replay at 20 s shows it. */
  lemma ClientDeadlineLost(key: Bytes, value: Bytes)
    ensures var put, deadline := Set(key, value, 0), PExpireAt(key, 10_000);
            var db := Apply(EMPTY, put, 0).value;
            var live, log := Apply(db, deadline, 1).value, Logged(EMPTY, put, 0) + Logged(db, deadline, 1);
            var copy := ReplayFrom(EMPTY, log, 20_000);
            && Visible(live.dict, 20_000) == map[]
            && copy.Some? && Visible(copy.value.dict, 20_000) == map[key := Item(value, None)]
  {
    var put := Set(key, value, 0);
    ReplayNone(EMPTY, 20_000);
    ReplayOne(EMPTY, [], put, 20_000);
    assert Logged(EMPTY, put, 0) + [] == [put] == [] + [put];
  }

  /** A set's deadline hits the dict key of the same name: the text is still there at 20 s, but a
      replay then has deleted it, and keeps the set that is over. */
  lemma SetDeadlineHitsDict(key: Bytes, value: Bytes, member: Bytes)
    ensures var add, deadline := Sadd(key, [member]), SExpire(key, 10);
            var db := Apply(Apply(EMPTY, Set(key, value, 0), 0).value, add, 0).value;
            var live, log := Apply(db, deadline, 0).value, [Set(key, value, 0), add] + Logged(db, deadline, 0);
            var copy := ReplayFrom(EMPTY, log, 20_000);
            && Visible(live.dict, 20_000) == map[key := Item(value, None)] && Visible(live.sets, 20_000) == map[]
            && copy.Some? && copy.value.dict == map[] && copy.value.sets == map[key := Item({member}, None)]
  {
    var c0, c1, c2 := Set(key, value, 0), Sadd(key, [member]), PExpireAt(key, 10_000);
    AddFirst(Apply(EMPTY, c0, 0).value, key, member, 0);
    AddFirst(Apply(EMPTY, c0, 20_000).value, key, member, 20_000);
    hide Added;
    ReplayNone(EMPTY, 20_000);
    ReplayOne(EMPTY, [], c0, 20_000);
    ReplayOne(EMPTY, [c0], c1, 20_000);
    ReplayOne(EMPTY, [c0, c1], c2, 20_000);
    assert [] + [c0] == [c0] && [c0] + [c1] == [c0, c1];
    assert [c0, c1] + [c2] == [c0, c1, c2];
  }

  lemma AddFirst(db: DB, key: Bytes, member: Bytes, now: Time)
    requires db.sets == map[]
    ensures Apply(db, Sadd(key, [member]), now) == Some(db.(sets := map[key := Item({member}, None)]))
  {
    assert {} + AsSet([member]) == {member};
  }

  // ---------- A log cut short ----------

  lemma LogGrows(es: seq<Event>)
    requires es != [] && Run(es).Some?
    ensures Run(es[..|es| - 1]).Some?
    ensures var (s, t) := (Run(es[..|es| - 1]).value, Run(es).value);
            && s.log <= t.log && |t.log| <= |s.log| + 2
            && (|t.log| == |s.log| + 2 ==> t.log[|s.log|].Set? && t.log[|s.log|].ttl == 0)
  {
    hide Apply, Logged, Parse;
    var s, e := Run(es[..|es| - 1]).value, es[|es| - 1];
    if e.Do? {
      LoggedSize(s.db, Parse(e.call), e.now);
    }
  }

  lemma LoggedSize(db: DB, c: Command, now: Time)
    ensures var log := Logged(db, c, now); |log| <= 2 && (|log| == 2 ==> log[0].Set? && log[0].ttl == 0)
  {
  }

  // One more record: a SET whose deadline is missing.
  predicate Dangling(log: seq<Command>, prefix: seq<Command>) {
    |prefix| == |log| + 1 && log <= prefix && prefix[|log|].Set? && prefix[|log|].ttl == 0
  }

  /** Crash consistency: whatever prefix of the log survives, replaying it gives the sets, lists
      and hashes of some moment of the run; the log of that moment is the prefix itself, or the
      prefix has one more record, the SET whose deadline is missing. */
  lemma {:induction false} CutLogIsAMoment(es: seq<Event>, cut: nat, now: Time) returns (j: nat)
    requires RestRun(es) && Run(es).Some? && cut <= |Run(es).value.log|
    ensures j <= |es| && Run(es[..j]).Some?
    ensures var moment, prefix := Run(es[..j]).value, Run(es).value.log[..cut];
            && ReplayFrom(EMPTY, prefix, now).Some?
            && SameRest(moment.db, ReplayFrom(EMPTY, prefix, now).value)
            && moment.log <= prefix && (prefix == moment.log || Dangling(moment.log, prefix))
    decreases |es|
  {
    hide RestRun, SameRest, Apply, Run, ReplayFrom;
    assert es[..|es|] == es;
    if cut == |Run(es).value.log| {
      RunRest(es, now);
      j := |es|;
      assert Run(es).value.log[..cut] == Run(es).value.log;
    } else {
      if es == [] {
        RunNone();
      }
      var front := es[..|es| - 1];
      LogGrows(es);
      RestPrefix(es);
      var before := Run(front).value;
      if cut <= |before.log| {
        j := CutLogIsAMoment(front, cut, now);
        assert front[..j] == es[..j];
        assert Run(es).value.log[..cut] == before.log[..cut];
      } else {
        j := |front|;
        RunRest(front, now);
        var c := Run(es).value.log[cut - 1];
        assert Run(es).value.log[..cut] == before.log + [c];
        ReplayOne(EMPTY, before.log, c, now);
        DictKeepsRest(ReplayFrom(EMPTY, before.log, now).value, c, now);
        SameRestTrans(before.db, ReplayFrom(EMPTY, before.log, now).value, ReplayFrom(EMPTY, before.log + [c], now).value);
      }
    }
  }

  /** The dict replayed from what is left of a log: that of the moment, less its lost keys, except
      that the key of a dangling SET has its new value and never expires. */
  ghost predicate DictOfMoment(moment: Live, prefix: seq<Command>, copy: Store<Bytes>, now: Time) {
    forall k ::
      if Dangling(moment.log, prefix) && k == prefix[|moment.log|].key
      then k in copy && copy[k] == Item(prefix[|moment.log|].value, None)
      else && (k in Visible(copy, now) <==> k in Visible(moment.db.dict, now) && !Lost(moment, k, now))
           && (k in Visible(copy, now) ==> copy[k] == moment.db.dict[k])
  }

  lemma CutDict(es: seq<Event>, j: nat, prefix: seq<Command>, now: Time)
    requires DictRun(es) && Ordered(es) && EndOf(es) < now && j <= |es| && Run(es[..j]).Some?
    requires prefix == Run(es[..j]).value.log || Dangling(Run(es[..j]).value.log, prefix)
    requires ReplayFrom(EMPTY, prefix, now).Some?
    ensures DictOfMoment(Run(es[..j]).value, prefix, ReplayFrom(EMPTY, prefix, now).value.dict, now)
  {
    hide Run, ReplayFrom, DictRun, Lost, DictOfMoment, Visible;
    var moment := Run(es[..j]).value;
    DictFront(es, j);
    if prefix != moment.log {
      var last := prefix[|moment.log|];
      assert prefix == moment.log + [last];
      ReplayOne(EMPTY, moment.log, last, now);
    }
    RunDict(es[..j], EMPTY, now);
    OneMoreSet(moment, prefix, ReplayFrom(EMPTY, moment.log, now).value.dict, now);
  }

  lemma OneMoreSet(moment: Live, prefix: seq<Command>, copy: Store<Bytes>, now: Time)
    requires Visible(copy, now) ==
               (map k | k in Visible(moment.db.dict, now) && !Lost(moment, k, now) :: moment.db.dict[k])
    ensures prefix == moment.log ==> DictOfMoment(moment, prefix, copy, now)
    ensures Dangling(moment.log, prefix) ==>
              var last := prefix[|moment.log|];
              DictOfMoment(moment, prefix, Put(copy, last.key, last.value, last.ttl, now), now)
  {
    hide Lost;
    forall k
      ensures k in Visible(copy, now) <==> k in Visible(moment.db.dict, now) && !Lost(moment, k, now)
      ensures k in Visible(copy, now) ==> copy[k] == moment.db.dict[k]
    {
      assert k in Visible(copy, now) ==> copy[k] == Visible(copy, now)[k];
    }
    if Dangling(moment.log, prefix) {
      var last := prefix[|moment.log|];
      PutShown(copy, last.key, last.value, now);
    }
  }

  lemma PutShown(m: Store<Bytes>, key: Bytes, value: Bytes, now: Time)
    ensures var n := Put(m, key, value, 0, now);
            && n[key] == Item(value, None)
            && forall k :: k != key ==>
                 (k in Visible(n, now) <==> k in Visible(m, now)) && (k in Visible(n, now) ==> n[k] == m[k])
  {
  }

  lemma DictFront(es: seq<Event>, j: nat)
    requires DictRun(es) && j <= |es|
    ensures DictRun(es[..j])
  {
    hide DurableDict, Run;
    forall i | 0 <= i < j ensures es[..j][..i] == es[..i] && es[..j][i] == es[i] {
    }
  }

  lemma RunNone()
    ensures Run([]) == Some(Live(EMPTY, []))
  {
  }
}
