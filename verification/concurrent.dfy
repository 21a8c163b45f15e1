/** Many clients at once. A handler changes a store under that store's lock, lets go of it, and then
    appends its records under the log's own lock. Here each store change is one step and each
    append is another, and steps of different clients come in any order. */
module Concurrency {
  import opened ByteStrings
  import opened Resp
  import opened Expiry
  import opened Lists
  import opened Sets
  import opened HashMaps
  import opened Commands
  import opened LogRefinement
  import opened Loading
  import opened Restarting

  // ---------- What a log record reaches ----------

  // A key of one of the four stores.
  datatype Slot = DictSlot(key: Bytes) | SetSlot(key: Bytes) | ListSlot(key: Bytes) | HashSlot(key: Bytes)

  datatype Entry =
    | Nothing
    | Text(text: Item<Bytes>)
    | Group(members: Item<Members>)
    | Sequence(ring: Deques.Ring<Bytes>)
    | Fields(hash: Hash)

  function EntryAt(db: DB, s: Slot): Entry {
    match s
    case DictSlot(k) => if k in db.dict then Text(db.dict[k]) else Nothing
    case SetSlot(k) => if k in db.sets then Group(db.sets[k]) else Nothing
    case ListSlot(k) => if k in db.lists then Sequence(db.lists[k]) else Nothing
    case HashSlot(k) => if k in db.hashes then Fields(db.hashes[k]) else Nothing
  }

  predicate Touches(c: Command, s: Slot) {
    match c
    case Set(k, _, _) => s == DictSlot(k)
    case PExpireAt(k, _) => s == DictSlot(k)
    case Del(ks) => s.DictSlot? && s.key in ks
    case Lpush(k, _) => s == ListSlot(k)
    case Rpush(k, _) => s == ListSlot(k)
    case Sort(k, _, _, _) => s == ListSlot(k)
    case Hset(k, _) => s == HashSlot(k)
    case Hdel(k, _) => s == HashSlot(k)
    case Sadd(k, _) => s == SetSlot(k)
    case Srem(k, _) => s == SetSlot(k)
    case _ => false
  }

  /** A record leaves alone what it does not touch. */
  lemma Untouched(db: DB, c: Command, s: Slot, now: Time)
    requires Loggable(c) && !Touches(c, s) && Apply(db, c, now).Some?
    ensures EntryAt(Apply(db, c, now).value, s) == EntryAt(db, s)
  {
    hide SortOptions, PushAllFront, PushAllBack, Writes;
  }

  /** What it touches depends on what was there alone, and so does whether it panics. */
  lemma TouchedAlike(a: DB, b: DB, c: Command, s: Slot, now: Time)
    requires Loggable(c) && Touches(c, s) && EntryAt(a, s) == EntryAt(b, s)
    ensures Apply(a, c, now).Some? ==> Apply(b, c, now).Some?
    ensures Apply(a, c, now).Some? ==> EntryAt(Apply(a, c, now).value, s) == EntryAt(Apply(b, c, now).value, s)
  {
    hide AsSet, SortOptions, PushAllFront, PushAllBack, Writes;
  }

  /** The records of a log that touch a slot. */
  function On(log: seq<Command>, s: Slot): seq<Command>
    decreases |log|
  {
    if log == [] then []
    else On(log[..|log| - 1], s) + if Touches(log[|log| - 1], s) then [log[|log| - 1]] else []
  }

  lemma OnOne(log: seq<Command>, c: Command, s: Slot)
    ensures On(log + [c], s) == if Touches(c, s) then On(log, s) + [c] else On(log, s)
    ensures On([], s) == []
  {
    assert (log + [c])[..|log|] == log;
    assert On(log, s) + [] == On(log, s);
  }

  lemma {:induction false} OnConcat(a: seq<Command>, b: seq<Command>, s: Slot)
    ensures On(a + b, s) == On(a, s) + On(b, s)
    decreases |b|
  {
    if b == [] {
      assert a + b == a;
    } else {
      assert (a + b)[..|a + b| - 1] == a + b[..|b| - 1];
      OnConcat(a, b[..|b| - 1], s);
    }
  }

  lemma {:induction false} OnLoggable(log: seq<Command>, s: Slot)
    requires AllLoggable(log)
    ensures AllLoggable(On(log, s))
    decreases |log|
  {
    hide Loggable, Touches;
    if log != [] {
      OnLoggable(log[..|log| - 1], s);
    }
  }

  /** Replaying a log leaves at a slot what replaying only the records that touch it leaves there. */
  lemma {:induction false} ReplayOn(db: DB, log: seq<Command>, s: Slot, now: Time)
    requires AllLoggable(log) && ReplayFrom(db, log, now).Some?
    ensures ReplayFrom(db, On(log, s), now).Some?
    ensures EntryAt(ReplayFrom(db, log, now).value, s) == EntryAt(ReplayFrom(db, On(log, s), now).value, s)
    decreases |log|
  {
    hide Apply, Loggable, Touches, EntryAt;
    if log != [] {
      var front, c := log[..|log| - 1], log[|log| - 1];
      ReplayOn(db, front, s, now);
      assert log == front + [c];
      OnOne(front, c, s);
      if Touches(c, s) {
        ReplayOne(db, On(front, s), c, now);
        TouchedAlike(ReplayFrom(db, front, now).value, ReplayFrom(db, On(front, s), now).value, c, s, now);
      } else {
        Untouched(ReplayFrom(db, front, now).value, c, s, now);
      }
    }
  }

  /** A replay panics only if it does so at some slot. */
  lemma {:induction false} ReplaySome(db: DB, log: seq<Command>, now: Time)
    requires AllLoggable(log) && forall s :: ReplayFrom(db, On(log, s), now).Some?
    ensures ReplayFrom(db, log, now).Some?
    decreases |log|
  {
    hide Apply, Loggable, EntryAt;
    if log != [] {
      var front, c := log[..|log| - 1], log[|log| - 1];
      forall s ensures ReplayFrom(db, On(front, s), now).Some? {
        assert ReplayFrom(db, On(log, s), now).Some?;
        ReplayConcat(db, On(front, s), if Touches(c, s) then [c] else [], now);
      }
      ReplaySome(db, front, now);
      var s := SlotOf(c);
      ReplayOn(db, front, s, now);
      ReplayOne(db, On(front, s), c, now);
      assert ReplayFrom(db, On(log, s), now).Some?;
      TouchedAlike(ReplayFrom(db, On(front, s), now).value, ReplayFrom(db, front, now).value, c, s, now);
    }
  }

  function SlotOf(c: Command): (s: Slot)
    requires Loggable(c)
    ensures Touches(c, s)
  {
    match c
    case Set(k, _, _) => DictSlot(k)
    case PExpireAt(k, _) => DictSlot(k)
    case Del(ks) => DictSlot(ks[0])
    case Lpush(k, _) => ListSlot(k)
    case Rpush(k, _) => ListSlot(k)
    case Sort(k, _, _, _) => ListSlot(k)
    case Hset(k, _) => HashSlot(k)
    case Hdel(k, _) => HashSlot(k)
    case Sadd(k, _) => SetSlot(k)
    case Srem(k, _) => SetSlot(k)
  }

  lemma EntriesDetermine(a: DB, b: DB)
    requires forall s :: EntryAt(a, s) == EntryAt(b, s)
    ensures a == b
  {
    forall k
      ensures (k in a.dict <==> k in b.dict) && (k in a.dict ==> a.dict[k] == b.dict[k])
      ensures (k in a.sets <==> k in b.sets) && (k in a.sets ==> a.sets[k] == b.sets[k])
      ensures (k in a.lists <==> k in b.lists) && (k in a.lists ==> a.lists[k] == b.lists[k])
      ensures (k in a.hashes <==> k in b.hashes) && (k in a.hashes ==> a.hashes[k] == b.hashes[k])
    {
      assert EntryAt(a, DictSlot(k)) == EntryAt(b, DictSlot(k));
      assert EntryAt(a, SetSlot(k)) == EntryAt(b, SetSlot(k));
      assert EntryAt(a, ListSlot(k)) == EntryAt(b, ListSlot(k));
      assert EntryAt(a, HashSlot(k)) == EntryAt(b, HashSlot(k));
    }
    assert a.dict == b.dict && a.sets == b.sets && a.lists == b.lists && a.hashes == b.hashes;
  }

  ghost predicate SameOnSlots(a: seq<Command>, b: seq<Command>) {
    forall s :: On(a, s) == On(b, s)
  }

  /** Two logs with the same records in the same order at every slot, however they are interleaved
      between slots, replay alike on any stores at any time. */
  lemma ReplayAlike(db: DB, a: seq<Command>, b: seq<Command>, now: Time)
    requires AllLoggable(a) && AllLoggable(b) && SameOnSlots(a, b)
    ensures ReplayFrom(db, a, now) == ReplayFrom(db, b, now)
  {
    hide ReplayFrom, Loggable, EntryAt;
    if ReplayFrom(db, a, now).Some? {
      ReplayedOnToo(db, a, b, now);
    } else if ReplayFrom(db, b, now).Some? {
      ReplayedOnToo(db, b, a, now);
    }
  }

  lemma ReplayedOnToo(db: DB, a: seq<Command>, b: seq<Command>, now: Time)
    requires AllLoggable(a) && AllLoggable(b) && SameOnSlots(a, b) && ReplayFrom(db, a, now).Some?
    ensures ReplayFrom(db, b, now) == ReplayFrom(db, a, now)
  {
    hide ReplayFrom, Loggable, EntryAt, On;
    forall s ensures ReplayFrom(db, On(b, s), now).Some? {
      assert On(a, s) == On(b, s);
      ReplayOn(db, a, s, now);
    }
    ReplaySome(db, b, now);
    var after, too := ReplayFrom(db, a, now).value, ReplayFrom(db, b, now).value;
    forall s ensures EntryAt(after, s) == EntryAt(too, s) {
      assert On(a, s) == On(b, s);
      ReplayOn(db, a, s, now);
      ReplayOn(db, b, s, now);
    }
    EntriesDetermine(after, too);
  }

  lemma {:induction false} TrackOn(log: seq<Command>, key: Bytes)
    requires AllLoggable(log)
    ensures TrackOf(log, key) == TrackOf(On(log, DictSlot(key)), key)
    decreases |log|
  {
    if log != [] {
      var front, c := log[..|log| - 1], log[|log| - 1];
      TrackOn(front, key);
      assert log == front + [c];
      OnOne(front, c, DictSlot(key));
      if Touches(c, DictSlot(key)) {
        TrackOne(On(front, DictSlot(key)), c, key);
      }
    }
  }

  // ---------- Clients ----------

  type Thread = nat

  // A record a client has still to append.
  datatype Owed = Owed(t: Thread, record: Command)

  datatype Label =
    | Act(t: Thread, call: Call, now: Time)  // the store change of a command
    | Append(t: Thread)                      // the client's next append
    | Lapse(dictKeys: set<Bytes>, setKeys: set<Bytes>, now: Time)  // eviction

  // The stores, the log, the records still owed in the order of the changes they record, and the
  // changes so far.
  datatype State = State(db: DB, log: seq<Command>, owed: seq<Owed>, events: seq<Event>)

  const START: State := State(EMPTY, [], [], [])

  function First(owed: seq<Owed>, t: Thread): (i: nat)
    ensures i <= |owed|
    ensures i < |owed| ==> owed[i].t == t
    ensures forall j :: 0 <= j < i ==> owed[j].t != t
  {
    if owed == [] || owed[0].t == t then 0 else 1 + First(owed[1..], t)
  }

  function Owes(t: Thread, log: seq<Command>): (owed: seq<Owed>)
    ensures |owed| == |log| && forall i :: 0 <= i < |log| ==> owed[i] == Owed(t, log[i])
  {
    seq(|log|, i requires 0 <= i < |log| => Owed(t, log[i]))
  }

  function Records(owed: seq<Owed>): (log: seq<Command>)
    ensures |log| == |owed| && forall i :: 0 <= i < |owed| ==> log[i] == owed[i].record
  {
    seq(|owed|, i requires 0 <= i < |owed| => owed[i].record)
  }

  /** One step; None if the client may not take it, or if the program panics. */
  function Next(s: State, l: Label): Option<State> {
    match l
    case Act(t, call, now) =>
      if First(s.owed, t) < |s.owed| then None
      else
        (match Apply(s.db, Parse(call), now)
         case None => None
         case Some(db) =>
           Some(State(db, s.log, s.owed + Owes(t, Logged(s.db, Parse(call), now)), s.events + [Do(call, now)])))
    case Append(t) =>
      var i := First(s.owed, t);
      if i == |s.owed| then None
      else Some(s.(log := s.log + [s.owed[i].record], owed := s.owed[..i] + s.owed[i + 1..]))
    case Lapse(dictKeys, setKeys, now) =>
      Some(s.(db := s.db.(dict := EvictKeys(s.db.dict, dictKeys, now), sets := EvictKeys(s.db.sets, setKeys, now)),
              events := s.events + [Evict(dictKeys, setKeys, now)]))
  }

  function RunAll(ls: seq<Label>): Option<State>
    decreases |ls|
  {
    if ls == [] then Some(START)
    else
      match RunAll(ls[..|ls| - 1])
      case None => None
      case Some(s) => Next(s, ls[|ls| - 1])
  }

  /** No record of an earlier change at the same slot is still owed when the client appends. */
  ghost predicate InTurn(s: State, t: Thread) {
    var i := First(s.owed, t);
    i < |s.owed| ==>
      forall j, slot {:trigger s.owed[j], Touches(s.owed[i].record, slot)} ::
        0 <= j < i && Touches(s.owed[i].record, slot) ==> !Touches(s.owed[j].record, slot)
  }

  /** Records that share a slot are appended in the order of the changes they record. */
  ghost predicate InUpdateOrder(ls: seq<Label>) {
    forall i {:trigger ls[i]} :: 0 <= i < |ls| && ls[i].Append? && RunAll(ls[..i]).Some?
      ==> InTurn(RunAll(ls[..i]).value, ls[i].t)
  }

  /** The log and what is owed make up, at every slot, the log of the same changes made one command
      at a time. */
  ghost predicate Accounted(s: State) {
    && Run(s.events).Some? && Run(s.events).value.db == s.db
    && AllLoggable(Run(s.events).value.log) && AllLoggable(s.log) && AllLoggable(Records(s.owed))
    && forall slot :: On(s.log, slot) + On(Records(s.owed), slot) == On(Run(s.events).value.log, slot)
  }

  lemma RunOne(es: seq<Event>, e: Event)
    ensures Run(es + [e]) == match Run(es) case None => None case Some(s) => Step(s, e)
  {
    assert (es + [e])[..|es|] == es;
  }

  lemma ActAccounted(s: State, t: Thread, call: Call, now: Time)
    requires Accounted(s) && Next(s, Act(t, call, now)).Some?
    ensures Accounted(Next(s, Act(t, call, now)).value)
  {
    hide Run, Apply, Logged, Parse, Loggable, On;
    RunOne(s.events, Do(call, now));
    LoggedIsLoggable(s.db, call, now);
    var after, more := Next(s, Act(t, call, now)).value, Logged(s.db, Parse(call), now);
    assert Records(after.owed) == Records(s.owed) + more;
    forall slot
      ensures On(after.log, slot) + On(Records(after.owed), slot) == On(Run(after.events).value.log, slot)
    {
      OnConcat(Records(s.owed), more, slot);
      OnConcat(Run(s.events).value.log, more, slot);
      assert On(s.log, slot) + (On(Records(s.owed), slot) + On(more, slot)) ==
             On(s.log, slot) + On(Records(s.owed), slot) + On(more, slot);
    }
  }

  lemma AppendAccounted(s: State, t: Thread)
    requires Accounted(s) && InTurn(s, t) && Next(s, Append(t)).Some?
    ensures Accounted(Next(s, Append(t)).value)
  {
    hide Run, Loggable, On, Touches, Next, InTurn, First;
    var after, i := Next(s, Append(t)).value, First(s.owed, t);
    AppendIs(s, t);
    RecordsApart(s.owed, i);
    var r, before, behind := s.owed[i].record, Records(s.owed[..i]), Records(s.owed[i + 1..]);
    forall slot
      ensures On(after.log, slot) + On(Records(after.owed), slot) == On(Run(after.events).value.log, slot)
    {
      OwnTurn(s, t, slot);
      TakenOut(s.log, before, r, behind, slot);
    }
  }

  lemma RecordsApart(owed: seq<Owed>, i: nat)
    requires i < |owed|
    ensures var before, behind := Records(owed[..i]), Records(owed[i + 1..]);
            && Records(owed) == before + [owed[i].record] + behind
            && Records(owed[..i] + owed[i + 1..]) == before + behind
  {
  }

  lemma OwnTurn(s: State, t: Thread, slot: Slot)
    requires InTurn(s, t) && First(s.owed, t) < |s.owed|
    ensures var i := First(s.owed, t); var before := Records(s.owed[..i]);
            Touches(s.owed[i].record, slot) ==> forall j :: 0 <= j < |before| ==> !Touches(before[j], slot)
  {
    hide Touches;
    var i := First(s.owed, t);
    var before := Records(s.owed[..i]);
    if Touches(s.owed[i].record, slot) {
      forall j | 0 <= j < |before| ensures !Touches(before[j], slot) {
        assert before[j] == s.owed[j].record;
      }
    }
  }

  lemma AppendIs(s: State, t: Thread)
    requires Next(s, Append(t)).Some?
    ensures var i := First(s.owed, t);
            && i < |s.owed|
            && Next(s, Append(t)).value == s.(log := s.log + [s.owed[i].record], owed := s.owed[..i] + s.owed[i + 1..])
  {
  }

  /** A record overtakes others at no slot they touch too. */
  lemma TakenOut(log: seq<Command>, before: seq<Command>, r: Command, behind: seq<Command>, s: Slot)
    requires Touches(r, s) ==> forall j :: 0 <= j < |before| ==> !Touches(before[j], s)
    ensures On(log + [r], s) + On(before + behind, s) == On(log, s) + On(before + [r] + behind, s)
  {
    hide Touches, On;
    OnOne(log, r, s);
    OnConcat(before, behind, s);
    OnConcat(before + [r], behind, s);
    OnOne(before, r, s);
    if Touches(r, s) {
      OnNone(before, s);
      Regroup(On(log, s), r, On(behind, s));
    }
  }

  lemma Regroup(a: seq<Command>, r: Command, b: seq<Command>)
    ensures a + [r] + ([] + b) == a + ([] + [r] + b)
  {
  }

  lemma {:induction false} OnNone(log: seq<Command>, s: Slot)
    requires forall j :: 0 <= j < |log| ==> !Touches(log[j], s)
    ensures On(log, s) == []
    decreases |log|
  {
    hide Touches;
    if log != [] {
      OnNone(log[..|log| - 1], s);
    }
  }

  lemma LapseAccounted(s: State, l: Label)
    requires l.Lapse? && Accounted(s)
    ensures Next(s, l).Some? && Accounted(Next(s, l).value)
  {
    hide Run, On, Loggable;
    RunOne(s.events, Evict(l.dictKeys, l.setKeys, l.now));
  }

  /** In every interleaving in which records that share a slot are appended in update order. */
  lemma {:induction false} AlwaysAccounted(ls: seq<Label>)
    requires InUpdateOrder(ls) && RunAll(ls).Some?
    ensures Accounted(RunAll(ls).value)
    decreases |ls|
  {
    hide Next, Accounted, InTurn, Run;
    if ls == [] {
      StartAccounted();
    } else {
      var front, l := ls[..|ls| - 1], ls[|ls| - 1];
      forall i | 0 <= i < |front| ensures front[..i] == ls[..i] && front[i] == ls[i] {
      }
      AlwaysAccounted(front);
      var s := RunAll(front).value;
      match l
      case Act(t, call, now) => ActAccounted(s, t, call, now);
      case Append(t) => AppendAccounted(s, t);
      case Lapse(_, _, _) => LapseAccounted(s, l);
    }
  }

  lemma StartAccounted()
    ensures Accounted(START)
  {
    forall slot: Slot ensures On([], slot) == [] {
    }
    assert Records([]) == [];
  }

  /** Once every record has been appended, the log of such an interleaving is as good as that of the
      same changes made one command at a time: it replays alike on any stores at any time, and
      says the same of every dict key. */
  lemma ConcurrentIsSerial(ls: seq<Label>, base: DB, now: Time)
    requires InUpdateOrder(ls) && RunAll(ls).Some? && RunAll(ls).value.owed == []
    ensures var s := RunAll(ls).value;
            && Run(s.events).Some? && Run(s.events).value.db == s.db
            && AllLoggable(s.log) && ReplayFrom(base, s.log, now) == ReplayFrom(base, Run(s.events).value.log, now)
            && forall key :: TrackOf(s.log, key) == TrackOf(Run(s.events).value.log, key)
  {
    hide RunAll, Run, ReplayFrom, TrackOf, On, Loggable;
    AlwaysAccounted(ls);
    var s := RunAll(ls).value;
    var serial := Run(s.events).value.log;
    assert Records(s.owed) == [];
    forall slot ensures On(s.log, slot) == On(serial, slot) {
      OnNone([], slot);
      assert On(s.log, slot) + On(Records(s.owed), slot) == On(serial, slot);
    }
    ReplayAlike(base, s.log, serial, now);
    forall key ensures TrackOf(s.log, key) == TrackOf(serial, key) {
      TrackOn(s.log, key);
      TrackOn(serial, key);
      assert On(s.log, DictSlot(key)) == On(serial, DictSlot(key));
    }
  }

  /** A restart, end to end, after many clients whose records were appended in update order: every
      store is as a client would see it if and only if no key is lost. */
  lemma ConcurrentRestart(ls: seq<Label>, now: Time)
    requires InUpdateOrder(ls) && RunAll(ls).Some? && RunAll(ls).value.owed == []
    requires var es := RunAll(ls).value.events; RestRun(es) && DictRun(es) && Ordered(es) && EndOf(es) < now
    requires Fits(RunAll(ls).value.log)
    ensures var s := RunAll(ls).value; var back := Recover(Image(s.log), now);
            && back.Some?
            && (SameRest(s.db, back.value) && Visible(back.value.dict, now) == Visible(s.db.dict, now)
                <==> forall k :: !Lost(Live(s.db, s.log), k, now))
  {
    hide RunAll, Run, ReplayFrom, TrackOf, On, Loggable, RestRun, DictRun, Recover, EncodeAll, SameRest, Visible;
    ConcurrentIsSerial(ls, EMPTY, now);
    var s := RunAll(ls).value;
    RunRebuiltExactly(s.events, now);
    WholeFile(s.log, now);
    forall k ensures Lost(Live(s.db, s.log), k, now) == Lost(Run(s.events).value, k, now) {
      assert TrackOf(s.log, k) == TrackOf(Run(s.events).value.log, k);
    }
  }

  lemma WholeFile(log: seq<Command>, now: Time)
    requires Fits(log)
    ensures Recover(Image(log), now) == ReplayFrom(EMPTY, log, now)
  {
    hide Recover, ReplayFrom, EncodeAll, Emit, Loggable;
    RecoverTruncated(log, |Image(log)|, now);
    AllWhole(EmitAll(log));
    assert Image(log)[..|Image(log)|] == Image(log) && log[..|log|] == log;
  }

  // ---------- A crash with records still owed ----------

  /** Some prefix of the log has just these records at the slot. */
  lemma {:induction false} CutFor(log: seq<Command>, s: Slot, kept: seq<Command>) returns (cut: nat)
    requires kept <= On(log, s)
    ensures cut <= |log| && On(log[..cut], s) == kept
    decreases |log|
  {
    hide Touches;
    if kept == On(log, s) {
      cut := |log|;
      assert log[..cut] == log;
    } else {
      var front := log[..|log| - 1];
      cut := CutFor(front, s, kept);
      assert front[..cut] == log[..cut];
    }
  }

  lemma OnPrefix(log: seq<Command>, n: nat, s: Slot)
    requires n <= |log|
    ensures On(log[..n], s) <= On(log, s)
  {
    hide On;
    assert log == log[..n] + log[n..];
    OnConcat(log[..n], log[n..], s);
  }

  /** Crash recovery, end to end, with many clients: cut the file anywhere, with any records still
      owed, and start a server on it. Every set, list and hash is as it was at some moment of the
      run, though not all at the same one. So is every dict key, as `DictOfMoment` says of a log
      that replays as the moment's does or has one SET more, its deadline missing. */
  lemma ConcurrentCrash(ls: seq<Label>, cut: nat, slot: Slot, now: Time) returns (j: nat, prefix: seq<Command>)
    requires InUpdateOrder(ls) && RunAll(ls).Some? && RestRun(RunAll(ls).value.events)
    requires Fits(RunAll(ls).value.log) && cut <= |Image(RunAll(ls).value.log)|
    ensures Recover(Image(RunAll(ls).value.log)[..cut], now).Some?
    ensures j <= |RunAll(ls).value.events| && Run(RunAll(ls).value.events[..j]).Some?
    ensures var moment := Run(RunAll(ls).value.events[..j]).value;
            var back := Recover(Image(RunAll(ls).value.log)[..cut], now).value;
            && (prefix == moment.log || Dangling(moment.log, prefix)) && ReplayFrom(EMPTY, prefix, now).Some?
            && EntryAt(back, slot) == EntryAt(ReplayFrom(EMPTY, prefix, now).value, slot)
            && (!slot.DictSlot? ==> EntryAt(back, slot) == EntryAt(moment.db, slot))
    ensures var es := RunAll(ls).value.events;
            DictRun(es) && Ordered(es) && EndOf(es) < now ==>
              DictOfMoment(Run(es[..j]).value, prefix, ReplayFrom(EMPTY, prefix, now).value.dict, now)
  {
    hide RunAll, Run, ReplayFrom, On, Loggable, RestRun, DictRun, Recover, EncodeAll, SameRest, DictOfMoment, EntryAt,
         Whole, Dangling, InUpdateOrder;
    AlwaysAccounted(ls);
    var s := RunAll(ls).value;
    var serial, kept := Run(s.events).value.log, s.log[..Whole(EmitAll(s.log), cut)];
    RecoverTruncated(s.log, cut, now);
    RunRest(s.events, now);
    KeptReplays(s, kept, now);
    KeptOnSlot(s, kept, slot);
    var upto := CutFor(serial, slot, On(kept, slot));
    j := CutLogIsAMoment(s.events, upto, now);
    prefix := serial[..upto];
    ReplayOn(EMPTY, kept, slot, now);
    ReplayOn(EMPTY, prefix, slot, now);
    RestEntry(Run(s.events[..j]).value.db, ReplayFrom(EMPTY, prefix, now).value, slot);
    if DictRun(s.events) && Ordered(s.events) && EndOf(s.events) < now {
      CutDict(s.events, j, prefix, now);
    }
  }

  lemma RestEntry(a: DB, b: DB, slot: Slot)
    requires SameRest(a, b)
    ensures !slot.DictSlot? ==> EntryAt(a, slot) == EntryAt(b, slot)
  {
  }

  lemma KeptOnSlot(s: State, kept: seq<Command>, slot: Slot)
    requires Accounted(s) && kept <= s.log
    ensures On(kept, slot) <= On(Run(s.events).value.log, slot)
  {
    hide Run, On, Loggable;
    assert kept == s.log[..|kept|];
    OnPrefix(s.log, |kept|, slot);
    assert On(s.log, slot) + On(Records(s.owed), slot) == On(Run(s.events).value.log, slot);
  }

  lemma KeptReplays(s: State, kept: seq<Command>, now: Time)
    requires Accounted(s) && kept <= s.log && ReplayFrom(EMPTY, Run(s.events).value.log, now).Some?
    ensures AllLoggable(kept) && ReplayFrom(EMPTY, kept, now).Some?
  {
    hide Run, ReplayFrom, On, Loggable, Accounted;
    AccountedLoggable(s);
    var serial := Run(s.events).value.log;
    forall slot ensures ReplayFrom(EMPTY, On(kept, slot), now).Some? {
      KeptOnSlot(s, kept, slot);
      ReplayOn(EMPTY, serial, slot, now);
      var rest := On(serial, slot)[|On(kept, slot)|..];
      assert On(serial, slot) == On(kept, slot) + rest;
      ReplayConcat(EMPTY, On(kept, slot), rest, now);
    }
    ReplaySome(EMPTY, kept, now);
  }

  lemma AccountedLoggable(s: State)
    requires Accounted(s)
    ensures AllLoggable(s.log) && Run(s.events).Some? && AllLoggable(Run(s.events).value.log)
  {
  }

  // ---------- Records out of order ----------

  function CallFor(c: Command): (call: Call)
    requires Loggable(c)
    ensures Parse(call) == c
  {
    ParseEmit(c);
    CallOf(Emit(c)).value
  }

  /** Two clients set one key; the second change is appended first. Both commands are ones the log
      does justice to, nothing is owed any more and no key is lost, yet the replay has the value
      that was overwritten. */
  lemma SwappedSets(key: Bytes, first: Bytes, second: Bytes, now: Time)
    ensures var c1, c2 := Set(key, first, 0), Set(key, second, 0);
            var es := [Do(CallFor(c1), 0), Do(CallFor(c2), 0)];
            var ls := [Act(1, CallFor(c1), 0), Act(2, CallFor(c2), 0), Append(2), Append(1)];
            && RunAll(ls) == Some(State(EMPTY.(dict := map[key := Item(second, None)]), [c2, c1], [], es))
            && RestRun(es) && DictRun(es) && (forall k :: !Lost(Live(RunAll(ls).value.db, [c2, c1]), k, now))
            && ReplayFrom(EMPTY, [c2, c1], now) == Some(EMPTY.(dict := map[key := Item(first, None)]))
  {
    hide Lost, Parse, CallFor, Next, Apply, Run;
    var c1, c2 := Set(key, first, 0), Set(key, second, 0);
    var e1, e2 := Do(CallFor(c1), 0), Do(CallFor(c2), 0);
    var ls := [Act(1, e1.call, 0), Act(2, e2.call, 0), Append(2), Append(1)];
    var d1, d2 := EMPTY.(dict := map[key := Item(first, None)]), EMPTY.(dict := map[key := Item(second, None)]);
    var o1, o2 := Owed(1, c1), Owed(2, c2);
    assert [] + [o1] == [o1] && [o1] + [o2] == [o1, o2] && [o1, o2][..1] + [o1, o2][2..] == [o1];
    assert [] + [e1] == [e1] && [e1] + [e2] == [e1, e2] && [o1][..0] + [o1][1..] == [];
    assert [] + [c2] == [c2] && [c2] + [c1] == [c2, c1];
    assert d1.dict[key := Item(second, None)] == d2.dict && d2.dict[key := Item(first, None)] == d1.dict;
    ActSet(START, 1, key, first, 0);
    StepAll(ls, 0, START, State(d1, [], [o1], [e1]));
    ActSet(State(d1, [], [o1], [e1]), 2, key, second, 0);
    StepAll(ls, 1, State(d1, [], [o1], [e1]), State(d2, [], [o1, o2], [e1, e2]));
    AppendNth(State(d2, [], [o1, o2], [e1, e2]), 2, 1);
    StepAll(ls, 2, State(d2, [], [o1, o2], [e1, e2]), State(d2, [c2], [o1], [e1, e2]));
    AppendNth(State(d2, [c2], [o1], [e1, e2]), 1, 0);
    StepAll(ls, 3, State(d2, [c2], [o1], [e1, e2]), State(d2, [c2, c1], [], [e1, e2]));
    assert ls[..4] == ls;
    ReplayNone(EMPTY, now);
    ReplayOne(EMPTY, [], c2, now);
    ReplayOne(EMPTY, [c2], c1, now);
    ApplySet(EMPTY, key, second, now);
    ApplySet(d2, key, first, now);
    forall k ensures !Lost(Live(d2, [c2, c1]), k, now) {
      NoDeadlines(d2, c2, c1, k, now);
    }
  }

  lemma ApplySet(db: DB, key: Bytes, value: Bytes, now: Time)
    ensures Apply(db, Set(key, value, 0), now) == Some(db.(dict := db.dict[key := Item(value, None)]))
  {
  }

  lemma ActSet(s: State, t: Thread, key: Bytes, value: Bytes, now: Time)
    requires forall j :: 0 <= j < |s.owed| ==> s.owed[j].t != t
    ensures var c := Set(key, value, 0);
            Next(s, Act(t, CallFor(c), now)) ==
              Some(State(s.db.(dict := s.db.dict[key := Item(value, None)]), s.log, s.owed + [Owed(t, c)],
                         s.events + [Do(CallFor(c), now)]))
  {
    hide Parse, CallFor;
    var c := Set(key, value, 0);
    assert Logged(s.db, c, now) == [c];
    assert Owes(t, [c]) == [Owed(t, c)];
  }

  lemma AppendNth(s: State, t: Thread, i: nat)
    requires i < |s.owed| && s.owed[i].t == t && forall j :: 0 <= j < i ==> s.owed[j].t != t
    ensures Next(s, Append(t)) == Some(s.(log := s.log + [s.owed[i].record], owed := s.owed[..i] + s.owed[i + 1..]))
  {
    assert First(s.owed, t) == i;
  }

  lemma StepAll(ls: seq<Label>, n: nat, s: State, t: State)
    requires n < |ls| && RunAll(ls[..n]) == Some(s) && Next(s, ls[n]) == Some(t)
    ensures RunAll(ls[..n + 1]) == Some(t)
  {
    hide Next;
    assert ls[..n + 1][..n] == ls[..n];
  }

  lemma NoDeadlines(db: DB, c: Command, d: Command, key: Bytes, now: Time)
    requires c.Set? && d.Set?
    ensures !Lost(Live(db, [c, d]), key, now)
  {
    hide TrackOf;
    TrackNone(key);
    TrackOne([], c, key);
    TrackOne([c], d, key);
    assert [] + [c] == [c] && [c] + [d] == [c, d];
  }

  /** Another client's SET comes between a SET and its deadline: the text set last has no deadline,
      but a replay at 20 s has given it the other's and deleted it. */
  lemma DeadlineStrays(key: Bytes, first: Bytes, second: Bytes)
    ensures var put := Call("SET", Bulks([key, first, FormatInt(10)])); var c2 := Set(key, second, 0);
            var log := [Set(key, first, 0), c2, PExpireAt(key, 10_000)];
            var ls := [Act(1, put, 0), Append(1), Act(2, CallFor(c2), 0), Append(2), Append(1)];
            && Parse(put) == Set(key, first, Seconds(10))
            && RunAll(ls) == Some(State(EMPTY.(dict := map[key := Item(second, None)]), log, [],
                                        [Do(put, 0), Do(CallFor(c2), 0)]))
            && ReplayFrom(EMPTY, log, 20_000) == Some(EMPTY)
  {
    hide Parse, CallFor, Next, Apply;
    var put := Call("SET", Bulks([key, first, FormatInt(10)]));
    var c1, c2, c3 := Set(key, first, 0), Set(key, second, 0), PExpireAt(key, 10_000);
    var ls := [Act(1, put, 0), Append(1), Act(2, CallFor(c2), 0), Append(2), Append(1)];
    var d1, d2 := EMPTY.(dict := map[key := Item(first, Some(10_000))]), EMPTY.(dict := map[key := Item(second, None)]);
    var o1, o2, o3 := Owed(1, c1), Owed(2, c2), Owed(1, c3);
    var e1, e2 := Do(put, 0), Do(CallFor(c2), 0);
    assert d1.dict[key := Item(second, None)] == d2.dict && [e1] + [e2] == [e1, e2];
    Pairs(o1, o2, o3);
    Pairs(c1, c2, c3);
    ActSetFor10(key, first);
    StepAll(ls, 0, START, State(d1, [], [o1, o3], [e1]));
    AppendNth(State(d1, [], [o1, o3], [e1]), 1, 0);
    StepAll(ls, 1, State(d1, [], [o1, o3], [e1]), State(d1, [c1], [o3], [e1]));
    ActSet(State(d1, [c1], [o3], [e1]), 2, key, second, 0);
    StepAll(ls, 2, State(d1, [c1], [o3], [e1]), State(d2, [c1], [o3, o2], [e1, e2]));
    AppendNth(State(d2, [c1], [o3, o2], [e1, e2]), 2, 1);
    StepAll(ls, 3, State(d2, [c1], [o3, o2], [e1, e2]), State(d2, [c1, c2], [o3], [e1, e2]));
    AppendNth(State(d2, [c1, c2], [o3], [e1, e2]), 1, 0);
    StepAll(ls, 4, State(d2, [c1, c2], [o3], [e1, e2]), State(d2, [c1, c2, c3], [], [e1, e2]));
    assert ls[..5] == ls;
    StrayReplay(key, first, second);
  }

  lemma Pairs<T>(a: T, b: T, c: T)
    ensures [] + [a] == [a] && [a] + [b] == [a, b] && [a, b] + [c] == [a, b, c] && [c] + [b] == [c, b]
    ensures [a, c][..0] + [a, c][1..] == [c] && [c, b][..1] + [c, b][2..] == [c] && [c][..0] + [c][1..] == []
  {
  }

  lemma StrayReplay(key: Bytes, first: Bytes, second: Bytes)
    ensures ReplayFrom(EMPTY, [Set(key, first, 0), Set(key, second, 0), PExpireAt(key, 10_000)], 20_000) == Some(EMPTY)
  {
    hide ReplayFrom;
    var c1, c2, c3 := Set(key, first, 0), Set(key, second, 0), PExpireAt(key, 10_000);
    assert [] + [c1] == [c1] && [c1] + [c2] == [c1, c2] && [c1, c2] + [c3] == [c1, c2, c3];
    ReplayNone(EMPTY, 20_000);
    ReplayOne(EMPTY, [], c1, 20_000);
    ReplayOne(EMPTY, [c1], c2, 20_000);
    ReplayOne(EMPTY, [c1, c2], c3, 20_000);
    var none: Store<Bytes> := map[];
    assert none[key := Item(first, None)][key := Item(second, None)] - {key} == none;
  }

  lemma ActSetFor10(key: Bytes, value: Bytes)
    ensures var put := Call("SET", Bulks([key, value, FormatInt(10)]));
            && Parse(put) == Set(key, value, Seconds(10))
            && Next(START, Act(1, put, 0)) ==
                 Some(State(EMPTY.(dict := map[key := Item(value, Some(10_000))]), [],
                            [Owed(1, Set(key, value, 0)), Owed(1, PExpireAt(key, 10_000))], [Do(put, 0)]))
  {
    hide FormatInt, ParseInt, Parse, Apply;
    RecordArgs(CmdSet, [key, value, FormatInt(10)]);
    ParseFormat(10);
    var put, c := Call("SET", Bulks([key, value, FormatInt(10)])), Set(key, value, Seconds(10));
    var log := [Set(key, value, 0), PExpireAt(key, 10_000)];
    assert Logged(EMPTY, c, 0) == log;
    TenSeconds(key, value);
    assert Owes(1, log) == [Owed(1, log[0]), Owed(1, log[1])];
    assert Parse(put) == c && First(START.owed, 1) == |START.owed|;
    assert START.owed + Owes(1, log) == Owes(1, log) && START.events + [Do(put, 0)] == [Do(put, 0)];
  }

  lemma TenSeconds(key: Bytes, value: Bytes)
    ensures Apply(EMPTY, Set(key, value, Seconds(10)), 0) == Some(EMPTY.(dict := map[key := Item(value, Some(10_000))]))
  {
  }

  // ---------- Two records swapped ----------

  /** What two neighbouring records, replayed in this order, leave to be seen. */
  function BothOn(db: DB, c: Command, d: Command, now: Time): Option<DB> {
    match Apply(db, c, now)
    case None => None
    case Some(e) => Apply(e, d, now)
  }

  predicate ShowSame(a: DB, b: DB) {
    a.dict == b.dict && a.sets == b.sets && a.hashes == b.hashes && Contents(a.lists) == Contents(b.lists)
  }

  lemma ShowsItself(a: DB)
    ensures ShowSame(a, a)
  {
  }

  predicate Agree(a: Hash, b: Hash) {
    forall f :: f in a && f in b ==> a[f] == b[f]
  }

  /** Two records commute unless they share a key of one store and ask it for different things. */
  predicate Commute(db: DB, c: Command, d: Command, now: Time) {
    match (c, d)
    case (Set(k, v, _), Set(l, w, _)) => k == l ==> v == w
    case (Set(k, _, _), PExpireAt(l, _)) => k != l
    case (PExpireAt(k, _), Set(l, _, _)) => k != l
    case (Set(k, _, _), Del(ls)) => k !in ls
    case (Del(ks), Set(l, _, _)) => l !in ks
    case (PExpireAt(k, a), PExpireAt(l, b)) => k == l && k in db.dict ==> a == b || a < now || b < now
    case (Lpush(k, vs), Lpush(l, ws)) => k == l ==> vs + ws == ws + vs
    case (Rpush(k, vs), Rpush(l, ws)) => k == l ==> vs + ws == ws + vs
    case (Hset(k, w), Hset(l, x)) => k == l ==> Agree(Writes(w), Writes(x))
    case (Hset(k, w), Hdel(l, fs)) => k == l ==> Writes(w).Keys !! AsSet(fs)
    case (Hdel(k, fs), Hset(l, w)) => k == l ==> Writes(w).Keys !! AsSet(fs)
    case (Sadd(k, ms), Srem(l, ns)) => k == l ==> AsSet(ms) !! AsSet(ns)
    case (Srem(k, ns), Sadd(l, ms)) => k == l ==> AsSet(ms) !! AsSet(ns)
    case _ => true
  }

  // SORT against another record of its list is left out.
  predicate SortsShared(c: Command, d: Command) {
    (c.Sort? && Touches(d, ListSlot(c.key))) || (d.Sort? && Touches(c, ListSlot(d.key)))
  }

  predicate OnDict(c: Command) { c.Set? || c.PExpireAt? || c.Del? }
  predicate OnSets(c: Command) { c.Sadd? || c.Srem? }
  predicate OnLists(c: Command) { c.Lpush? || c.Rpush? || c.Sort? }
  predicate OnHashes(c: Command) { c.Hset? || c.Hdel? }

  /** Exactly: on sound stores, two neighbouring records may be swapped without a trace if and only
      if they commute. */
  lemma SwapExactly(db: DB, c: Command, d: Command, now: Time)
    requires Sound(db) && Loggable(c) && Loggable(d) && !SortsShared(c, d)
    ensures BothOn(db, c, d, now).Some? && BothOn(db, d, c, now).Some?
    ensures ShowSame(BothOn(db, c, d, now).value, BothOn(db, d, c, now).value) <==> Commute(db, c, d, now)
  {
    hide Sound, Loggable, BothOn, ShowSame, Commute;
    BothRun(db, c, d, now);
    BothRun(db, d, c, now);
    if OnDict(c) && OnDict(d) {
      DictSwap(db, c, d, now);
    } else if !Together(c, d) || c.key != d.key {
      ApartCommutes(db, c, d, now);
      ApartSwap(db, c, d, now);
      assert ShowSame(BothOn(db, c, d, now).value, BothOn(db, c, d, now).value) by { ShowsItself(BothOn(db, c, d, now).value); }
    } else if OnSets(c) {
      SetSwap(db, c, d, now);
    } else if OnLists(c) {
      ListSwap(db, c, d, now);
    } else {
      HashSwap(db, c, d, now);
    }
  }

  lemma BothRun(db: DB, c: Command, d: Command, now: Time)
    requires Sound(db) && Loggable(c) && Loggable(d)
    ensures BothOn(db, c, d, now).Some?
  {
    hide Sound, Apply;
    SoundStep(db, c, now);
    SoundStep(Apply(db, c, now).value, d, now);
  }

  predicate Together(c: Command, d: Command) {
    (OnDict(c) && OnDict(d)) || (OnSets(c) && OnSets(d)) || (OnLists(c) && OnLists(d)) || (OnHashes(c) && OnHashes(d))
  }

  /** Records that share no slot commute on any stores. */
  lemma ApartSwap(db: DB, c: Command, d: Command, now: Time)
    requires Loggable(c) && Loggable(d) && forall s :: !(Touches(c, s) && Touches(d, s))
    ensures BothOn(db, c, d, now) == BothOn(db, d, c, now)
  {
    hide Loggable, Touches, On, Apply;
    forall s ensures On([c, d], s) == On([d, c], s) {
      OnTwo(c, d, s);
      OnTwo(d, c, s);
    }
    ReplayAlike(db, [c, d], [d, c], now);
    ReplayTwo(db, c, d, now);
    ReplayTwo(db, d, c, now);
  }

  lemma OnTwo(c: Command, d: Command, s: Slot)
    ensures On([c, d], s) == (if Touches(c, s) then [c] else []) + (if Touches(d, s) then [d] else [])
  {
    hide Touches, On;
    OnOne([], c, s);
    OnOne([c], d, s);
    assert [] + [c] == [c] && [c] + [d] == [c, d];
  }

  lemma ReplayTwo(db: DB, c: Command, d: Command, now: Time)
    ensures ReplayFrom(db, [c, d], now) == BothOn(db, c, d, now)
  {
    hide ReplayFrom, Apply;
    ReplayNone(db, now);
    ReplayOne(db, [], c, now);
    ReplayOne(db, [c], d, now);
    assert [] + [c] == [c] && [c] + [d] == [c, d];
  }

  lemma ApartCommutes(db: DB, c: Command, d: Command, now: Time)
    requires Loggable(c) && Loggable(d) && (!Together(c, d) || (!OnDict(c) && c.key != d.key))
    ensures Commute(db, c, d, now) && forall s :: !(Touches(c, s) && Touches(d, s))
  {
    hide AsSet, Writes, SortOptions;
  }

  lemma DictSwap(db: DB, c: Command, d: Command, now: Time)
    requires OnDict(c) && OnDict(d) && Loggable(c) && Loggable(d)
    requires BothOn(db, c, d, now).Some? && BothOn(db, d, c, now).Some?
    ensures ShowSame(BothOn(db, c, d, now).value, BothOn(db, d, c, now).value) <==> Commute(db, c, d, now)
  {
    hide AsSet;
    AsSetIn(c);
    AsSetIn(d);
    if c.Del? {
      DelSwap(db, c, d, now);
    } else if d.Del? {
      DelSwap(db, d, c, now);
    } else {
      ItemSwap(db, c, d, now);
    }
  }

  lemma DelSwap(db: DB, c: Command, d: Command, now: Time)
    requires c.Del? && OnDict(d)
    ensures BothOn(db, c, d, now).Some? && BothOn(db, d, c, now).Some?
    ensures BothOn(db, c, d, now).value.(dict := map[]) == BothOn(db, d, c, now).value.(dict := map[])
    ensures BothOn(db, c, d, now).value.dict == BothOn(db, d, c, now).value.dict <==> (d.Set? ==> d.key !in c.keys)
  {
    hide AsSet;
    AsSetIn(c);
    AsSetIn(d);
    var x, y := BothOn(db, c, d, now).value.dict, BothOn(db, d, c, now).value.dict;
    if d.Set? && d.key in c.keys {
      assert d.key in x && d.key !in y;
    } else {
      assert x == y;
    }
  }

  function ItemOn(m: Store<Bytes>, c: Command, now: Time): Store<Bytes>
    requires c.Set? || c.PExpireAt?
  {
    if c.Set? then Put(m, c.key, c.value, 0, now) else ExpireAt(m, c.key, c.at, now)
  }

  lemma AppliedItem(db: DB, c: Command, now: Time)
    requires (c.Set? || c.PExpireAt?) && Loggable(c)
    ensures Apply(db, c, now) == Some(db.(dict := ItemOn(db.dict, c, now)))
  {
  }

  lemma ItemSwap(db: DB, c: Command, d: Command, now: Time)
    requires OnDict(c) && OnDict(d) && !c.Del? && !d.Del? && Loggable(c) && Loggable(d)
    ensures BothOn(db, c, d, now).Some? && BothOn(db, d, c, now).Some?
    ensures ShowSame(BothOn(db, c, d, now).value, BothOn(db, d, c, now).value) <==> Commute(db, c, d, now)
  {
    hide Apply, ItemOn, Commute, Loggable;
    AppliedItem(db, c, now);
    AppliedItem(db, d, now);
    AppliedItem(db.(dict := ItemOn(db.dict, c, now)), d, now);
    AppliedItem(db.(dict := ItemOn(db.dict, d, now)), c, now);
    ItemsSwap(db, c, d, now);
  }

  lemma ItemsSwap(db: DB, c: Command, d: Command, now: Time)
    requires (c.Set? || c.PExpireAt?) && (d.Set? || d.PExpireAt?)
    ensures ItemOn(ItemOn(db.dict, c, now), d, now) == ItemOn(ItemOn(db.dict, d, now), c, now) <==> Commute(db, c, d, now)
  {
    var x, y := ItemOn(ItemOn(db.dict, c, now), d, now), ItemOn(ItemOn(db.dict, d, now), c, now);
    if Commute(db, c, d, now) {
      assert x == y;
    } else {
      assert !(c.key in x && c.key in y && x[c.key] == y[c.key]) && (c.key in x || c.key in y);
    }
  }

  lemma AsSetIn(c: Command)
    ensures c.Del? ==> forall k :: k in AsSet(c.keys) <==> k in c.keys
  {
  }

  lemma SetSwap(db: DB, c: Command, d: Command, now: Time)
    requires OnSets(c) && OnSets(d) && c.key == d.key && Sound(db) && Loggable(c) && Loggable(d)
    requires BothOn(db, c, d, now).Some? && BothOn(db, d, c, now).Some?
    ensures ShowSame(BothOn(db, c, d, now).value, BothOn(db, d, c, now).value) <==> Commute(db, c, d, now)
  {
    hide MembersAt, Added, Removed, AsSet, Sound;
    var e, f := Apply(db, c, now).value, Apply(db, d, now).value;
    SoundStep(db, c, now);
    SoundStep(db, d, now);
    SoundStep(e, d, now);
    SoundStep(f, c, now);
    MembersAfter(db.sets, c.key, c.members);
    MembersAfter(db.sets, c.key, d.members);
    MembersAfter(e.sets, c.key, d.members);
    MembersAfter(f.sets, c.key, c.members);
    MembersDetermine(BothOn(db, c, d, now).value, BothOn(db, d, c, now).value);
    MixedMembers(MembersAt(db.sets, c.key), AsSet(c.members), AsSet(d.members));
    MixedMembers(MembersAt(db.sets, c.key), AsSet(d.members), AsSet(c.members));
  }

  lemma MixedMembers(s: set<Bytes>, a: set<Bytes>, b: set<Bytes>)
    ensures (s + a) - b == (s - b) + a <==> a !! b
    ensures s + a + b == s + b + a && s - a - b == s - b - a
  {
    if x :| x in a && x in b {
      assert x in (s - b) + a && x !in (s + a) - b;
    }
  }

  lemma MembersDetermine(a: DB, b: DB)
    requires Sound(a) && Sound(b)
    ensures a.sets == b.sets <==> forall k :: MembersAt(a.sets, k) == MembersAt(b.sets, k)
  {
    if forall k :: MembersAt(a.sets, k) == MembersAt(b.sets, k) {
      forall k ensures (k in a.sets <==> k in b.sets) && (k in a.sets ==> a.sets[k] == b.sets[k]) {
        assert MembersAt(a.sets, k) == MembersAt(b.sets, k);
      }
    }
  }

  function Rewritten(h: Hash, c: Command): Hash
    requires OnHashes(c)
  {
    if c.Hset? then h + Writes(c.fieldValues) else h - AsSet(c.fields)
  }

  lemma RewrittenAt(db: DB, c: Command, now: Time)
    requires OnHashes(c) && Loggable(c) && Apply(db, c, now).Some?
    ensures var r := Apply(db, c, now).value;
            && r == db.(hashes := r.hashes)
            && forall k :: HashAt(r.hashes, k) == if k == c.key then Rewritten(HashAt(db.hashes, k), c) else HashAt(db.hashes, k)
  {
    hide HashAt, Written, Erased, AsSet, Writes;
    HashAfter(db.hashes, c.key, if c.Hset? then c.fieldValues else c.fields);
  }

  lemma HashSwap(db: DB, c: Command, d: Command, now: Time)
    requires OnHashes(c) && OnHashes(d) && c.key == d.key && Sound(db) && Loggable(c) && Loggable(d)
    requires BothOn(db, c, d, now).Some? && BothOn(db, d, c, now).Some?
    ensures ShowSame(BothOn(db, c, d, now).value, BothOn(db, d, c, now).value) <==> Commute(db, c, d, now)
  {
    hide HashAt, Sound, Rewritten, Apply, Commute, Loggable;
    var e, f := Apply(db, c, now).value, Apply(db, d, now).value;
    assert !c.Hset? || !c.Hdel?;
    HashKeepsSound(db, c, now);
    HashKeepsSound(db, d, now);
    HashKeepsSound(e, d, now);
    HashKeepsSound(f, c, now);
    RewrittenAt(db, c, now);
    RewrittenAt(db, d, now);
    RewrittenAt(e, d, now);
    RewrittenAt(f, c, now);
    HashDetermine(BothOn(db, c, d, now).value, BothOn(db, d, c, now).value);
    RewrittenTwice(db, HashAt(db.hashes, c.key), c, d, now);
  }

  lemma HashKeepsSound(db: DB, c: Command, now: Time)
    requires OnHashes(c) && Loggable(c) && Sound(db) && Apply(db, c, now).Some?
    ensures Sound(Apply(db, c, now).value)
  {
    hide Sound, Apply;
    SoundStep(db, c, now);
  }

  lemma RewrittenTwice(db: DB, h: Hash, c: Command, d: Command, now: Time)
    requires OnHashes(c) && OnHashes(d) && c.key == d.key
    ensures Rewritten(Rewritten(h, c), d) == Rewritten(Rewritten(h, d), c) <==> Commute(db, c, d, now)
  {
    hide AsSet, Writes, Agree;
    if c.Hset? && d.Hset? {
      TwoWrites(h, Writes(c.fieldValues), Writes(d.fieldValues));
    } else if c.Hset? {
      WriteAndErase(h, Writes(c.fieldValues), AsSet(d.fields));
    } else if d.Hset? {
      WriteAndErase(h, Writes(d.fieldValues), AsSet(c.fields));
    } else {
      TwoErasures(h, AsSet(c.fields), AsSet(d.fields));
    }
  }

  lemma TwoWrites(h: Hash, w: Hash, x: Hash)
    ensures h + w + x == h + x + w <==> Agree(w, x)
  {
    if h + w + x == h + x + w {
      forall f | f in w && f in x ensures w[f] == x[f] {
        assert (h + w + x)[f] == x[f] && (h + x + w)[f] == w[f];
      }
    }
  }

  lemma WriteAndErase(h: Hash, w: Hash, b: set<Bytes>)
    ensures (h + w) - b == (h - b) + w <==> w.Keys !! b
  {
    if f :| f in w && f in b {
      assert f in (h - b) + w && f !in (h + w) - b;
    }
  }

  lemma TwoErasures(h: Hash, a: set<Bytes>, b: set<Bytes>)
    ensures h - a - b == h - b - a
  {
  }

  lemma HashDetermine(a: DB, b: DB)
    requires Sound(a) && Sound(b)
    ensures a.hashes == b.hashes <==> forall k :: HashAt(a.hashes, k) == HashAt(b.hashes, k)
  {
    if forall k :: HashAt(a.hashes, k) == HashAt(b.hashes, k) {
      forall k ensures (k in a.hashes <==> k in b.hashes) && (k in a.hashes ==> a.hashes[k] == b.hashes[k]) {
        assert HashAt(a.hashes, k) == HashAt(b.hashes, k);
      }
    }
  }

  lemma ListSwap(db: DB, c: Command, d: Command, now: Time)
    requires OnLists(c) && OnLists(d) && c.key == d.key && !SortsShared(c, d)
    requires BothOn(db, c, d, now).Some? && BothOn(db, d, c, now).Some? && Loggable(c) && Loggable(d)
    ensures ShowSame(BothOn(db, c, d, now).value, BothOn(db, d, c, now).value) <==> Commute(db, c, d, now)
  {
    hide PushAllFront, PushAllBack, Reverse, Apply;
    var k, s := c.key, RingAt(db.lists, c.key).elems;
    var e, f := Apply(db, c, now).value, Apply(db, d, now).value;
    PushedElems(db, c, now);
    PushedElems(db, d, now);
    PushedElems(e, d, now);
    PushedElems(f, c, now);
    var x, y := BothOn(db, c, d, now).value, BothOn(db, d, c, now).value;
    assert Contents(x.lists) == Contents(db.lists)[k := x.lists[k].elems];
    assert Contents(y.lists) == Contents(db.lists)[k := y.lists[k].elems];
    assert Contents(x.lists) == Contents(y.lists) <==> x.lists[k].elems == y.lists[k].elems by {
      assert Contents(x.lists)[k] == x.lists[k].elems && Contents(y.lists)[k] == y.lists[k].elems;
    }
    EndsMeet(s, c.values, d.values);
    EndsMeet(s, d.values, c.values);
  }

  lemma PushedElems(db: DB, c: Command, now: Time)
    requires (c.Lpush? || c.Rpush?) && Loggable(c) && Apply(db, c, now).Some?
    ensures var r := Apply(db, c, now).value;
            && c.key in r.lists && r == db.(lists := db.lists[c.key := r.lists[c.key]])
            && r.lists[c.key].elems ==
                 if c.Lpush? then Reverse(c.values) + RingAt(db.lists, c.key).elems
                 else RingAt(db.lists, c.key).elems + c.values
  {
    hide PushAllFront, PushAllBack, Reverse;
    if c.Lpush? {
      PushAllFrontElems(RingAt(db.lists, c.key), c.values);
    } else {
      PushAllBackElems(RingAt(db.lists, c.key), c.values);
    }
  }

  lemma EndsMeet(s: seq<Bytes>, vs: seq<Bytes>, ws: seq<Bytes>)
    ensures Reverse(ws) + (Reverse(vs) + s) == Reverse(vs) + (Reverse(ws) + s) <==> vs + ws == ws + vs
    ensures s + vs + ws == s + ws + vs <==> vs + ws == ws + vs
    ensures Reverse(ws) + s + vs == Reverse(ws) + (s + vs)
  {
    hide Reverse;
    ReverseConcat(vs, ws);
    ReverseConcat(ws, vs);
    ReverseBack(vs + ws);
    ReverseBack(ws + vs);
    Cancel(Reverse(ws) + Reverse(vs), Reverse(vs) + Reverse(ws), s);
    Cancel(vs + ws, ws + vs, s);
    Associate(Reverse(ws), Reverse(vs), s);
    Associate(Reverse(vs), Reverse(ws), s);
    Associate(s, vs, ws);
    Associate(s, ws, vs);
    Associate(Reverse(ws), s, vs);
  }

  lemma Associate(a: seq<Bytes>, b: seq<Bytes>, c: seq<Bytes>)
    ensures a + b + c == a + (b + c)
  {
  }

  lemma Cancel(a: seq<Bytes>, b: seq<Bytes>, s: seq<Bytes>)
    requires |a| == |b|
    ensures a + s == b + s <==> a == b
    ensures s + a == s + b <==> a == b
  {
    if a + s == b + s {
      assert a == (a + s)[..|a|] && b == (b + s)[..|b|];
    }
    if s + a == s + b {
      assert a == (s + a)[|s|..] && b == (s + b)[|s|..];
    }
  }

  lemma ReverseConcat(a: seq<Bytes>, b: seq<Bytes>)
    ensures Reverse(a + b) == Reverse(b) + Reverse(a)
  {
    hide Reverse;
  }

  lemma ReverseBack(a: seq<Bytes>)
    ensures Reverse(Reverse(a)) == a
  {
    hide Reverse;
  }
}
