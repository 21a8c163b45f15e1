/** The dict under concurrent use. Get, TTL, Expire and ExpireAt each take the lock twice: once to
    capture the item and once to act on what they captured. Here every locked section is one
    step, and steps of different threads come in any order. */
module Interleaving {
  import opened ByteStrings
  import opened Expiry

  type Thread = nat

  // Where a thread is between its two locked sections.
  datatype Pc =
    | Reading(key: Bytes, item: Item<Bytes>)                // Get or TTL: captured, deadline not yet looked at
    | Evicting(key: Bytes)                                  // found expired, about to delete
    | Expiring(key: Bytes, item: Item<Bytes>, ttl: int64)   // Expire
    | ExpiringAt(key: Bytes, item: Item<Bytes>, at: int64)  // ExpireAt

  datatype Label =
    | Set(key: Bytes, value: Bytes, ttl: int64, now: Time)
    | Delete(keys: seq<Bytes>)
    | Sweep(sampled: set<Bytes>, now: Time)  // activeExpire
    | Capture(t: Thread, pc: Pc)          // the first section of a thread's operation
    | Check(t: Thread, now: Time)         // Get or TTL looks at the deadline it captured
    | Finish(t: Thread, now: Time)        // the second section

  // The dict, the threads, and what has happened: every key and value ever set, and every key
  // and value Get has returned.
  datatype State = State(items: Store<Bytes>, threads: map<Thread, Pc>,
                         written: set<(Bytes, Bytes)>, returned: seq<(Bytes, Bytes)>)

  const START: State := State(map[], map[], {}, [])

  predicate Captures(m: Store<Bytes>, pc: Pc) {
    !pc.Evicting? && pc.key in m && pc.item == m[pc.key]
  }

  /** One locked section; None if it is not that thread's turn to take it. */
  function Next(s: State, l: Label): Option<State> {
    match l
    case Set(k, v, ttl, now) =>
      Some(s.(items := Put(s.items, k, v, ttl, now), written := s.written + {(k, v)}))
    case Delete(ks) => Some(s.(items := s.items - AsSet(ks)))
    case Sweep(ks, now) => Some(s.(items := map k | k in s.items && !(k in ks && Expired(s.items[k], now)) :: s.items[k]))
    case Capture(t, pc) =>
      // On a missing key the operation ends at once.
      if t in s.threads || pc.Evicting? then None
      else if pc.key !in s.items then Some(s)
      else if Captures(s.items, pc) then Some(s.(threads := s.threads[t := pc])) else None
    case Check(t, now) =>
      if t !in s.threads || !s.threads[t].Reading? then None
      else
        var pc := s.threads[t];
        if Expired(pc.item, now) then Some(s.(threads := s.threads[t := Evicting(pc.key)]))
        else Some(s.(threads := s.threads - {t}, returned := s.returned + [(pc.key, pc.item.value)]))
    case Finish(t, now) =>
      if t !in s.threads || s.threads[t].Reading? then None
      else Some(s.(threads := s.threads - {t}, items := Finished(s.items, s.threads[t], now)))
  }

  /** What the second section does to the dict: it writes back the captured item. */
  function Finished(m: Store<Bytes>, pc: Pc, now: Time): Store<Bytes>
    requires !pc.Reading?
  {
    match pc
    case Evicting(k) => m - {k}
    case Expiring(k, item, ttl) =>
      if ttl <= 0 then m - {k} else m[k := item.(expiredAt := Some(After(now, ttl)))]
    case ExpiringAt(k, item, at) =>
      if at < now then m - {k} else m[k := item.(expiredAt := Some(at))]
  }

  function RunFrom(s: State, ls: seq<Label>): Option<State>
    decreases |ls|
  {
    if ls == [] then Some(s)
    else
      match RunFrom(s, ls[..|ls| - 1])
      case None => None
      case Some(r) => Next(r, ls[|ls| - 1])
  }

  // ---------- No value out of thin air ----------

  ghost predicate Grounded(s: State) {
    && (forall k :: k in s.items ==> (k, s.items[k].value) in s.written)
    && (forall t :: t in s.threads && !s.threads[t].Evicting? ==> (s.threads[t].key, s.threads[t].item.value) in s.written)
    && (forall i :: 0 <= i < |s.returned| ==> s.returned[i] in s.written)
  }

  lemma GroundedStep(s: State, l: Label)
    requires Grounded(s) && Next(s, l).Some?
    ensures Grounded(Next(s, l).value)
  {
  }

  /** In every interleaving, whatever is stored, captured or returned for a key was set for that
      key before. */
  lemma {:induction false} AlwaysGrounded(ls: seq<Label>)
    requires RunFrom(START, ls).Some?
    ensures Grounded(RunFrom(START, ls).value)
    decreases |ls|
  {
    hide Next, Grounded;
    if ls == [] {
      StartGrounded();
    } else {
      AlwaysGrounded(ls[..|ls| - 1]);
      GroundedStep(RunFrom(START, ls[..|ls| - 1]).value, ls[|ls| - 1]);
    }
  }

  lemma StartGrounded()
    ensures Grounded(START)
  {
  }

  // ---------- A deleted key stays away ----------

  /** The key is not in the dict, and no thread holds a copy it may write back. */
  ghost predicate Gone(s: State, key: Bytes) {
    key !in s.items
    && forall t :: t in s.threads ==> s.threads[t].key != key || s.threads[t].Reading? || s.threads[t].Evicting?
  }

  /** In every interleaving, a key that is gone stays gone until it is set. */
  lemma {:induction false} GoneStays(s: State, ls: seq<Label>, key: Bytes)
    requires Gone(s, key) && RunFrom(s, ls).Some?
    requires forall i :: 0 <= i < |ls| && ls[i].Set? ==> ls[i].key != key
    ensures Gone(RunFrom(s, ls).value, key)
    decreases |ls|
  {
    hide Next, Gone;
    if ls != [] {
      var front := ls[..|ls| - 1];
      assert forall i :: 0 <= i < |front| ==> front[i] == ls[i];
      GoneStays(s, front, key);
      GoneStep(RunFrom(s, front).value, ls[|ls| - 1], key);
    }
  }

  lemma GoneStep(s: State, l: Label, key: Bytes)
    requires Gone(s, key) && Next(s, l).Some? && (l.Set? ==> l.key != key)
    ensures Gone(Next(s, l).value, key)
  {
  }

  // ---------- Where captured items come from ----------

  predicate Moves(l: Label, t: Thread) {
    (l.Capture? || l.Check? || l.Finish?) && l.t == t
  }

  /** The thread took the first section of the operation it is in at step a, when the dict held
      the item it carries, and has not moved since. */
  ghost predicate CapturedAt(ls: seq<Label>, a: nat, t: Thread, pc: Pc) {
    && a < |ls| && ls[a] == Capture(t, pc)
    && RunFrom(START, ls[..a]).Some? && Captures(RunFrom(START, ls[..a]).value.items, pc)
    && forall b :: a < b < |ls| ==> !Moves(ls[b], t)
  }

  /** In every interleaving, whoever carries an item captured it earlier from the dict. */
  lemma {:induction false} CarriedIsCaptured(ls: seq<Label>, t: Thread) returns (a: nat)
    requires RunFrom(START, ls).Some?
    requires var s := RunFrom(START, ls).value; t in s.threads && !s.threads[t].Evicting?
    ensures CapturedAt(ls, a, t, RunFrom(START, ls).value.threads[t])
    decreases |ls|
  {
    hide Next, Finished;
    assert ls != [];
    var front, l := ls[..|ls| - 1], ls[|ls| - 1];
    var s := RunFrom(START, front).value;
    StillCarried(s, l, t);
    if Moves(l, t) {
      a := |front|;
    } else {
      a := CarriedIsCaptured(front, t);
      assert front[..a] == ls[..a];
    }
  }

  lemma StillCarried(s: State, l: Label, t: Thread)
    requires Next(s, l).Some? && t in Next(s, l).value.threads && !Next(s, l).value.threads[t].Evicting?
    ensures var pc := Next(s, l).value.threads[t];
            if Moves(l, t) then l == Capture(t, pc) && Captures(s.items, pc) else t in s.threads && s.threads[t] == pc
  {
  }

  /** In every interleaving, an absent key becomes present only by a Set, or by an Expire or
      ExpireAt that captured it at an earlier step a, and then with the value the dict held then. */
  lemma ReappearsOnlyBy(ls: seq<Label>, l: Label, key: Bytes) returns (a: nat)
    requires RunFrom(START, ls).Some? && Next(RunFrom(START, ls).value, l).Some?
    requires key !in RunFrom(START, ls).value.items && key in Next(RunFrom(START, ls).value, l).value.items
    ensures (l.Set? && l.key == key)
            || (l.Finish? && a < |ls| && ls[a].Capture? && CapturedAt(ls, a, l.t, ls[a].pc)
                && (ls[a].pc.Expiring? || ls[a].pc.ExpiringAt?) && ls[a].pc.key == key
                && Next(RunFrom(START, ls).value, l).value.items[key].value == ls[a].pc.item.value)
  {
    hide RunFrom;
    a := 0;
    if l.Finish? {
      a := CarriedIsCaptured(ls, l.t);
    }
  }

  // ---------- Reads and deadlines ----------

  /** In every interleaving, each value Get has returned was captured at a step a and looked at in a
      later step b of the same thread: it is what a Get in one piece would have returned from the
      dict of step a, even with the clock of step b. So Get takes effect in its first section. */
  lemma {:induction false} ReturnsOnlyUnexpired(ls: seq<Label>, i: nat) returns (a: nat, b: nat)
    requires RunFrom(START, ls).Some? && i < |RunFrom(START, ls).value.returned|
    ensures a < b < |ls| && ls[a].Capture? && ls[a].pc.Reading? && CapturedAt(ls[..b], a, ls[a].t, ls[a].pc)
    ensures ls[b].Check? && ls[b].t == ls[a].t
    ensures RunFrom(START, ls[..a]).Some?
    ensures var (key, value) := RunFrom(START, ls).value.returned[i];
            key == ls[a].pc.key && Find(RunFrom(START, ls[..a]).value.items, key, ls[b].now) == Some(value)
    decreases |ls|
  {
    hide Next;
    assert ls != [];
    var front, l := ls[..|ls| - 1], ls[|ls| - 1];
    var s := RunFrom(START, front).value;
    ReturnStep(s, l);
    if i < |s.returned| {
      a, b := ReturnsOnlyUnexpired(front, i);
      assert front[..b] == ls[..b] && front[..a] == ls[..a];
    } else {
      b := |front|;
      a := CarriedIsCaptured(front, l.t);
      assert front[..a] == ls[..a];
    }
  }

  lemma ReturnStep(s: State, l: Label)
    requires Next(s, l).Some?
    ensures var r := Next(s, l).value.returned;
            r == s.returned
            || (l.Check? && l.t in s.threads && s.threads[l.t].Reading? && !Expired(s.threads[l.t].item, l.now)
                && r == s.returned + [(s.threads[l.t].key, s.threads[l.t].item.value)])
  {
  }

  // ---------- One client alone ----------

  /** The other steps are the dict's own operations; sweeping is evicting any of the expired keys. */
  lemma StepsAre(s: State, key: Bytes, value: Bytes, ttl: int64, keys: seq<Bytes>, left: Store<Bytes>, now: Time)
    ensures Next(s, Set(key, value, ttl, now)).Some? && Next(s, Set(key, value, ttl, now)).value.items == Put(s.items, key, value, ttl, now)
    ensures Next(s, Delete(keys)).Some? && Next(s, Delete(keys)).value.items == s.items - AsSet(keys)
    ensures Evicted(s.items, left, now) ==>
              Next(s, Sweep(s.items.Keys - left.Keys, now)).Some? && Next(s, Sweep(s.items.Keys - left.Keys, now)).value.items == left
  {
    if Evicted(s.items, left, now) {
      var swept := Next(s, Sweep(s.items.Keys - left.Keys, now)).value.items;
      forall k
        ensures k in swept <==> k in left
        ensures k in left ==> k in s.items && left[k] == s.items[k]
      {
        assert if k in s.items && (k in left || !Expired(s.items[k], now)) then k in left && left[k] == s.items[k] else k !in left;
      }
    }
  }

  /** A Get that no one interrupts returns and evicts what it would in one piece. */
  lemma GetAlone(s: State, t: Thread, key: Bytes, now: Time)
    requires t !in s.threads && key in s.items
    ensures var s1 := Next(s, Capture(t, Reading(key, s.items[key])));
            && s1.Some? && var s2 := Next(s1.value, Check(t, now));
            && s2.Some?
            && (Find(s.items, key, now).Some? ==>
                  s2.value.items == s.items && s2.value.returned == s.returned + [(key, Find(s.items, key, now).value)])
            && (Find(s.items, key, now).None? ==>
                  s2.value.returned == s.returned
                  && Next(s2.value, Finish(t, now)).Some?
                  && Next(s2.value, Finish(t, now)).value.items == EvictIfExpired(s.items, key, now))
  {
  }

  /** So with Expire and ExpireAt. */
  lemma ExpireAlone(s: State, t: Thread, key: Bytes, ttl: int64, at: int64, now: Time)
    requires t !in s.threads && key in s.items
    ensures var s1 := Next(s, Capture(t, Expiring(key, s.items[key], ttl)));
            && s1.Some? && Next(s1.value, Finish(t, now)).Some?
            && Next(s1.value, Finish(t, now)).value.items == Expire(s.items, key, ttl, now)
    ensures var s1 := Next(s, Capture(t, ExpiringAt(key, s.items[key], at)));
            && s1.Some? && Next(s1.value, Finish(t, now)).Some?
            && Next(s1.value, Finish(t, now)).value.items == ExpireAt(s.items, key, at, now)
  {
  }

  // ---------- When two sections amount to one ----------

  /** The second section of Expire does what the whole operation would do in one piece exactly
      when the key still holds the captured value, or is to be deleted. */
  lemma ExpireAtomicExactly(m: Store<Bytes>, key: Bytes, item: Item<Bytes>, ttl: int64, now: Time)
    ensures Finished(m, Expiring(key, item, ttl), now) == Expire(m, key, ttl, now)
            <==> ttl <= 0 || (key in m && m[key].value == item.value)
  {
    var split, whole := Finished(m, Expiring(key, item, ttl), now), Expire(m, key, ttl, now);
    if ttl <= 0 {
      assert key !in m ==> m - {key} == m;
    } else {
      assert key in split;
      if split == whole {
        assert key in whole && whole[key] == split[key];
      }
    }
  }

  /** The same for ExpireAt. */
  lemma ExpireAtAtomicExactly(m: Store<Bytes>, key: Bytes, item: Item<Bytes>, at: int64, now: Time)
    ensures Finished(m, ExpiringAt(key, item, at), now) == ExpireAt(m, key, at, now)
            <==> at < now || (key in m && m[key].value == item.value)
  {
    var split, whole := Finished(m, ExpiringAt(key, item, at), now), ExpireAt(m, key, at, now);
    if at < now {
      assert key !in m ==> m - {key} == m;
    } else {
      assert key in split;
      if split == whole {
        assert key in whole && whole[key] == split[key];
      }
    }
  }

  /** The eviction after a Get or TTL is the eviction of an expired key exactly when the key has
      expired as it is now, or is absent. */
  lemma EvictionAtomicExactly(m: Store<Bytes>, key: Bytes, now: Time)
    ensures Finished(m, Evicting(key), now) == EvictIfExpired(m, key, now)
            <==> key !in m || Expired(m[key], now)
  {
    if key in m {
      assert key !in Finished(m, Evicting(key), now);
    } else {
      assert m - {key} == m;
    }
  }

  /** So an overwrite between the two sections of an Expire is lost. */
  lemma OverwriteLost(key: Bytes, first: Bytes, second: Bytes)
    requires first != second
    ensures var ls := [Set(key, first, 0, 0), Capture(1, Expiring(key, Item(first, None), 1_000_000_000)),
                       Set(key, second, 0, 0), Finish(1, 0)];
            RunFrom(START, ls).Some? && RunFrom(START, ls).value.items == map[key := Item(first, Some(1_000))]
  {
    var pc := Expiring(key, Item(first, None), 1_000_000_000);
    var ls := [Set(key, first, 0, 0), Capture(1, pc), Set(key, second, 0, 0), Finish(1, 0)];
    var s1 := Next(START, ls[0]).value;
    var s2 := Next(s1, ls[1]).value;
    var s3 := Next(s2, ls[2]).value;
    assert Next(s3, ls[3]).value.items == map[key := Item(first, Some(1_000))];
    hide Next;
    RunStep(ls, 0);
    RunStep(ls, 1);
    RunStep(ls, 2);
    RunStep(ls, 3);
    assert ls[..4] == ls && ls[..0] == [];
  }

  /** And a value set between the two sections of an eviction is deleted, unexpired: a GET removes
      what it never saw. */
  lemma FreshValueEvicted(key: Bytes, first: Bytes, second: Bytes)
    ensures var ls := [Set(key, first, 1_000_000_000, 0), Capture(1, Reading(key, Item(first, Some(1_000)))), Check(1, 2_000),
                       Set(key, second, 0, 2_000), Finish(1, 2_000)];
            && RunFrom(START, ls[..4]).Some? && RunFrom(START, ls[..4]).value.items == map[key := Item(second, None)]
            && RunFrom(START, ls).Some? && RunFrom(START, ls).value.items == map[]
  {
    var pc := Reading(key, Item(first, Some(1_000)));
    var ls := [Set(key, first, 1_000_000_000, 0), Capture(1, pc), Check(1, 2_000), Set(key, second, 0, 2_000), Finish(1, 2_000)];
    var s1 := Next(START, ls[0]).value;
    var s2 := Next(s1, ls[1]).value;
    var s3 := Next(s2, ls[2]).value;
    var s4 := Next(s3, ls[3]).value;
    assert s4.items == map[key := Item(second, None)] && s4.threads == map[1 := Evicting(key)];
    hide Next;
    RunStep(ls, 0);
    RunStep(ls, 1);
    RunStep(ls, 2);
    RunStep(ls, 3);
    RunStep(ls, 4);
    assert ls[..5] == ls && ls[..0] == [];
  }

  lemma RunStep(ls: seq<Label>, n: nat)
    requires n < |ls|
    ensures RunFrom(START, ls[..n + 1]) ==
              if RunFrom(START, ls[..n]).None? then None else Next(RunFrom(START, ls[..n]).value, ls[n])
  {
    assert ls[..n + 1] == ls[..n] + [ls[n]];
    RunNext(START, ls[..n], ls[n]);
  }

  lemma RunNext(s: State, ls: seq<Label>, l: Label)
    ensures RunFrom(s, ls + [l]) ==
              if RunFrom(s, ls).None? then None else Next(RunFrom(s, ls).value, l)
  {
    assert (ls + [l])[..|ls|] == ls;
  }
}
