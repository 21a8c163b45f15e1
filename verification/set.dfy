/** The store of sets, each with an optional deadline. */
module Sets {
  import opened ByteStrings
  import opened Expiry
  import opened Sampling

  type Members = set<Bytes>

  function MembersAt(m: Store<Members>, key: Bytes): Members {
    if key in m then m[key].value else {}
  }

  /** Neither addition nor removal looks at the deadline. */
  function Added(m: Store<Members>, key: Bytes, ms: seq<Bytes>): Store<Members> {
    m[key := Item(MembersAt(m, key) + AsSet(ms), if key in m then m[key].expiredAt else None)]
  }

  function Removed(m: Store<Members>, key: Bytes, ms: seq<Bytes>): Store<Members> {
    var rest := MembersAt(m, key) - AsSet(ms);
    if MembersAt(m, key) == {} then m
    else if rest == {} then m - {key}
    else m[key := m[key].(value := rest)]
  }

  /** Additions to an expired set that no one has evicted go unseen: evicting it first gives the
      same visible sets exactly when the key is absent or has not expired. */
  lemma AddedUnseenExactly(m: Store<Members>, key: Bytes, ms: seq<Bytes>, now: Time)
    ensures Visible(Added(EvictIfExpired(m, key, now), key, ms), now) == Visible(Added(m, key, ms), now)
            <==> key !in m || !Expired(m[key], now)
  {
    hide AsSet;
    if key in m && Expired(m[key], now) {
      assert key in Visible(Added(m - {key}, key, ms), now);
      assert key !in Visible(Added(m, key, ms), now);
    }
  }

  class Set {
    var items: Store<Members>

    constructor ()
      ensures items == map[]
    {
      items := map[];
    }

    method Sadd(key: Bytes, members: seq<Bytes>) returns (added: nat)
      modifies this
      ensures items == Added(old(items), key, members)
      ensures added == |MembersAt(items, key)| - |MembersAt(old(items), key)|
    {
      var item := if key in items then items[key] else Item({}, None);
      var present;
      present, added := AddMembers(item.value, members);
      items := items[key := item.(value := present)];
    }

    method Srem(key: Bytes, members: seq<Bytes>) returns (removed: nat)
      modifies this
      ensures items == Removed(old(items), key, members)
      ensures removed == |MembersAt(old(items), key)| - |MembersAt(items, key)|
    {
      if key !in items || |items[key].value| == 0 {
        return 0;
      }
      var item, present := items[key], {};
      present, removed := RemoveMembers(item.value, members);
      if |present| == 0 {
        items := items - {key};
      } else {
        items := items[key := item.(value := present)];
      }
    }

    method Smembers(key: Bytes, now: Time) returns (members: Option<Members>)
      modifies this
      ensures members == Find(old(items), key, now)
      ensures items == EvictIfExpired(old(items), key, now)
    {
      if key !in items {
        return None;
      }
      if Expired(items[key], now) {
        items := items - {key};
        return None;
      }
      return Some(items[key].value);
    }

    method Sismember(key: Bytes, member: Bytes, now: Time) returns (present: bool)
      modifies this
      ensures present == (Find(old(items), key, now).Some? && member in Find(old(items), key, now).value)
      ensures items == EvictIfExpired(old(items), key, now)
    {
      if key !in items {
        return false;
      }
      if Expired(items[key], now) {
        items := items - {key};
        return false;
      }
      return member in items[key].value;
    }

    method Scard(key: Bytes, now: Time) returns (size: nat)
      modifies this
      ensures size == if Find(old(items), key, now).Some? then |Find(old(items), key, now).value| else 0
      ensures items == EvictIfExpired(old(items), key, now)
    {
      if key !in items {
        return 0;
      }
      if Expired(items[key], now) {
        items := items - {key};
        return 0;
      }
      return |items[key].value|;
    }

    method TTL(key: Bytes, now: Time) returns (seconds: int)
      modifies this
      ensures seconds == Ttl(old(items), key, now)
      ensures items == EvictIfExpired(old(items), key, now)
    {
      if key !in items {
        return -2;
      }
      if items[key].expiredAt.None? {
        return -1;
      }
      var left := items[key].expiredAt.value - now;
      if left < 0 {
        items := items - {key};
        return -2;
      }
      return (if left > MAX_DURATION then MAX_DURATION else left) / 1000;
    }

    method Expire(key: Bytes, ttl: int64, now: Time) returns (ok: bool)
      modifies this
      ensures ok == (key in old(items)) && items == Expiry.Expire(old(items), key, ttl, now)
    {
      if key !in items {
        return false;
      }
      var item := items[key];
      if ttl <= 0 {
        items := items - {key};
        return true;
      }
      items := items[key := item.(expiredAt := Some(After(now, ttl)))];
      return true;
    }

    method ExpireAt(key: Bytes, at: int64, now: Time) returns (ok: bool)
      modifies this
      ensures ok == (key in old(items)) && items == Expiry.ExpireAt(old(items), key, at, now)
    {
      if key !in items {
        return false;
      }
      var item := items[key];
      if at < now {
        items := items - {key};
        return true;
      }
      items := items[key := item.(expiredAt := Some(at))];
      return true;
    }

    method Dump(now: Time) returns (snapshot: Store<Members>)
      ensures snapshot == Visible(items, now)
    {
      snapshot := map[];
      var todo := items.Keys;
      while todo != {}
        invariant todo <= items.Keys
        invariant snapshot == map k | k in items && k !in todo && !Expired(items[k], now) :: items[k]
      {
        var key :| key in todo;
        todo := todo - {key};
        if !Expired(items[key], now) {
          snapshot := snapshot[key := items[key]];
        }
      }
    }

    /** As for the dict, but a round is not begun on an empty store. */
    method ActiveExpire(maxRounds: nat, maxSample: int, now: Time)
      returns (rounds: nat, checked: nat, expired: nat, ghost tally: seq<(nat, nat)>)
      modifies this
      ensures Evicted(old(items), items, now)
      ensures rounds <= maxRounds
      ensures |old(items)| - |items| <= Quota(rounds, maxSample)
      ensures old(items) != map[] && items != map[] && rounds < maxRounds ==> checked == 0 || expired * 4 < checked
      ensures |tally| == rounds && (rounds > 0 ==> tally[rounds - 1] == (checked, expired))
      ensures forall i :: 0 <= i < rounds - 1 ==> Busy(tally[i])
      ensures maxRounds > 0 && maxSample > 0 && old(items) != map[] && AllExpired(old(items), now)
              ==> |items| < |old(items)|
    {
      hide Evicted, AllExpired, Over, Quota, Busy;
      rounds, checked, expired, tally := 0, 0, 0, [];
      EvictNone(items, now);
      if items == map[] {
        return;
      }
      while rounds < maxRounds
        invariant rounds <= maxRounds
        invariant Evicted(old(items), items, now)
        invariant |old(items)| - |items| <= Quota(rounds, maxSample)
        invariant |tally| == rounds && (rounds > 0 ==> tally[rounds - 1] == (checked, expired))
        invariant forall i :: 0 <= i < rounds ==> Busy(tally[i])
        invariant |items| <= |old(items)|
        invariant if rounds == 0 then items == old(items)
                  else maxSample > 0 && AllExpired(old(items), now) ==> |items| < |old(items)|
      {
        if items == map[] {
          return;
        }
        var left, limit;
        ghost var drawn;
        left, limit, checked, expired, drawn := SampleRound(items, maxSample, now);
        EvictedTrans(old(items), items, left, now);
        DrawnGo(items, drawn, now);
        items := left;
        NextQuota(rounds, maxSample);
        rounds := rounds + 1;
        tally := tally + [(checked, expired)];
        BusyOrDone(checked, expired);
        if checked == 0 || expired * 4 < checked {
          return;
        }
      }
    }
  }

  method AddMembers(before: Members, members: seq<Bytes>) returns (present: Members, added: nat)
    ensures present == before + AsSet(members)
    ensures added == |present| - |before|
  {
    hide AsSet;
    present, added := before, 0;
    AsSetWhole(members);
    for i := 0 to |members|
      invariant present == before + AsSet(members[..i])
      invariant added == |present| - |before|
    {
      AsSetNext(members, i);
      if members[i] !in present {
        present := present + {members[i]};
        added := added + 1;
      }
    }
  }

  method RemoveMembers(before: Members, members: seq<Bytes>) returns (present: Members, removed: nat)
    ensures present == before - AsSet(members)
    ensures removed == |before| - |present|
  {
    hide AsSet;
    present, removed := before, 0;
    AsSetWhole(members);
    for i := 0 to |members|
      invariant present == before - AsSet(members[..i])
      invariant removed == |before| - |present|
    {
      AsSetNext(members, i);
      if members[i] in present {
        present := present - {members[i]};
        removed := removed + 1;
      }
    }
  }
}
