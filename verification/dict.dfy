/** The dict: text values with deadlines, evicted lazily and by sampling. */
module Dicts {
  import opened ByteStrings
  import opened Expiry
  import opened Sampling

  class Dict {
    var items: Store<Bytes>

    constructor ()
      ensures items == map[]
    {
      items := map[];
    }

    method Set(key: Bytes, value: Bytes, ttl: int64, now: Time)
      modifies this
      ensures items == Put(old(items), key, value, ttl, now)
    {
      var item := Item(value, None);
      if ttl > 0 {
        item := item.(expiredAt := Some(After(now, ttl)));
      }
      items := items[key := item];
    }

    method Get(key: Bytes, now: Time) returns (value: Option<Bytes>)
      modifies this
      ensures value == Find(old(items), key, now)
      ensures items == EvictIfExpired(old(items), key, now)
      ensures Evicted(old(items), items, now)
    {
      if key !in items {
        return None;
      }
      var item := items[key];
      if Expired(item, now) {
        items := items - {key};
        return None;
      }
      return Some(item.value);
    }

    method Delete(keys: seq<Bytes>) returns (count: nat)
      modifies this
      ensures items == old(items) - AsSet(keys)
      ensures count == |old(items)| - |items|
    {
      hide AsSet;
      count := 0;
      DropNone(items, keys);
      for i := 0 to |keys|
        invariant items == old(items) - AsSet(keys[..i])
        invariant count == |old(items)| - |items|
      {
        DropNext(old(items), keys, i);
        DropOne(items, keys[i]);
        if keys[i] in items {
          items := items - {keys[i]};
          count := count + 1;
        }
      }
    }

    method Expire(key: Bytes, ttl: int64, now: Time) returns (ok: bool)
      modifies this
      ensures ok == (key in old(items)) && items == Expiry.Expire(old(items), key, ttl, now)
    {
      if key !in items {
        return false;
      }
      var item := items[key];
      if ttl <= 0 {
        items := items - {key};
        return true;
      }
      items := items[key := item.(expiredAt := Some(After(now, ttl)))];
      return true;
    }

    method ExpireAt(key: Bytes, at: int64, now: Time) returns (ok: bool)
      modifies this
      ensures ok == (key in old(items)) && items == Expiry.ExpireAt(old(items), key, at, now)
    {
      if key !in items {
        return false;
      }
      var item := items[key];
      if at < now {
        items := items - {key};
        return true;
      }
      items := items[key := item.(expiredAt := Some(at))];
      return true;
    }

    method TTL(key: Bytes, now: Time) returns (seconds: int)
      modifies this
      ensures seconds == Ttl(old(items), key, now)
      ensures items == EvictIfExpired(old(items), key, now)
      ensures Evicted(old(items), items, now)
    {
      if key !in items {
        return -2;
      }
      if items[key].expiredAt.None? {
        return -1;
      }
      var left := items[key].expiredAt.value - now;
      if left < 0 {
        items := items - {key};
        return -2;
      }
      return (if left > MAX_DURATION then MAX_DURATION else left) / 1000;
    }

    method Dump(now: Time) returns (snapshot: Store<Bytes>)
      ensures snapshot == Visible(items, now)
    {
      snapshot := map[];
      var todo := items.Keys;
      while todo != {}
        invariant todo <= items.Keys
        invariant snapshot == map k | k in items && k !in todo && !Expired(items[k], now) :: items[k]
      {
        var key :| key in todo;
        todo := todo - {key};
        if !Expired(items[key], now) {
          snapshot := snapshot[key := items[key]];
        }
      }
    }

    /** Sampling stops at the round limit, or once under a quarter of a round's checked keys
        had expired. Returns the rounds run and the counts of the last one; `tally` has those of
        every round. */
    method ActiveExpire(maxRounds: nat, maxSample: int, now: Time)
      returns (rounds: nat, checked: nat, expired: nat, ghost tally: seq<(nat, nat)>)
      modifies this
      ensures Evicted(old(items), items, now)
      ensures rounds <= maxRounds
      ensures |old(items)| - |items| <= Quota(rounds, maxSample)
      ensures old(items) != map[] && rounds < maxRounds ==> checked == 0 || expired * 4 < checked
      ensures |tally| == rounds && (rounds > 0 ==> tally[rounds - 1] == (checked, expired))
      ensures forall i :: 0 <= i < rounds - 1 ==> Busy(tally[i])
      ensures maxRounds > 0 && maxSample > 0 && old(items) != map[] && AllExpired(old(items), now)
              ==> |items| < |old(items)|
    {
      hide Evicted, AllExpired, Over, Quota, Busy;
      rounds, checked, expired, tally := 0, 0, 0, [];
      EvictNone(items, now);
      if items == map[] {
        return;
      }
      while rounds < maxRounds
        invariant rounds <= maxRounds
        invariant Evicted(old(items), items, now)
        invariant |old(items)| - |items| <= Quota(rounds, maxSample)
        invariant |tally| == rounds && (rounds > 0 ==> tally[rounds - 1] == (checked, expired))
        invariant forall i :: 0 <= i < rounds ==> Busy(tally[i])
        invariant |items| <= |old(items)|
        invariant if rounds == 0 then items == old(items)
                  else maxSample > 0 && AllExpired(old(items), now) ==> |items| < |old(items)|
      {
        var left, limit;
        ghost var drawn;
        left, limit, checked, expired, drawn := SampleRound(items, maxSample, now);
        EvictedTrans(old(items), items, left, now);
        DrawnGo(items, drawn, now);
        items := left;
        NextQuota(rounds, maxSample);
        rounds := rounds + 1;
        tally := tally + [(checked, expired)];
        BusyOrDone(checked, expired);
        if checked == 0 || expired * 4 < checked {
          return;
        }
      }
    }
  }
}
