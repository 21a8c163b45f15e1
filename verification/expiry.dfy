/** Keys with deadlines: what the dict and the set store share, as functions of the clock. */
module Expiry {
  import opened ByteStrings

  // An instant, in milliseconds since 1970.
  type Time = t: int | 0 <= t < 0x4000_0000_0000_0000

  datatype Item<V> = Item(value: V, expiredAt: Option<int64>)

  type Store<V> = map<Bytes, Item<V>>

  const NANOSECONDS_PER_SECOND := 1_000_000_000
  const NANOSECONDS_PER_MILLISECOND := 1_000_000

  /** time.Duration(seconds) * time.Second, in nanoseconds: a 64-bit product. */
  function Seconds(n: int64): int64 {
    Wrap64(n * NANOSECONDS_PER_SECOND)
  }

  /** The instant a duration in nanoseconds from now, in whole milliseconds. */
  function After(now: Time, ttl: int64): (at: int64)
    ensures ttl <= 0 ==> at <= now
    ensures ttl > 0 ==> at >= now
  {
    now + ttl / NANOSECONDS_PER_MILLISECOND
  }

  predicate Expired<V>(item: Item<V>, now: Time) {
    item.expiredAt.Some? && item.expiredAt.value < now
  }

  function Put<V>(m: Store<V>, key: Bytes, value: V, ttl: int64, now: Time): Store<V> {
    m[key := Item(value, if ttl > 0 then Some(After(now, ttl)) else None)]
  }

  function EvictIfExpired<V>(m: Store<V>, key: Bytes, now: Time): Store<V> {
    if key in m && Expired(m[key], now) then m - {key} else m
  }

  function Find<V>(m: Store<V>, key: Bytes, now: Time): Option<V> {
    if key in m && !Expired(m[key], now) then Some(m[key].value) else None
  }

  /** Neither looks whether the key has already expired. */
  function Expire<V>(m: Store<V>, key: Bytes, ttl: int64, now: Time): Store<V> {
    if key !in m then m
    else if ttl <= 0 then m - {key}
    else m[key := m[key].(expiredAt := Some(After(now, ttl)))]
  }

  function ExpireAt<V>(m: Store<V>, key: Bytes, at: int64, now: Time): Store<V> {
    if key !in m then m
    else if at < now then m - {key}
    else m[key := m[key].(expiredAt := Some(at))]
  }

  // The longest duration the program can hold, which time.Until returns for any longer one.
  const MAX_DURATION := 9_223_372_036_854

  /** Whole seconds left; -1 without a deadline, -2 without the key. */
  function Ttl<V>(m: Store<V>, key: Bytes, now: Time): int {
    if key !in m then -2
    else if m[key].expiredAt.None? then -1
    else if m[key].expiredAt.value < now then -2
    else
      var left := m[key].expiredAt.value - now;
      (if left > MAX_DURATION then MAX_DURATION else left) / 1000
  }

  /** The keys that still count at an instant: what a dump takes. */
  function Visible<V>(m: Store<V>, now: Time): Store<V> {
    map k | k in m && !Expired(m[k], now) :: m[k]
  }

  /** `after` is `before` less some keys that had expired by `now`. */
  ghost predicate Evicted<V>(before: Store<V>, after: Store<V>, now: Time) {
    forall k :: if k in before && (k in after || !Expired(before[k], now))
                then k in after && after[k] == before[k] else k !in after
  }

  lemma EvictedTrans<V>(a: Store<V>, b: Store<V>, c: Store<V>, now: Time)
    requires Evicted(a, b, now) && Evicted(b, c, now)
    ensures Evicted(a, c, now)
  {
    forall k
      ensures if k in a && (k in c || !Expired(a[k], now)) then k in c && c[k] == a[k] else k !in c
    {
      assert if k in a && (k in b || !Expired(a[k], now)) then k in b && b[k] == a[k] else k !in b;
    }
  }

  lemma EvictNone<V>(m: Store<V>, now: Time)
    ensures Evicted(m, m, now)
  {
  }

  lemma EvictOne<V>(m: Store<V>, left: Store<V>, key: Bytes, now: Time)
    requires Evicted(m, left, now) && key in left && Expired(left[key], now)
    ensures Evicted(m, left - {key}, now)
  {
    EvictedTrans(m, left, left - {key}, now);
  }

  /** Eviction is invisible: at no instant from then on does any answer change. */
  lemma EvictionInvisible<V>(before: Store<V>, after: Store<V>, now: Time, later: Time)
    requires Evicted(before, after, now) && now <= later
    ensures Visible(after, later) == Visible(before, later)
    ensures forall k :: Find(after, k, later) == Find(before, k, later)
    ensures forall k :: Ttl(after, k, later) == Ttl(before, k, later)
  {
    forall k
      ensures Find(after, k, later) == Find(before, k, later)
      ensures Ttl(after, k, later) == Ttl(before, k, later)
      ensures k in Visible(after, later) <==> k in Visible(before, later)
      ensures k in Visible(after, later) ==> Visible(after, later)[k] == Visible(before, later)[k]
    {
      assert if k in before && (k in after || !Expired(before[k], now))
             then k in after && after[k] == before[k] else k !in after;
    }
  }

  /** Until the next EXPIRE, that is: it can revive an expired key that no one has evicted.
      Evicting the key first gives the same visible keys exactly when it had not expired or
      the new lifetime is not positive. */
  lemma RevivedExactly<V>(m: Store<V>, key: Bytes, ttl: int64, now: Time)
    requires key in m
    ensures Visible(Expire(EvictIfExpired(m, key, now), key, ttl, now), now) == Visible(Expire(m, key, ttl, now), now)
            <==> !Expired(m[key], now) || ttl <= 0
  {
    if Expired(m[key], now) {
      var revived := Visible(Expire(m, key, ttl, now), now);
      assert ttl > 0 ==> key in revived;
      assert key !in Visible(Expire(EvictIfExpired(m, key, now), key, ttl, now), now);
      if ttl <= 0 {
        assert EvictIfExpired(m, key, now) == m - {key};
      }
    }
  }

  /** PEXPIREAT can too: the same keys are visible exactly when the key had not expired or the new
      deadline is past. */
  lemma RevivedAtExactly<V>(m: Store<V>, key: Bytes, at: int64, now: Time)
    requires key in m
    ensures Visible(ExpireAt(EvictIfExpired(m, key, now), key, at, now), now) == Visible(ExpireAt(m, key, at, now), now)
            <==> !Expired(m[key], now) || at < now
  {
    if Expired(m[key], now) {
      var revived := Visible(ExpireAt(m, key, at, now), now);
      assert at >= now ==> key in revived;
      assert key !in Visible(ExpireAt(EvictIfExpired(m, key, now), key, at, now), now);
      if at < now {
        assert EvictIfExpired(m, key, now) == m - {key};
      }
    }
  }

  /** At one instant a key is found, dumped and given a lifetime together. The whole seconds
      reported never overstate the milliseconds left, and understate them by a second or more
      exactly when the deadline is more than some 292 years away. */
  lemma AnswersAgree<V>(m: Store<V>, key: Bytes, now: Time)
    ensures Find(m, key, now).Some? <==> key in Visible(m, now)
    ensures Ttl(m, key, now) != -2 <==> key in Visible(m, now)
    ensures var s := Ttl(m, key, now);
            s >= 0 ==> var left := m[key].expiredAt.value - now;
                       s * 1000 <= left && (left < (s + 1) * 1000 <==> left < 9_223_372_037_000)
  {
  }

  /** EXPIRE and PEXPIREAT at the instant it computes act alike, except that a deadline of
      exactly now keeps the key while a lifetime of zero deletes it. */
  lemma ExpireIsExpireAt<V>(m: Store<V>, key: Bytes, ttl: int64, now: Time)
    ensures Expire(m, key, ttl, now) == ExpireAt(m, key, After(now, ttl), now)
            <==> key !in m || ttl > 0 || After(now, ttl) < now
  {
    if key in m && ttl <= 0 {
      assert key !in Expire(m, key, ttl, now);
    }
  }
}
