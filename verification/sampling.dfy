/** Sampled eviction: one round of it, as the dict and the set store both run it. */
module Sampling {
  import opened ByteStrings
  import opened Expiry

  method KeysOf<V>(items: Store<V>) returns (keys: seq<Bytes>)
    ensures |keys| == |items| && forall i :: 0 <= i < |keys| ==> keys[i] in items
  {
    keys := [];
    var todo := items.Keys;
    while todo != {}
      invariant todo <= items.Keys
      invariant |keys| + |todo| == |items|
      invariant forall i :: 0 <= i < |keys| ==> keys[i] in items
    {
      var key :| key in todo;
      todo := todo - {key};
      keys := keys + [key];
    }
  }

  /** What of the drawn keys has expired. */
  ghost function Over<V(!new)>(items: Store<V>, drawn: set<Bytes>, now: Time): set<Bytes> {
    set k | k in drawn && k in items && Expired(items[k], now)
  }

  /** Draws `limit` keys with replacement and evicts those that have expired, all of them. */
  method SampleRound<V(!new)>(items: Store<V>, maxSample: int, now: Time)
    returns (left: Store<V>, limit: int, checked: nat, expired: nat, ghost drawn: set<Bytes>)
    ensures limit == if |items| < maxSample then |items| else maxSample
    ensures expired <= checked && checked <= if limit > 0 then limit else 0
    ensures drawn <= items.Keys && |drawn| <= checked && (limit > 0 ==> drawn != {})
    ensures left == items - Over(items, drawn, now) && expired == |Over(items, drawn, now)|
    ensures |left| == |items| - expired
    ensures Evicted(items, left, now)
  {
    hide Evicted, Over;
    left, checked, expired, drawn := items, 0, 0, {};
    EvictNone(items, now);
    NothingOver(items, now);
    var keys := KeysOf(items);
    limit := maxSample;
    if |keys| < limit {
      limit := |keys|;
    }
    var j := 0;
    while j < limit
      invariant 0 <= j <= (if limit > 0 then limit else 0) && expired <= checked <= j
      invariant if j == 0 then left == items else drawn != {}
      invariant drawn <= items.Keys && |drawn| <= checked
      invariant left == items - Over(items, drawn, now) && expired == |Over(items, drawn, now)|
      invariant |left| == |items| - expired
      invariant Evicted(items, left, now)
    {
      var idx :| 0 <= idx < |keys|;
      var key := keys[idx];
      OneMoreDrawn(items, drawn, key, now);
      if key in left {
        checked := checked + 1;
        drawn := drawn + {key};
        if Expired(left[key], now) {
          DropOne(left, key);
          EvictOne(items, left, key, now);
          left := left - {key};
          expired := expired + 1;
        }
      }
      j := j + 1;
    }
  }

  lemma NothingOver<V(!new)>(items: Store<V>, now: Time)
    ensures Over(items, {}, now) == {} && items - Over(items, {}, now) == items
  {
  }

  /** Drawing one more key: it is new to the expired ones exactly when it is there and expired. */
  lemma OneMoreDrawn<V(!new)>(items: Store<V>, drawn: set<Bytes>, key: Bytes, now: Time)
    requires key in items
    ensures var over, more := Over(items, drawn, now), Over(items, drawn + {key}, now);
            && (key !in items - over ==> over != {} && drawn != {})
            && (key in items - over ==>
                  if Expired(items[key], now) then
                    more == over + {key} && key !in over && items - more == items - over - {key}
                  else more == over)
    ensures |drawn + {key}| <= |drawn| + 1
  {
    var over := Over(items, drawn, now);
    if key !in items - over {
      assert key in over;
    }
  }

  // The most keys that so many rounds can draw.
  function Quota(rounds: nat, maxSample: int): nat {
    if maxSample > 0 then rounds * maxSample else 0
  }

  lemma NextQuota(rounds: nat, maxSample: int)
    ensures Quota(rounds + 1, maxSample) == Quota(rounds, maxSample) + if maxSample > 0 then maxSample else 0
    ensures Quota(0, maxSample) == 0
  {
  }

  // Of the keys checked in a round, at least one in four had expired.
  predicate Busy(tally: (nat, nat)) {
    0 < tally.0 <= tally.1 * 4
  }

  lemma BusyOrDone(checked: nat, expired: nat)
    ensures Busy((checked, expired)) <==> !(checked == 0 || expired * 4 < checked)
  {
  }

  predicate AllExpired<V>(items: Store<V>, now: Time) {
    forall k :: k in items ==> Expired(items[k], now)
  }

  lemma DrawnGo<V(!new)>(items: Store<V>, drawn: set<Bytes>, now: Time)
    requires drawn <= items.Keys
    ensures AllExpired(items, now) && drawn != {} ==> |Over(items, drawn, now)| > 0
  {
    if AllExpired(items, now) && drawn != {} {
      var k :| k in drawn;
      assert k in Over(items, drawn, now);
    }
  }
}
