/** The store of lists: a map from keys to ring buffers. */
module Lists {
  import opened ByteStrings
  import opened Sorting
  import opened Deques

  // ---------- Specification ----------

  type ListMap = map<Bytes, Ring<Bytes>>

  function RingAt(m: ListMap, key: Bytes): Ring<Bytes> {
    if key in m then m[key] else NewRing()
  }

  function PushAllFront(r: Ring<Bytes>, vs: seq<Bytes>): Ring<Bytes>
    decreases |vs|
  {
    if vs == [] then r else PushAllFront(r.PushFront(vs[0]), vs[1..])
  }

  function PushAllBack(r: Ring<Bytes>, vs: seq<Bytes>): Ring<Bytes>
    requires !r.Stuck()
    decreases |vs|
  {
    if vs == [] then r else PushAllBack(r.PushBack(vs[0]), vs[1..])
  }

  function PushedFront(m: ListMap, key: Bytes, vs: seq<Bytes>): ListMap {
    m[key := PushAllFront(RingAt(m, key), vs)]
  }

  /** A push at the back panics when the ring is stuck. */
  predicate PushBackPanics(m: ListMap, key: Bytes, vs: seq<Bytes>) {
    vs != [] && RingAt(m, key).Stuck()
  }

  function PushedBack(m: ListMap, key: Bytes, vs: seq<Bytes>): ListMap
    requires !PushBackPanics(m, key, vs)
  {
    m[key := if vs == [] then RingAt(m, key) else PushAllBack(RingAt(m, key), vs)]
  }

  lemma PushedBackOpen(m: ListMap, key: Bytes, vs: seq<Bytes>)
    ensures PushBackPanics(m, key, vs) == (vs != [] && RingAt(m, key).Stuck())
    ensures PushBackPanics(m, key, vs) ==> m[key := RingAt(m, key)] == m
  {
  }

  function Min(a: nat, b: nat): nat {
    if a < b then a else b
  }

  function Reverse(s: seq<Bytes>): (r: seq<Bytes>)
    ensures |r| == |s|
    ensures forall i :: 0 <= i < |s| ==> r[i] == s[|s| - 1 - i]
  {
    if s == [] then [] else Reverse(s[1..]) + [s[0]]
  }

  function Keep(m: ListMap, key: Bytes, r: Ring<Bytes>): ListMap {
    if r.elems == [] then m - {key} else m[key := r]
  }

  // The largest array of list items that can be asked for; it depends on the platform.
  const MAX_POP: Size

  /** Pops at an existing key first ask for an array of `count` items, however short the list is:
      they panic when there is no such array. */
  predicate PopPanics(m: ListMap, key: Bytes, count: int) {
    key in m && (count < 0 || MAX_POP < count)
  }

  function PoppedFront(m: ListMap, key: Bytes, count: int): (r: (ListMap, seq<Bytes>))
    requires !PopPanics(m, key, count)
  {
    if key !in m then (m, [])
    else
      var n := Min(count, |m[key].elems|);
      (Keep(m, key, m[key].(elems := m[key].elems[n..])), m[key].elems[..n])
  }

  function PoppedBack(m: ListMap, key: Bytes, count: int): (r: (ListMap, seq<Bytes>))
    requires !PopPanics(m, key, count)
  {
    if key !in m then (m, [])
    else
      var ring := m[key];
      var left := |ring.elems| - Min(count, |ring.elems|);
      (Keep(m, key, Ring(ring.elems[..left], ring.capacity, ring.offEnd && left == |ring.elems|)),
       Reverse(ring.elems[left..]))
  }

  lemma PoppedFrontIs(m: ListMap, key: Bytes, count: int)
    requires !PopPanics(m, key, count)
    ensures PoppedFront(m, key, count) ==
              if key !in m then (m, [])
              else
                var n := Min(count, |m[key].elems|);
                var left := m[key].(elems := m[key].elems[n..]);
                (if |left.elems| == 0 then m[key := left] - {key} else m[key := left], m[key].elems[..n])
  {
    if key in m {
      OverwrittenGone(m, key, m[key].(elems := m[key].elems[Min(count, |m[key].elems|)..]));
    }
  }

  lemma OverwrittenGone(m: ListMap, key: Bytes, r: Ring<Bytes>)
    ensures m[key := r] - {key} == m - {key}
  {
  }

  lemma PoppedBackIs(m: ListMap, key: Bytes, count: int)
    requires !PopPanics(m, key, count)
    ensures PoppedBack(m, key, count) ==
              if key !in m then (m, [])
              else
                var r := m[key];
                var n := |r.elems| - Min(count, |r.elems|);
                var left := Ring(r.elems[..n], r.capacity, r.offEnd && n == |r.elems|);
                (if |left.elems| == 0 then m[key := left] - {key} else m[key := left], Reverse(r.elems[n..]))
  {
    hide Reverse;
    if key in m {
      var r := m[key];
      var n := |r.elems| - Min(count, |r.elems|);
      OverwrittenGone(m, key, Ring(r.elems[..n], r.capacity, r.offEnd && n == |r.elems|));
    }
  }

  function Sorted(m: ListMap, key: Bytes, asc: bool, alpha: bool): ListMap {
    if key in m then m[key := m[key].Sort(Comparator(asc, alpha))] else m
  }

  // Index i counts from the end when negative.
  function Absolute(i: int, n: nat): int {
    if i < 0 then i + n else i
  }

  function RangeOf(s: seq<Bytes>, start: int, stop: int): seq<Bytes> {
    var lo := if Absolute(start, |s|) < 0 then 0 else Absolute(start, |s|);
    var hi := if Absolute(stop, |s|) >= |s| then |s| - 1 else Absolute(stop, |s|);
    if lo > hi then [] else s[lo..hi + 1]
  }

  function Contents(m: ListMap): map<Bytes, seq<Bytes>> {
    map k | k in m :: m[k].elems
  }

  function Dumped(m: ListMap): map<Bytes, seq<Bytes>> {
    map k | k in m && m[k].elems != [] :: m[k].elems
  }

  // ---------- What the operations mean for the listed elements ----------

  lemma {:induction false} PushAllFrontElems(r: Ring<Bytes>, vs: seq<Bytes>)
    ensures PushAllFront(r, vs).elems == Reverse(vs) + r.elems
    decreases |vs|
  {
    if vs != [] {
      PushAllFrontElems(r.PushFront(vs[0]), vs[1..]);
      assert Reverse(vs) + r.elems == Reverse(vs[1..]) + ([vs[0]] + r.elems);
    }
  }

  lemma {:induction false} PushAllBackElems(r: Ring<Bytes>, vs: seq<Bytes>)
    requires !r.Stuck()
    ensures PushAllBack(r, vs).elems == r.elems + vs
    decreases |vs|
  {
    if vs != [] {
      PushAllBackElems(r.PushBack(vs[0]), vs[1..]);
      assert r.elems + vs == r.elems + [vs[0]] + vs[1..];
    }
  }

  /** LPUSH then LPOP of as many gives back the pushed values, last first, and the old list; or no
      list again, if there was none and something was pushed. */
  lemma PushPopFront(m: ListMap, key: Bytes, vs: seq<Bytes>)
    requires if key in m then m[key].elems != [] else vs != []
    requires |vs| <= MAX_POP
    ensures var popped := PoppedFront(PushedFront(m, key, vs), key, |vs|);
            popped.1 == Reverse(vs) && OnlyRingChanged(m, popped.0, key)
  {
    hide PushAllFront, Reverse, PoppedFront;
    PushAllFrontElems(RingAt(m, key), vs);
    var ring := PushAllFront(RingAt(m, key), vs);
    var pushed := PushedFront(m, key, vs);
    PoppedFrontIs(pushed, key, |vs|);
    assert ring.elems[|vs|..] == RingAt(m, key).elems && ring.elems[..|vs|] == Reverse(vs);
    KeptAtKey(m, key, pushed, ring.(elems := RingAt(m, key).elems));
  }

  /** RPUSH then RPOP of as many does the same at the other end. */
  lemma PushPopBack(m: ListMap, key: Bytes, vs: seq<Bytes>)
    requires if key in m then m[key].elems != [] else vs != []
    requires |vs| <= MAX_POP && !PushBackPanics(m, key, vs)
    ensures var popped := PoppedBack(PushedBack(m, key, vs), key, |vs|);
            popped.1 == Reverse(vs) && OnlyRingChanged(m, popped.0, key)
  {
    hide PushAllBack, Reverse, PoppedBack;
    if vs != [] {
      PushAllBackElems(RingAt(m, key), vs);
    }
    var pushed := PushedBack(m, key, vs);
    var ring, n := pushed[key], |RingAt(m, key).elems|;
    PoppedBackIs(pushed, key, |vs|);
    assert ring.elems == RingAt(m, key).elems + vs;
    assert ring.elems[n..] == vs && ring.elems[..n] == RingAt(m, key).elems;
    KeptAtKey(m, key, pushed, Ring(RingAt(m, key).elems, ring.capacity, ring.offEnd && vs == []));
  }

  /** The same lists; the ring at the key may differ, in capacity and in where it stands. */
  predicate OnlyRingChanged(before: ListMap, after: ListMap, key: Bytes) {
    if key in before then
      key in after && after == before[key := after[key]] && after[key].elems == before[key].elems
    else after == before
  }

  lemma KeptAtKey(m: ListMap, key: Bytes, pushed: ListMap, left: Ring<Bytes>)
    requires key in pushed && pushed == m[key := pushed[key]]
    requires left.elems == RingAt(m, key).elems && (key in m ==> m[key].elems != [])
    ensures OnlyRingChanged(m, if |left.elems| == 0 then pushed[key := left] - {key} else pushed[key := left], key)
  {
  }

  /** A range holds element i exactly when i lies between the two ends, an index below zero
      counting back from the length of the list, and it is a contiguous stretch of the list. */
  lemma RangeHolds(s: seq<Bytes>, start: int, stop: int, i: nat)
    requires i < |s|
    ensures var from := if start < 0 then start + |s| else start; var to := if stop < 0 then stop + |s| else stop;
            var lo := if from < 0 then 0 else from;
            from <= i <= to
            <==> lo <= i < lo + |RangeOf(s, start, stop)| && RangeOf(s, start, stop)[i - lo] == s[i]
  {
  }

  /** Positions a to b, by either way of naming each: -1 is the last element. */
  lemma RangeIs(s: seq<Bytes>, a: nat, b: nat)
    requires a <= b < |s|
    ensures RangeOf(s, a, b) == s[a..b + 1]
    ensures RangeOf(s, a - |s|, b - |s|) == s[a..b + 1]
    ensures RangeOf(s, a, b - |s|) == s[a..b + 1]
    ensures RangeOf(s, a - |s|, b) == s[a..b + 1]
    ensures RangeOf(s, 0, -1) == s
  {
  }

  /** Ends beyond the list are drawn in; a range that ends before it begins is empty. */
  lemma RangeClamped(s: seq<Bytes>, start: int, stop: int)
    requires s != []
    ensures start < -|s| ==> RangeOf(s, start, stop) == RangeOf(s, 0, stop)
    ensures stop >= |s| ==> RangeOf(s, start, stop) == RangeOf(s, start, -1)
    ensures start >= |s| || stop < -|s| ==> RangeOf(s, start, stop) == []
    ensures 0 <= stop < start ==> RangeOf(s, start, stop) == []
  {
  }

  /** Pops take from the end they are named for, as many as there are up to the count, and drop the
      key when none are left. */
  lemma PopsTake(m: ListMap, key: Bytes, count: nat)
    requires key in m && count <= MAX_POP
    ensures var s := m[key].elems; var (front, taken) := PoppedFront(m, key, count);
            if count < |s| then key in front && taken == s[..count] && front[key].elems == s[count..]
            else taken == s && key !in front
    ensures var s := m[key].elems; var (back, taken) := PoppedBack(m, key, count);
            if count < |s| then
              && key in back && back[key].elems == s[..|s| - count]
              && |taken| == count && forall i :: 0 <= i < count ==> taken[i] == s[|s| - 1 - i]
            else key !in back && |taken| == |s| && forall i :: 0 <= i < |s| ==> taken[i] == s[|s| - 1 - i]
  {
    hide Reverse;
  }

  /** SORT leaves the elements in order, ascending or descending as asked, and every other list
      alone. */
  lemma SortedKey(m: ListMap, key: Bytes, asc: bool, alpha: bool)
    requires key in m && Sortable(asc, alpha, m[key].elems)
    ensures var r := Sorted(m, key, asc, alpha);
            && key in r && r == m[key := r[key]]
            && AllInOrder(asc, alpha, r[key].elems) && multiset(r[key].elems) == multiset(m[key].elems)
  {
    hide SortSlice, Sortable, AllInOrder;
    SortedList(asc, alpha, m[key].elems);
    if m[key].elems == [] {
      SortNothing(asc, alpha);
    }
  }

  lemma SortNothing(asc: bool, alpha: bool)
    ensures AllInOrder(asc, alpha, [])
  {
  }

  function NumberOf(s: Bytes): real
    requires ParseFloat(s).Some? && ParseFloat(s).value.Finite?
  {
    ParseFloat(s).value.r
  }

  /** By number that is: the numbers never fall, or never rise. */
  lemma SortedNumbers(m: ListMap, key: Bytes, asc: bool)
    requires key in m && forall i :: 0 <= i < |m[key].elems| ==>
               ParseFloat(m[key].elems[i]).Some? && ParseFloat(m[key].elems[i]).value.Finite?
    ensures key in Sorted(m, key, asc, false)
    ensures var r := Sorted(m, key, asc, false)[key].elems;
            && multiset(r) == multiset(m[key].elems)
            && (forall i :: 0 <= i < |r| ==> ParseFloat(r[i]).Some? && ParseFloat(r[i]).value.Finite?)
            && forall i, j :: 0 <= i < j < |r| ==>
                 if asc then NumberOf(r[i]) <= NumberOf(r[j]) else NumberOf(r[i]) >= NumberOf(r[j])
  {
    hide SortSlice, Sortable, Sorted;
    var s := m[key].elems;
    ComparableSortable(asc, false, s);
    SortedKey(m, key, asc, false);
    var r := Sorted(m, key, asc, false)[key].elems;
    SameElements(r, s);
    forall i | 0 <= i < |r| ensures ParseFloat(r[i]).Some? && ParseFloat(r[i]).value.Finite? {
      assert r[i] in s;
    }
    forall i, j | 0 <= i < j < |r|
      ensures if asc then NumberOf(r[i]) <= NumberOf(r[j]) else NumberOf(r[i]) >= NumberOf(r[j])
    {
      assert InOrder(asc, false, r[i], r[j]);
    }
  }

  /** By text: where two neighbours first differ, the earlier has the smaller byte, or the larger; and
      a text comes before its extensions, or after them. */
  lemma SortedTexts(m: ListMap, key: Bytes, asc: bool)
    requires key in m
    ensures key in Sorted(m, key, asc, true)
    ensures var r := Sorted(m, key, asc, true)[key].elems;
            && multiset(r) == multiset(m[key].elems)
            && forall i, j :: 0 <= i < j < |r| ==> if asc then Precedes(r[i], r[j]) else Precedes(r[j], r[i])
  {
    hide SortSlice, Sortable, Sorted, Precedes;
    ComparableSortable(asc, true, m[key].elems);
    SortedKey(m, key, asc, true);
    var r := Sorted(m, key, asc, true)[key].elems;
    forall i, j | 0 <= i < j < |r| ensures if asc then Precedes(r[i], r[j]) else Precedes(r[j], r[i]) {
      assert InOrder(asc, true, r[i], r[j]);
      LessIsPrecedes(r[i], r[j]);
      LessIsPrecedes(r[j], r[i]);
    }
  }

  // ---------- The store ----------

  class List {
    var items: map<Bytes, Deque<Bytes>>
    ghost var owner: map<object, Bytes>  // the key each ring and each buffer belongs to

    ghost predicate Valid()
      reads this, owner.Keys
    {
      && this !in owner
      && forall k :: k in items ==> items[k] in owner && items[k].items in owner && Owned(k) && items[k].Valid()
    }

    ghost predicate Owned(key: Bytes)
      requires key in items
      reads this, items[key]
    {
      && items[key] in owner && owner[items[key]] == key
      && items[key].items in owner && owner[items[key].items] == key
    }

    ghost function Abs(): ListMap
      reads this, items.Values
    {
      map k | k in items :: items[k].ring
    }

    constructor ()
      ensures Valid() && fresh(owner.Keys) && Abs() == map[]
    {
      items := map[];
      owner := map[];
    }

    /** Only the ring at `key` and its buffer may have changed. */
    twostate predicate OnlyAt(key: Bytes)
      requires old(Valid())
      reads this, owner.Keys
    {
      && items == old(items) && owner == old(owner) && key in items
      && forall k :: k in items && k != key ==> unchanged(items[k]) && unchanged(items[k].items)
    }

    twostate lemma OneRing(key: Bytes)
      requires old(Valid()) && OnlyAt(key)
      ensures forall k :: k in items && k != key ==> Owned(k) && items[k].Valid()
      ensures Abs() == old(Abs())[key := items[key].ring]
    {
      hide Deque.Valid;
      forall k | k in items && k != key
        ensures Owned(k) && items[k].Valid() && items[k].ring == old(items[k].ring)
      {
        assert old(items[k].Valid() && Owned(k));
      }
    }

    method Open(key: Bytes)
      requires Valid()
      modifies this
      ensures Valid() && key in items && fresh(owner.Keys - old(owner.Keys))
      ensures Abs() == old(Abs())[key := RingAt(old(Abs()), key)]
    {
      hide Deque.Valid, Abs;
      AbsAt(key);
      if key !in items {
        Add(key);
      }
    }

    lemma AbsAt(key: Bytes)
      ensures Abs().Keys == items.Keys
      ensures key in items ==> Abs()[key := RingAt(Abs(), key)] == Abs()
    {
    }

    method Add(key: Bytes)
      requires Valid() && key !in items
      modifies this
      ensures Valid() && key in items && fresh(owner.Keys - old(owner.Keys))
      ensures Abs() == old(Abs())[key := NewRing()]
    {
      hide Deque.Valid;
      var deque := new Deque<Bytes>();
      Hold(key, deque);
    }

    method Hold(key: Bytes, deque: Deque<Bytes>)
      requires Valid() && key !in items && deque.Valid() && deque !in owner && deque.items !in owner
      modifies this
      ensures Valid() && key in items && owner.Keys == old(owner.Keys) + {deque, deque.items}
      ensures Abs() == old(Abs())[key := deque.ring]
    {
      hide Deque.Valid, Abs, Owned;
      items := items[key := deque];
      owner := owner[deque := key];
      OthersHeld(key);
      Claim(key);
    }

    /** Only the key and its ring have been added. */
    twostate predicate Gained(key: Bytes)
      requires old(Valid())
      reads this, owner.Keys
    {
      && key !in old(items) && key in items && items[key] !in old(owner)
      && items == old(items)[key := items[key]] && owner == old(owner)[items[key] := key]
      && forall k :: k in old(items) ==> unchanged(items[k]) && unchanged(items[k].items)
    }

    twostate lemma OthersHeld(key: Bytes)
      requires old(Valid()) && Gained(key)
      ensures this !in owner && forall k :: k in items && k != key ==> Owned(k) && items[k].Valid()
      ensures Abs() == old(Abs())[key := items[key].ring]
    {
      hide Deque.Valid;
      forall k | k in items && k != key
        ensures Owned(k) && items[k].Valid() && items[k].ring == old(items[k].ring)
      {
        assert old(items[k].Valid() && Owned(k));
      }
    }

    /** Deleting a key keeps the store well formed. */
    method Close(key: Bytes)
      requires Valid()
      modifies this`items
      ensures Valid() && Abs() == old(Abs()) - {key}
    {
      hide Deque.Valid;
      items := items - {key};
    }

    /** After a push the ring at `key` may have a new buffer, which now belongs to the key. */
    method Claim(key: Bytes)
      requires this !in owner && key in items && items[key] in owner && owner[items[key]] == key
      requires items[key].Valid() && (items[key].items in owner ==> owner[items[key].items] == key)
      requires forall k :: k in items && k != key ==> Owned(k) && items[k].Valid()
      modifies this`owner
      ensures Valid() && owner == old(owner)[items[key].items := key] && Abs() == old(Abs())
    {
      hide Deque.Valid;
      owner := owner[items[key].items := key];
    }

    method PushFrontAt(key: Bytes, values: seq<Bytes>) returns (n: nat)
      requires Valid() && key in items
      modifies this`owner, owner.Keys
      ensures Valid() && key in items && fresh(owner.Keys - old(owner.Keys))
      ensures Abs() == old(Abs())[key := PushAllFront(old(Abs())[key], values)] && n == |Abs()[key].elems|
    {
      hide Deque.Valid, PushAllFront;
      PushEachFront(items[key], values);
      OneRing(key);
      Claim(key);
      n := items[key].size;
    }

    method PushBackAt(key: Bytes, values: seq<Bytes>) returns (n: nat, panicked: bool)
      requires Valid() && key in items
      modifies this`owner, owner.Keys
      ensures Valid() && key in items && fresh(owner.Keys - old(owner.Keys))
      ensures panicked == (values != [] && old(Abs())[key].Stuck())
      ensures Abs() == old(Abs())[key := if panicked || values == [] then old(Abs())[key]
                                         else PushAllBack(old(Abs())[key], values)]
      ensures n == |Abs()[key].elems|
    {
      hide Deque.Valid, PushAllBack;
      panicked := PushEachBack(items[key], values);
      OneRing(key);
      Claim(key);
      n := items[key].size;
    }

    method Lpush(key: Bytes, values: seq<Bytes>) returns (n: nat)
      requires Valid()
      modifies this, owner.Keys
      ensures Valid() && fresh(owner.Keys - old(owner.Keys))
      ensures Abs() == PushedFront(old(Abs()), key, values) && key in Abs() && n == |Abs()[key].elems|
    {
      hide Valid, PushAllFront, Owned;
      Open(key);
      n := PushFrontAt(key, values);
    }

    method Rpush(key: Bytes, values: seq<Bytes>) returns (n: nat, panicked: bool)
      requires Valid()
      modifies this, owner.Keys
      ensures Valid() && fresh(owner.Keys - old(owner.Keys))
      ensures panicked == PushBackPanics(old(Abs()), key, values)
      ensures if panicked then Abs() == old(Abs())
              else Abs() == PushedBack(old(Abs()), key, values) && key in Abs() && n == |Abs()[key].elems|
    {
      hide Valid, Abs, PushAllBack, Owned, RingAt, PushBackPanics, Ring.Stuck;
      PushedBackOpen(Abs(), key, values);
      Open(key);
      n, panicked := PushBackAt(key, values);
    }

    method PopFrontAt(key: Bytes, count: nat) returns (popped: seq<Bytes>, left: nat)
      requires Valid() && key in items
      modifies owner.Keys
      ensures Valid() && key in items && owner == old(owner)
      ensures var r := old(Abs())[key]; var n := Min(count, |r.elems|);
              && popped == r.elems[..n]
              && Abs() == old(Abs())[key := r.(elems := r.elems[n..])]
      ensures left == |Abs()[key].elems|
    {
      hide Deque.Valid, Min, Reverse;
      popped := PopEachFront(items[key], count);
      OneRing(key);
      left := items[key].size;
    }

    method PopBackAt(key: Bytes, count: nat) returns (popped: seq<Bytes>, left: nat)
      requires Valid() && key in items
      modifies owner.Keys
      ensures Valid() && key in items && owner == old(owner)
      ensures var r := old(Abs())[key]; var n := Min(count, |r.elems|);
              var rest := |r.elems| - n;
              && popped == Reverse(r.elems[rest..])
              && Abs() == old(Abs())[key := Ring(r.elems[..rest], r.capacity, r.offEnd && rest == |r.elems|)]
      ensures left == |Abs()[key].elems|
    {
      hide Deque.Valid, Min, Reverse;
      popped := PopEachBack(items[key], count);
      OneRing(key);
      left := items[key].size;
    }

    method Lpop(key: Bytes, count: int) returns (popped: seq<Bytes>, panicked: bool)
      requires Valid()
      modifies this, owner.Keys
      ensures Valid() && owner.Keys == old(owner.Keys)
      ensures panicked == PopPanics(old(Abs()), key, count)
      ensures if panicked then Abs() == old(Abs()) else (Abs(), popped) == PoppedFront(old(Abs()), key, count)
    {
      hide Valid, Abs, Reverse, Keep, PoppedFront, Min;
      AbsAt(key);
      if key !in items {
        PoppedFrontIs(Abs(), key, count);
        return [], false;
      }
      if count < 0 || MAX_POP < count {
        return [], true;
      }
      PoppedFrontIs(Abs(), key, count);
      var left;
      popped, left := PopFrontAt(key, count);
      if left == 0 {
        Close(key);
      }
      panicked := false;
    }

    method Rpop(key: Bytes, count: int) returns (popped: seq<Bytes>, panicked: bool)
      requires Valid()
      modifies this, owner.Keys
      ensures Valid() && owner.Keys == old(owner.Keys)
      ensures panicked == PopPanics(old(Abs()), key, count)
      ensures if panicked then Abs() == old(Abs()) else (Abs(), popped) == PoppedBack(old(Abs()), key, count)
    {
      hide Valid, Abs, Reverse, Keep, PoppedBack, Min;
      AbsAt(key);
      if key !in items {
        PoppedBackIs(Abs(), key, count);
        return [], false;
      }
      if count < 0 || MAX_POP < count {
        return [], true;
      }
      PoppedBackIs(Abs(), key, count);
      var left;
      popped, left := PopBackAt(key, count);
      if left == 0 {
        Close(key);
      }
      panicked := false;
    }

    method Llen(key: Bytes) returns (n: nat)
      requires Valid()
      ensures n == |RingAt(Abs(), key).elems|
    {
      return if key in items then items[key].size else 0;
    }

    method Lrange(key: Bytes, start: int, stop: int) returns (elems: seq<Bytes>, ok: bool)
      requires Valid()
      ensures ok == (key in Abs() && Abs()[key].elems != [])
      ensures elems == if ok then RangeOf(Abs()[key].elems, start, stop) else []
    {
      hide Deque.Valid;
      if key !in items || items[key].size == 0 {
        return [], false;
      }
      var deque := items[key];
      var lo, hi := Absolute(start, deque.size), Absolute(stop, deque.size);
      if lo < 0 {
        lo := 0;
      }
      if hi >= deque.size {
        hi := deque.size - 1;
      }
      if lo > hi {
        return [], true;
      }
      elems := Collect(deque, lo, hi + 1);
      ok := true;
    }

    method Sort(key: Bytes, asc: bool, alpha: bool)
      requires Valid()
      modifies this, owner.Keys
      ensures Valid() && owner.Keys == old(owner.Keys)
      ensures Abs() == Sorted(old(Abs()), key, asc, alpha)
    {
      hide Deque.Valid;
      if key !in items {
        return;
      }
      items[key].Sort(Comparator(asc, alpha));
      OneRing(key);
    }

    method Dump() returns (snapshot: map<Bytes, seq<Bytes>>)
      requires Valid()
      ensures snapshot == Dumped(Abs())
    {
      hide Deque.Valid, Owned;
      snapshot := map[];
      var todo := items.Keys;
      while todo != {}
        invariant todo <= items.Keys
        invariant snapshot == map k | k in Abs() && k !in todo && Abs()[k].elems != [] :: Abs()[k].elems
      {
        var key :| key in todo;
        todo := todo - {key};
        var deque := items[key];
        if deque.size != 0 {
          var elems := Collect(deque, 0, deque.size);
          assert elems == Abs()[key].elems;
          snapshot := snapshot[key := elems];
        }
      }
    }
  }

  // ---------- The loops over one ring ----------

  method PushEachFront(deque: Deque<Bytes>, values: seq<Bytes>)
    requires deque.Valid()
    modifies deque, deque.items
    ensures deque.Valid() && (deque.items == old(deque.items) || fresh(deque.items))
    ensures deque.ring == PushAllFront(old(deque.ring), values)
  {
    hide Deque.Valid;
    for i := 0 to |values|
      invariant deque.Valid() && (deque.items == old(deque.items) || fresh(deque.items))
      invariant PushAllFront(deque.ring, values[i..]) == PushAllFront(old(deque.ring), values)
    {
      assert values[i..][1..] == values[i + 1..];
      deque.PushFront(values[i]);
    }
  }

  method PushEachBack(deque: Deque<Bytes>, values: seq<Bytes>) returns (panicked: bool)
    requires deque.Valid()
    modifies deque, deque.items
    ensures deque.Valid() && (deque.items == old(deque.items) || fresh(deque.items))
    ensures panicked == (values != [] && old(deque.ring).Stuck())
    ensures deque.ring == if panicked || values == [] then old(deque.ring) else PushAllBack(old(deque.ring), values)
  {
    ghost var start := deque.ring;
    hide Deque.Valid;
    for i := 0 to |values|
      invariant deque.Valid() && (deque.items == old(deque.items) || fresh(deque.items))
      invariant if i == 0 then deque.ring == start else !start.Stuck() && !deque.ring.Stuck()
      invariant i > 0 ==> PushAllBack(deque.ring, values[i..]) == PushAllBack(start, values)
    {
      assert values[i..][1..] == values[i + 1..];
      panicked := deque.PushBack(values[i]);
      if panicked {
        return;
      }
    }
    panicked := false;
  }

  method PopEachFront(deque: Deque<Bytes>, count: nat) returns (popped: seq<Bytes>)
    requires deque.Valid()
    modifies deque, deque.items
    ensures deque.Valid() && deque.items == old(deque.items)
    ensures var n := Min(count, |old(deque.ring).elems|);
            && popped == old(deque.ring).elems[..n]
            && deque.ring == old(deque.ring).(elems := old(deque.ring).elems[n..])
  {
    hide Deque.Valid;
    popped := [];
    for i := 0 to count
      invariant deque.Valid() && deque.items == old(deque.items)
      invariant |popped| == i <= |old(deque.ring).elems| && popped == old(deque.ring).elems[..i]
      invariant deque.ring == old(deque.ring).(elems := old(deque.ring).elems[i..])
    {
      var value := deque.PopFront();
      if value == None {
        break;
      }
      popped := popped + [value.value];
    }
  }

  method PopEachBack(deque: Deque<Bytes>, count: nat) returns (popped: seq<Bytes>)
    requires deque.Valid()
    modifies deque, deque.items
    ensures deque.Valid() && deque.items == old(deque.items)
    ensures var r := old(deque.ring); var left := |r.elems| - Min(count, |r.elems|);
            && popped == Reverse(r.elems[left..])
            && deque.ring == Ring(r.elems[..left], r.capacity, r.offEnd && left == |r.elems|)
  {
    hide Deque.Valid, Reverse;
    popped := [];
    ghost var r := deque.ring;
    ghost var n := |r.elems|;
    for i := 0 to count
      invariant deque.Valid() && deque.items == old(deque.items)
      invariant |popped| == i <= n && forall j :: 0 <= j < i ==> popped[j] == r.elems[n - 1 - j]
      invariant deque.ring == Ring(r.elems[..n - i], r.capacity, r.offEnd && i == 0)
    {
      var value := deque.PopBack();
      if value == None {
        break;
      }
      popped := popped + [value.value];
    }
  }

  method Collect(deque: Deque<Bytes>, lo: nat, hi: nat) returns (elems: seq<Bytes>)
    requires deque.Valid() && lo <= hi <= deque.size
    ensures elems == deque.ring.elems[lo..hi]
  {
    hide Deque.Valid;
    elems := [];
    for i := lo to hi
      invariant elems == deque.ring.elems[lo..i]
    {
      var pos := deque.Index(i);
      elems := elems + [deque.items[pos]];
    }
  }
}
