/** The growing ring buffer, and the sequence it stands for. */
module Deques {
  import opened ByteStrings
  import opened Sorting

  /** What a ring holds, front first; its capacity; and whether its tail index stands at
      `capacity`, one past the last slot, where sorting a full ring leaves it. */
  datatype Ring<T> = Ring(elems: seq<T>, capacity: nat, offEnd: bool)
  {
    function Grow(): Ring<T> {
      if |elems| == capacity then Ring(elems, 2 * capacity, false) else this
    }

    function PushFront(x: T): Ring<T> {
      Grow().(elems := [x] + elems)
    }

    /** The write at the tail index is out of range exactly when the tail is off the end of a
        ring that has room, since then nothing is resized first. */
    predicate Stuck() {
      offEnd && |elems| != capacity
    }

    function PushBack(x: T): Ring<T>
      requires !Stuck()
    {
      Ring(elems + [x], Grow().capacity, false)
    }

    function PopFront(): Ring<T> {
      if elems == [] then this else this.(elems := elems[1..])
    }

    function PopBack(): Ring<T> {
      if elems == [] then this else Ring(elems[..|elems| - 1], capacity, false)
    }

    function Sort(less: (T, T) -> bool): Ring<T> {
      if elems == [] then this else Ring(SortSlice(less, elems), capacity, |elems| == capacity)
    }
  }

  function NewRing<T>(): Ring<T> {
    Ring([], 4, false)
  }

  // What a run has cost: elements copied by resizing, resizes, pushes, and the largest size.
  datatype Meter = Meter(copied: nat, resizes: nat, pushes: nat, peak: nat)
  {
    function Grown(size: nat): Meter {
      this.(copied := copied + size, resizes := resizes + 1)
    }

    function Put(size: nat): Meter {
      this.(pushes := pushes + 1, peak := if peak < size + 1 then size + 1 else peak)
    }

    function Push(full: bool, size: nat): Meter {
      (if full then Grown(size) else this).Put(size)
    }
  }

  const FREE: Meter := Meter(0, 0, 0, 0)

  class Deque<T(0)> {
    var items: array<T>
    var head: nat
    var tail: nat
    var size: nat
    var capacity: nat
    ghost var ring: Ring<T>  // what the fields stand for
    ghost var meter: Meter   // what the operations have cost, as their loops count it

    /** The slot of element i; the program computes it as (head + i) % capacity. */
    ghost function Slot(i: nat): nat
      reads this
    {
      if head + i < capacity then head + i else head + i - capacity
    }

    ghost predicate Shape()
      reads this
    {
      && 0 < capacity == items.Length
      && head < capacity && size <= capacity
      && (tail == Slot(size) || (tail == capacity && Slot(size) == 0))
    }

    ghost function Elems(): (s: seq<T>)
      requires Shape()
      reads this, items
      ensures |s| == size
      ensures forall i :: 0 <= i < size ==> s[i] == items[Slot(i)]
    {
      if head + size <= capacity then items[head..head + size]
      else items[head..] + items[..head + size - capacity]
    }

    ghost predicate Valid()
      reads this, items
      ensures Valid() ==> size == |ring.elems| && capacity == ring.capacity
    {
      Shape() && ring == Ring(Elems(), capacity, tail == capacity)
    }

    constructor ()
      ensures Valid() && fresh(items) && ring == NewRing() && meter == FREE
    {
      items := new T[4];
      head, tail, size, capacity := 0, 0, 0, 4;
      ring, meter := NewRing(), FREE;
    }

    method Index(i: nat) returns (pos: nat)
      requires Valid() && i < size
      ensures pos < items.Length && items[pos] == ring.elems[i]
    {
      pos := (head + i) % capacity;
      Mod(head + i, capacity);
    }

    method ShiftLeft(pos: nat) returns (left: nat)
      requires 0 < capacity && pos <= capacity
      ensures left == if pos == 0 then capacity - 1 else pos - 1
    {
      left := (pos - 1 + capacity) % capacity;
      Mod(pos - 1 + capacity, capacity);
    }

    method ShiftRight(pos: nat) returns (right: nat)
      requires pos < capacity
      ensures right == if pos + 1 == capacity then 0 else pos + 1
    {
      right := (pos + 1) % capacity;
      Mod(pos + 1, capacity);
    }

    /** The copy loop of resize and of Sort. */
    method CopyTo(target: array<T>) returns (ghost copied: nat)
      requires Valid() && size <= target.Length && target != items
      modifies target
      ensures target[..size] == ring.elems && copied == size
    {
      hide Valid;
      copied := 0;
      for i := 0 to size
        invariant copied == i && forall k :: 0 <= k < i ==> target[k] == ring.elems[k]
      {
        var pos := Index(i);
        target[i] := items[pos];
        copied := copied + 1;
      }
    }

    method Resize()
      requires Valid() && size == capacity
      modifies this
      ensures Valid() && fresh(items) && ring == old(ring).Grow() && size < capacity
      ensures size == old(size) && meter == old(meter).Grown(size)
    {
      var cap := 2 * capacity;
      var bigger := new T[cap];
      ghost var copied := CopyTo(bigger);
      items, capacity, head, tail := bigger, cap, 0, size;
      ring := ring.Grow();
      meter := meter.(copied := meter.copied + copied, resizes := meter.resizes + 1);
    }

    method MakeRoom()
      requires Valid()
      modifies this
      ensures Valid() && (items == old(items) || fresh(items))
      ensures ring == old(ring).Grow() && size < capacity && size == old(size)
      ensures meter == if old(size == capacity) then old(meter).Grown(size) else old(meter)
    {
      if size == capacity {
        Resize();
      }
    }

    method PushFront(item: T)
      requires Valid()
      modifies this, items
      ensures Valid() && (items == old(items) || fresh(items))
      ensures ring == old(ring).PushFront(item)
      ensures meter == old(meter).Push(old(size == capacity), old(size))
    {
      hide Valid;
      MakeRoom();
      PutFront(item);
    }

    method PutFront(item: T)
      requires Valid() && size < capacity
      modifies this, items
      ensures Valid() && items == old(items)
      ensures ring == old(ring).(elems := [item] + old(ring).elems) && meter == old(meter).Put(old(size))
    {
      hide Elems;
      head := ShiftLeft(head);
      items[head] := item;
      size := size + 1;
      meter := meter.Put(size - 1);
      ring := ring.(elems := [item] + ring.elems);
      forall i | 0 <= i < size ensures Elems()[i] == ring.elems[i] {
        assert i > 0 ==> ring.elems[i] == old(Elems())[i - 1];
      }
    }

    method PushBack(item: T) returns (panicked: bool)
      requires Valid()
      modifies this, items
      ensures Valid() && (items == old(items) || fresh(items))
      ensures panicked == old(ring).Stuck()
      ensures ring == if panicked then old(ring) else old(ring).PushBack(item)
      ensures !panicked ==> meter == old(meter).Push(old(size == capacity), old(size))
    {
      hide Valid;
      MakeRoom();
      panicked := PutBack(item);
    }

    /** Panics when the tail index is out of range. */
    method PutBack(item: T) returns (panicked: bool)
      requires Valid() && size < capacity
      modifies this, items
      ensures Valid() && items == old(items)
      ensures panicked == old(ring).offEnd
      ensures ring == if panicked then old(ring)
                      else Ring(old(ring).elems + [item], old(ring).capacity, false)
      ensures meter == if panicked then old(meter) else old(meter).Put(old(size))
    {
      hide Elems;
      if tail >= items.Length {
        return true;
      }
      items[tail] := item;
      tail := ShiftRight(tail);
      size := size + 1;
      meter := meter.Put(size - 1);
      ring := ring.(elems := ring.elems + [item]);
      assert Elems() == ring.elems;
      return false;
    }

    method PopFront() returns (value: Option<T>)
      requires Valid()
      modifies this, items
      ensures Valid() && items == old(items)
      ensures value == if old(ring).elems == [] then None else Some(old(ring).elems[0])
      ensures ring == old(ring).PopFront() && meter == old(meter)
    {
      hide Elems;
      if size == 0 {
        return None;
      }
      var zero: T := *;
      value := Some(items[head]);
      items[head] := zero;
      head := ShiftRight(head);
      size := size - 1;
      ring := ring.PopFront();
      assert Elems() == ring.elems;
    }

    method PopBack() returns (value: Option<T>)
      requires Valid()
      modifies this, items
      ensures Valid() && items == old(items)
      ensures value == if old(ring).elems == [] then None else Some(old(ring).elems[|old(ring).elems| - 1])
      ensures ring == old(ring).PopBack() && meter == old(meter)
    {
      hide Elems;
      if size == 0 {
        return None;
      }
      var zero: T := *;
      tail := ShiftLeft(tail);
      value := Some(items[tail]);
      items[tail] := zero;
      size := size - 1;
      ring := ring.PopBack();
      assert Elems() == ring.elems;
    }

    /** The program sets the tail to `size`, which is off the end when the ring is full. */
    method Sort(less: (T, T) -> bool)
      requires Valid()
      modifies this, items
      ensures Valid() && items == old(items)
      ensures ring == old(ring).Sort(less) && meter == old(meter)
    {
      hide SortSlice;
      if size == 0 {
        return;
      }
      var temp := new T[size];
      ghost var copied := CopyTo(temp);
      assert temp[..] == Elems();
      InsertionSort(temp, less);
      Relay(temp);
    }

    method Relay(temp: array<T>)
      requires Valid() && 0 < size && temp.Length == size && temp != items
      modifies this, items
      ensures Valid() && items == old(items)
      ensures ring == Ring(old(temp[..]), old(capacity), old(size == capacity)) && meter == old(meter)
    {
      hide Elems;
      head := 0;
      tail := size;
      for i := 0 to size
        invariant unchanged(`items) && unchanged(`size) && unchanged(`capacity) && unchanged(`meter) && head == 0 && tail == size
        invariant forall k :: 0 <= k < i ==> items[k] == temp[k]
      {
        items[i] := temp[i];
      }
      ring := Ring(temp[..], capacity, size == capacity);
      assert Elems() == ring.elems;
    }
  }

  // ---------- Runs of a ring ----------

  datatype Op<!T> = OpPushFront(x: T) | OpPushBack(x: T) | OpPopFront | OpPopBack | OpSort(less: (T, T) -> bool)

  function Step<T>(r: Ring<T>, op: Op<T>): Option<Ring<T>> {
    match op
    case OpPushFront(x) => Some(r.PushFront(x))
    case OpPushBack(x) => if r.Stuck() then None else Some(r.PushBack(x))
    case OpPopFront => Some(r.PopFront())
    case OpPopBack => Some(r.PopBack())
    case OpSort(less) => Some(r.Sort(less))
  }

  /** The ring and the cost after a run; None if the run panics on the way. */
  function Run<T>(r: Ring<T>, m: Meter, ops: seq<Op<T>>): Option<(Ring<T>, Meter)>
    decreases |ops|
  {
    if ops == [] then Some((r, m))
    else
      match Step(r, ops[0])
      case None => None
      case Some(r') =>
        var push := ops[0].OpPushFront? || ops[0].OpPushBack?;
        Run(r', if push then m.Push(|r.elems| == r.capacity, |r.elems|) else m, ops[1..])
  }

  function Pow2(n: nat): nat {
    if n == 0 then 1 else 2 * Pow2(n - 1)
  }

  ghost predicate Paid<T>(r: Ring<T>, m: Meter) {
    && r.capacity == 4 + m.copied == 4 * Pow2(m.resizes)
    && |r.elems| <= r.capacity && |r.elems| <= m.peak <= m.pushes
    && (m.resizes == 0 || r.capacity < 2 * m.peak)
  }

  lemma {:induction false} RunPaid<T>(r: Ring<T>, m: Meter, ops: seq<Op<T>>)
    requires Paid(r, m) && Run(r, m, ops).Some?
    ensures Paid(Run(r, m, ops).value.0, Run(r, m, ops).value.1)
    decreases |ops|
  {
    if ops != [] {
      var r' := Step(r, ops[0]).value;
      var push := ops[0].OpPushFront? || ops[0].OpPushBack?;
      RunPaid(r', if push then m.Push(|r.elems| == r.capacity, |r.elems|) else m, ops[1..]);
    }
  }

  /** Growth is amortised: whatever the run, the capacity is 4 doubled once a resize and is
      either 4 or less than twice the largest size ever held; all resizes together copied
      capacity - 4 elements, fewer than two a push. */
  lemma AmortisedGrowth<T>(ops: seq<Op<T>>)
    requires Run(NewRing<T>(), FREE, ops).Some?
    ensures var (r, m) := Run(NewRing<T>(), FREE, ops).value;
            && r.capacity == 4 * Pow2(m.resizes)
            && (r.capacity == 4 || r.capacity < 2 * m.peak)
            && m.copied == r.capacity - 4
            && (m.resizes > 0 ==> m.copied < 2 * m.pushes)
  {
    RunPaid(NewRing<T>(), FREE, ops);
  }

  /** No run that leaves full rings unsorted panics. */
  lemma {:induction false} UnsortedFullNeverPanics<T>(r: Ring<T>, m: Meter, ops: seq<Op<T>>)
    requires !r.offEnd
    requires forall i :: 0 <= i < |ops| && ops[i].OpSort? && Run(r, m, ops[..i]).Some?
               ==> var s := Run(r, m, ops[..i]).value.0; s.elems == [] || |s.elems| < s.capacity
    ensures Run(r, m, ops).Some?
    decreases |ops|
  {
    if ops != [] {
      assert ops[..0] == [];
      var r' := Step(r, ops[0]).value;
      var push := ops[0].OpPushFront? || ops[0].OpPushBack?;
      var m' := if push then m.Push(|r.elems| == r.capacity, |r.elems|) else m;
      if ops[0].OpSort? {
        assert Run(r, m, ops[..0]).value.0 == r;
      }
      forall i | 0 <= i < |ops[1..]| && ops[1..][i].OpSort? && Run(r', m', ops[1..][..i]).Some?
        ensures var s := Run(r', m', ops[1..][..i]).value.0; s.elems == [] || |s.elems| < s.capacity
      {
        assert ops[..i + 1][1..] == ops[1..][..i];
        assert ops[..i + 1][0] == ops[0];
      }
      UnsortedFullNeverPanics(r', m', ops[1..]);
    }
  }

  /** Four pushes, a sort, a pop at the front: then a push at the back panics. */
  lemma SortedFullPanics(less: (int, int) -> bool)
    ensures var full := NewRing().PushBack(1).PushBack(2).PushBack(3).PushBack(4);
            Step(full.Sort(less).PopFront(), OpPushBack(5)).None?
  {
  }

  function PopFronts<T>(r: Ring<T>, n: nat): Ring<T>
    decreases n
  {
    if n == 0 then r else PopFronts(r.PopFront(), n - 1)
  }

  lemma {:induction false} PopFrontsKeep<T>(r: Ring<T>, n: nat)
    ensures PopFronts(r, n).capacity == r.capacity && PopFronts(r, n).offEnd == r.offEnd
    ensures |PopFronts(r, n).elems| <= |r.elems|
    ensures n > 0 && r.elems != [] ==> |PopFronts(r, n).elems| < |r.elems|
    decreases n
  {
    if n > 0 {
      PopFrontsKeep(r.PopFront(), n - 1);
    }
  }

  /** Exactly: from a ring that is not stuck, a sort and n pops at the front leave one whose next
      push at the back panics if and only if the ring was full and something was popped. */
  lemma StuckAfterSortExactly<T>(r: Ring<T>, less: (T, T) -> bool, n: nat)
    requires 0 < r.capacity && |r.elems| <= r.capacity && !r.Stuck()
    ensures PopFronts(r.Sort(less), n).Stuck() <==> |r.elems| == r.capacity && n > 0
  {
    PopFrontsKeep(r.Sort(less), n);
  }

  lemma Mod(n: nat, c: nat)
    requires 0 < c && n < 2 * c
    ensures n % c == if n < c then n else n - c
  {
    if c <= n {
      assert n == 1 * c + (n - c);
    }
  }
}
