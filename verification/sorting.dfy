/** sort.Slice as its insertion sort, for an arbitrary comparator, and the list comparators. */
module Sorting {
  import opened ByteStrings

  /** Where x comes to rest when it moves left from the end of s past all it is less than. */
  function Place<T>(less: (T, T) -> bool, s: seq<T>, x: T): (k: nat)
    ensures k <= |s|
    ensures k > 0 ==> !less(x, s[k - 1])
    ensures forall j :: k <= j < |s| ==> less(x, s[j])
  {
    if s == [] || !less(x, s[|s| - 1]) then |s| else Place(less, s[..|s| - 1], x)
  }

  function Insert<T>(less: (T, T) -> bool, s: seq<T>, x: T): (r: seq<T>)
    ensures |r| == |s| + 1
  {
    var k := Place(less, s, x);
    s[..k] + [x] + s[k..]
  }

  function SortSlice<T>(less: (T, T) -> bool, s: seq<T>): (r: seq<T>)
    ensures |r| == |s|
  {
    if s == [] then [] else Insert(less, SortSlice(less, s[..|s| - 1]), s[|s| - 1])
  }

  lemma InsertPermutes<T>(less: (T, T) -> bool, s: seq<T>, x: T)
    ensures multiset(Insert(less, s, x)) == multiset(s) + multiset{x}
  {
    var k := Place(less, s, x);
    assert s == s[..k] + s[k..];
  }

  /** Whatever the comparator, the elements stay the same. */
  lemma {:induction false} SortSlicePermutes<T>(less: (T, T) -> bool, s: seq<T>)
    ensures multiset(SortSlice(less, s)) == multiset(s)
  {
    if s != [] {
      var rest, x := s[..|s| - 1], s[|s| - 1];
      SortSlicePermutes(less, rest);
      InsertPermutes(less, SortSlice(less, rest), x);
      assert s == rest + [x];
    }
  }

  /** For the elements of `dom`, an insertion that compares with `less` keeps `le` between every
      earlier and every later element: between neighbours, and past the place where it stops. */
  ghost predicate Decides<T(!new)>(less: (T, T) -> bool, le: (T, T) -> bool, dom: seq<T>) {
    && (forall x, y {:trigger less(x, y)} | x in dom && y in dom :: if less(x, y) then le(x, y) else le(y, x))
    && (forall x, y, z {:trigger le(x, y), less(z, y)} | x in dom && y in dom && z in dom && le(x, y) && !less(z, y) :: le(x, z))
  }

  ghost predicate Ordered<T(!new)>(le: (T, T) -> bool, s: seq<T>) {
    forall i, j :: 0 <= i < j < |s| ==> le(s[i], s[j])
  }

  lemma InsertOrdered<T(!new)>(less: (T, T) -> bool, le: (T, T) -> bool, dom: seq<T>, s: seq<T>, x: T)
    requires Decides(less, le, dom) && Ordered(le, s)
    requires x in dom && forall i :: 0 <= i < |s| ==> s[i] in dom
    ensures Ordered(le, Insert(less, s, x))
    ensures forall i :: 0 <= i <= |s| ==> Insert(less, s, x)[i] in dom
  {
    var k, r := Place(less, s, x), Insert(less, s, x);
    forall i | 0 <= i < k ensures le(s[i], x) {
      assert i < k - 1 ==> le(s[i], s[k - 1]);
    }
    forall i, j | 0 <= i < j <= |s| ensures le(r[i], r[j]) {
      assert r[i] == if i < k then s[i] else if i == k then x else s[i - 1];
      assert r[j] == if j < k then s[j] else if j == k then x else s[j - 1];
    }
  }

  /** Sorting with a comparator that decides an order puts the slice in that order. */
  lemma {:induction false} SortSliceOrdered<T(!new)>(less: (T, T) -> bool, le: (T, T) -> bool, dom: seq<T>, s: seq<T>)
    requires Decides(less, le, dom)
    requires forall i :: 0 <= i < |s| ==> s[i] in dom
    ensures Ordered(le, SortSlice(less, s))
    ensures forall i :: 0 <= i < |s| ==> SortSlice(less, s)[i] in dom
  {
    if s != [] {
      var rest := s[..|s| - 1];
      SortSliceOrdered(less, le, dom, rest);
      InsertOrdered(less, le, dom, SortSlice(less, rest), s[|s| - 1]);
    }
  }

  /** x comes before z in s. */
  ghost predicate Before<T(!new)>(s: seq<T>, x: T, z: T) {
    exists i, j :: 0 <= i < j < |s| && s[i] == x && s[j] == z
  }

  /** Elements sorted once never change their relative order when more are inserted. */
  lemma {:induction false} SortSliceKeepsOrder<T(!new)>(less: (T, T) -> bool, a: seq<T>, b: seq<T>, x: T, z: T)
    requires Before(SortSlice(less, a), x, z)
    ensures Before(SortSlice(less, a + b), x, z)
    decreases |b|
  {
    if b == [] {
      assert a + b == a;
    } else {
      var front, last := b[..|b| - 1], b[|b| - 1];
      SortSliceKeepsOrder(less, a, front, x, z);
      assert (a + b)[..|a + b| - 1] == a + front;
      InsertKeepsOrder(less, SortSlice(less, a + front), last, x, z);
    }
  }

  lemma InsertKeepsOrder<T(!new)>(less: (T, T) -> bool, s: seq<T>, last: T, x: T, z: T)
    requires Before(s, x, z)
    ensures Before(Insert(less, s, last), x, z)
  {
    var k, r := Place(less, s, last), Insert(less, s, last);
    var i, j :| 0 <= i < j < |s| && s[i] == x && s[j] == z;
    assert r[if i < k then i else i + 1] == x && r[if j < k then j else j + 1] == z;
  }

  /** In place: the element at i moves left by swaps until its left neighbour is not greater. */
  method InsertionSort<T>(a: array<T>, less: (T, T) -> bool)
    modifies a
    ensures a[..] == SortSlice(less, old(a[..]))
  {
    ghost var was := a[..];
    for i := 0 to a.Length
      invariant a[..i] == SortSlice(less, was[..i])
      invariant forall k :: i <= k < a.Length ==> a[k] == was[k]
    {
      SortSliceNext(less, was, i);
      Sink(a, i, less);
    }
    assert a[..] == a[..a.Length] && was == was[..a.Length];
  }

  method Sink<T>(a: array<T>, i: nat, less: (T, T) -> bool)
    requires i < a.Length
    modifies a
    ensures a[..i + 1] == Insert(less, old(a[..i]), old(a[i]))
    ensures forall k :: i < k < a.Length ==> a[k] == old(a[k])
  {
    hide Place;
    ghost var done := a[..i];
    var x, j := a[i], i;
    assert done[..i] == done;
    while j > 0 && less(a[j], a[j - 1])
      invariant 0 <= j <= i && a[j] == x
      invariant forall k :: 0 <= k < j ==> a[k] == done[k]
      invariant forall k :: j < k <= i ==> a[k] == done[k - 1]
      invariant forall k :: i < k < a.Length ==> a[k] == old(a[k])
      invariant Place(less, done, x) == Place(less, done[..j], x)
    {
      PlaceFurther(less, done, j, x);
      a[j], a[j - 1] := a[j - 1], a[j];
      j := j - 1;
    }
    PlaceHere(less, done, j, x);
    ghost var r := done[..j] + [x] + done[j..];
    forall k | 0 <= k <= i ensures a[k] == r[k] {
    }
  }

  lemma PlaceFurther<T>(less: (T, T) -> bool, s: seq<T>, j: nat, x: T)
    requires 0 < j <= |s| && less(x, s[j - 1])
    ensures Place(less, s[..j], x) == Place(less, s[..j - 1], x)
  {
    assert s[..j][..j - 1] == s[..j - 1];
  }

  lemma PlaceHere<T>(less: (T, T) -> bool, s: seq<T>, j: nat, x: T)
    requires j <= |s| && (j > 0 ==> !less(x, s[j - 1]))
    ensures Place(less, s[..j], x) == j
  {
  }

  lemma SortSliceNext<T>(less: (T, T) -> bool, s: seq<T>, i: nat)
    requires i < |s|
    ensures SortSlice(less, s[..i + 1]) == Insert(less, SortSlice(less, s[..i]), s[i])
  {
    assert s[..i + 1][..i] == s[..i];
  }

  // ---------- The comparators of SORT ----------

  /** Lexicographic order of byte strings. */
  predicate LessBytes(a: Bytes, b: Bytes) {
    b != [] && (a == [] || a[0] < b[0] || (a[0] == b[0] && LessBytes(a[1..], b[1..])))
  }

  /** Byte order without the recursion: an extension, or a larger byte at the first difference. */
  ghost predicate Precedes(a: Bytes, b: Bytes) {
    a <= b || exists i :: 0 <= i < |a| && i < |b| && a[..i] == b[..i] && a[i] as int < b[i] as int
  }

  lemma {:induction false} LessIsPrecedes(a: Bytes, b: Bytes)
    ensures Precedes(a, b) <==> !LessBytes(b, a)
    ensures LessBytes(a, b) ==> Precedes(a, b) && a != b
  {
    if a != [] && b != [] && a[0] == b[0] {
      LessIsPrecedes(a[1..], b[1..]);
      if i :| 0 <= i < |a| && i < |b| && a[..i] == b[..i] && a[i] as int < b[i] as int {
        assert i > 0 && a[1..][..i - 1] == a[..i][1..] && b[1..][..i - 1] == b[..i][1..];
        assert a[1..][i - 1] as int < b[1..][i - 1] as int;
      }
      if i :| 0 <= i < |a| - 1 && i < |b| - 1 && a[1..][..i] == b[1..][..i] && a[1..][i] as int < b[1..][i] as int {
        assert a[..i + 1] == [a[0]] + a[1..][..i] && b[..i + 1] == [b[0]] + b[1..][..i];
        assert a[i + 1] as int < b[i + 1] as int;
      }
      assert a == [a[0]] + a[1..] && b == [b[0]] + b[1..];
      assert a <= b <==> a[1..] <= b[1..];
    } else if a != [] && b != [] {
      assert a[..0] == b[..0] == [];
    }
    LessBytesTotal(a, b);
  }

  datatype Float = NaN | NegInf | Finite(r: real) | PosInf

  predicate LessFloat(a: Float, b: Float) {
    match (a, b)
    case (NaN, _) => false
    case (_, NaN) => false
    case (_, NegInf) => false
    case (NegInf, _) => true
    case (PosInf, _) => false
    case (_, PosInf) => true
    case (Finite(x), Finite(y)) => x < y
  }

  // strconv.ParseFloat(s, 64); which texts parse, and to what, is left open.
  const ParseFloat: Bytes -> Option<Float>

  predicate Smaller(alpha: bool, a: Bytes, b: Bytes) {
    if !alpha && ParseFloat(a).Some? && ParseFloat(b).Some? then
      LessFloat(ParseFloat(a).value, ParseFloat(b).value)
    else LessBytes(a, b)
  }

  /** Two numbers compare as numbers, infinities at the ends and NaN with nothing; anything else, or
      anything at all with ALPHA, compares as text. */
  lemma ComparedAs(a: Bytes, b: Bytes)
    ensures Smaller(true, a, b) <==> a != b && Precedes(a, b)
    ensures ParseFloat(a).None? || ParseFloat(b).None? ==> (Smaller(false, a, b) <==> a != b && Precedes(a, b))
    ensures ParseFloat(a).Some? && ParseFloat(b).Some? ==>
              (Smaller(false, a, b) <==>
                 match (ParseFloat(a).value, ParseFloat(b).value)
                 case (Finite(x), Finite(y)) => x < y
                 case (NegInf, y) => y.Finite? || y == PosInf
                 case (x, PosInf) => x.Finite? || x == NegInf
                 case _ => false)
  {
    LessIsPrecedes(a, b);
    LessIsPrecedes(b, a);
    LessBytesTotal(a, b);
  }

  /** The comparator of List.Sort; the descending one is the negation, so it holds of ties. */
  function Comparator(asc: bool, alpha: bool): (Bytes, Bytes) -> bool {
    (a, b) => if asc then Smaller(alpha, a, b) else !Smaller(alpha, a, b)
  }

  predicate IsNumber(s: Bytes) {
    ParseFloat(s).Some? && ParseFloat(s).value != NaN
  }

  /** The lists compared as text throughout, or as numbers throughout. */
  predicate Comparable(alpha: bool, s: seq<Bytes>) {
    || alpha
    || (forall i :: 0 <= i < |s| ==> IsNumber(s[i]))
    || (forall i :: 0 <= i < |s| ==> ParseFloat(s[i]).None?)
  }

  lemma LessBytesTotal(a: Bytes, b: Bytes)
    ensures !(LessBytes(a, b) && LessBytes(b, a))
    ensures a == b || LessBytes(a, b) || LessBytes(b, a)
    ensures !LessBytes(a, a)
  {
    if a != [] && b != [] && a[0] == b[0] {
      LessBytesTotal(a[1..], b[1..]);
    }
    if a != [] {
      LessBytesTotal(a[1..], a[1..]);
    }
  }

  lemma {:induction false} LessBytesTransitive(a: Bytes, b: Bytes, c: Bytes)
    requires !LessBytes(b, a) && !LessBytes(c, b)
    ensures !LessBytes(c, a)
  {
    if a != [] && b != [] && c != [] && a[0] == b[0] == c[0] {
      LessBytesTransitive(a[1..], b[1..], c[1..]);
    }
  }

  /** Whether an element may come before another in a sorted list. */
  predicate InOrder(asc: bool, alpha: bool, before: Bytes, after: Bytes) {
    if asc then !Smaller(alpha, after, before) else !Smaller(alpha, before, after)
  }

  ghost predicate AllInOrder(asc: bool, alpha: bool, s: seq<Bytes>) {
    forall i, j :: 0 <= i < j < |s| ==> InOrder(asc, alpha, s[i], s[j])
  }

  /** What SORT needs of the elements: ascending, that "not smaller than" be transitive among
      them; descending, that "smaller than" be. */
  ghost predicate Sortable(asc: bool, alpha: bool, s: seq<Bytes>) {
    var less := Comparator(asc, alpha);
    forall x, y, z {:trigger less(y, x), less(z, y)} ::
      x in s && y in s && z in s && !less(y, x) && !less(z, y) ==> !less(z, x)
  }

  lemma SmallerAsymmetric(alpha: bool, x: Bytes, y: Bytes)
    ensures !(Smaller(alpha, x, y) && Smaller(alpha, y, x))
  {
    LessBytesTotal(x, y);
  }

  /** Sortable elements come out in order, and they are the same elements. */
  lemma SortedList(asc: bool, alpha: bool, s: seq<Bytes>)
    requires Sortable(asc, alpha, s)
    ensures AllInOrder(asc, alpha, SortSlice(Comparator(asc, alpha), s))
    ensures multiset(SortSlice(Comparator(asc, alpha), s)) == multiset(s)
  {
    var less, le := Comparator(asc, alpha), (a, b) => InOrder(asc, alpha, a, b);
    forall x, y | x in s && y in s ensures if less(x, y) then le(x, y) else le(y, x) {
      SmallerAsymmetric(alpha, x, y);
    }
    forall x, y, z | x in s && y in s && z in s && le(x, y) && !less(z, y) ensures le(x, z) {
      if asc {
        assert le(x, y) == !less(y, x) && le(x, z) == !less(z, x);
      } else {
        assert le(x, y) == less(x, y) && le(x, z) == less(x, z);
      }
    }
    assert Decides(less, le, s);
    SortSliceOrdered(less, le, s, s);
    SortSlicePermutes(less, s);
    var r := SortSlice(less, s);
    forall i, j | 0 <= i < j < |r| ensures InOrder(asc, alpha, r[i], r[j]) {
      assert le(r[i], r[j]);
    }
  }

  /** Exactly: SORT puts every arrangement of the elements in order if and only if they are
      sortable. */
  lemma SortsExactly(asc: bool, alpha: bool, s: seq<Bytes>)
    ensures Sortable(asc, alpha, s) <==>
              forall p: seq<Bytes> :: multiset(p) == multiset(s) ==> AllInOrder(asc, alpha, SortSlice(Comparator(asc, alpha), p))
  {
    hide SortSlice, InOrder;
    var less := Comparator(asc, alpha);
    if Sortable(asc, alpha, s) {
      forall p: seq<Bytes> | multiset(p) == multiset(s) ensures AllInOrder(asc, alpha, SortSlice(less, p)) {
        SameElements(p, s);
        SortedList(asc, alpha, p);
      }
    } else {
      var x, y, z :| x in s && y in s && z in s && !less(y, x) && !less(z, y) && less(z, x);
      var p := DisorderedArrangement(asc, alpha, s, x, y, z);
    }
  }

  lemma SameElements(p: seq<Bytes>, s: seq<Bytes>)
    requires multiset(p) == multiset(s)
    ensures forall x :: x in p <==> x in s
  {
    assert forall x :: x in p <==> x in multiset(p);
    assert forall x :: x in s <==> x in multiset(s);
  }

  /** Three elements that break transitivity make SORT fail on an arrangement beginning with them. */
  lemma DisorderedArrangement(asc: bool, alpha: bool, s: seq<Bytes>, x: Bytes, y: Bytes, z: Bytes) returns (p: seq<Bytes>)
    requires x in s && y in s && z in s
    requires var less := Comparator(asc, alpha); !less(y, x) && !less(z, y) && less(z, x)
    ensures multiset(p) == multiset(s)
    ensures !AllInOrder(asc, alpha, SortSlice(Comparator(asc, alpha), p))
  {
    hide SortSlice, Smaller;
    ThreeApart(asc, alpha, x, y, z);
    var rest := ThreeOut(s, x, y, z);
    if asc {
      p := [x, y, z] + rest;
      DisorderStays(asc, alpha, x, y, z, [x, y, z], rest);
    } else {
      p := [x, z, y] + rest;
      DisorderStays(asc, alpha, x, y, z, [x, z, y], rest);
    }
  }

  lemma ThreeOut(s: seq<Bytes>, x: Bytes, y: Bytes, z: Bytes) returns (rest: seq<Bytes>)
    requires x in s && y in s && z in s && x != y && y != z && x != z
    ensures multiset([x, y, z] + rest) == multiset(s) == multiset([x, z, y] + rest)
  {
    hide Without;
    var a := Without(s, x);
    var b := Without(a, y);
    rest := Without(b, z);
    Threes(x, y, z, rest);
    Threes(x, z, y, rest);
    assert multiset(s) == multiset{x} + (multiset{y} + (multiset{z} + multiset(rest)));
  }

  lemma Threes(x: Bytes, y: Bytes, z: Bytes, rest: seq<Bytes>)
    ensures multiset([x, y, z] + rest) == multiset{x} + (multiset{y} + (multiset{z} + multiset(rest)))
  {
    var a := [z] + rest;
    var b := [y] + a;
    FirstOut(z, rest);
    FirstOut(y, a);
    FirstOut(x, b);
    FirstThree(x, y, z, rest);
  }

  lemma FirstThree(x: Bytes, y: Bytes, z: Bytes, rest: seq<Bytes>)
    ensures [x, y, z] + rest == [x] + ([y] + ([z] + rest))
  {
  }

  lemma FirstOut(x: Bytes, rest: seq<Bytes>)
    ensures multiset([x] + rest) == multiset{x} + multiset(rest)
  {
  }

  lemma DisorderStays(asc: bool, alpha: bool, x: Bytes, y: Bytes, z: Bytes, first: seq<Bytes>, rest: seq<Bytes>)
    requires var less := Comparator(asc, alpha); !less(y, x) && !less(z, y) && less(z, x)
    requires first == if asc then [x, y, z] else [x, z, y]
    ensures !AllInOrder(asc, alpha, SortSlice(Comparator(asc, alpha), first + rest))
  {
    hide SortSlice, Smaller;
    var less := Comparator(asc, alpha);
    SortThree(less, x, y, z);
    var u, v := if asc then x else z, if asc then z else y;
    var r := SortSlice(less, first);
    assert r[0] == u && r[2] == v;
    SortSliceKeepsOrder(less, first, rest, u, v);
    assert !InOrder(asc, alpha, u, v);
  }

  lemma ThreeApart(asc: bool, alpha: bool, x: Bytes, y: Bytes, z: Bytes)
    requires var less := Comparator(asc, alpha); !less(y, x) && !less(z, y) && less(z, x)
    ensures x != y && y != z && x != z
  {
    SmallerAsymmetric(alpha, x, y);
    SmallerAsymmetric(alpha, x, x);
    SmallerAsymmetric(alpha, y, y);
    SmallerAsymmetric(alpha, z, z);
  }

  lemma SortThree<T>(less: (T, T) -> bool, x: T, y: T, z: T)
    ensures !less(y, x) && !less(z, y) ==> SortSlice(less, [x, y, z]) == [x, y, z]
    ensures less(z, x) && !less(y, x) ==> SortSlice(less, [x, z, y]) == [z, x, y]
  {
    hide SortSlice;
    SortTwo(less, x, y);
    SortTwo(less, x, z);
    assert [x, y] + [z] == [x, y, z] && [x, z] + [y] == [x, z, y] && [z, x] + [y] == [z, x, y];
    SortOneMore(less, [x, y], z);
    SortOneMore(less, [x, z], y);
    InsertLast(less, [x, y], z);
    InsertLast(less, [z, x], y);
  }

  lemma SortOneMore<T>(less: (T, T) -> bool, s: seq<T>, x: T)
    ensures SortSlice(less, s + [x]) == Insert(less, SortSlice(less, s), x)
  {
    hide Insert;
    assert (s + [x])[..|s|] == s;
  }

  lemma InsertLast<T>(less: (T, T) -> bool, s: seq<T>, x: T)
    requires s != []
    ensures !less(x, s[|s| - 1]) ==> Insert(less, s, x) == s + [x]
  {
    assert s[..|s|] == s && s[|s|..] == [];
  }

  lemma SortTwo<T>(less: (T, T) -> bool, x: T, y: T)
    ensures SortSlice(less, [x, y]) == if less(y, x) then [y, x] else [x, y]
  {
    SortOneMore(less, [], x);
    assert [] + [x] == [x] && [x] + [y] == [x, y];
    assert SortSlice(less, [x]) == [x];
    SortOneMore(less, [x], y);
    assert [x][..0] == [] && [x][0..] == [x] && [] + [y] + [x] == [y, x];
    InsertLast(less, [x], y);
  }

  /** s less one occurrence of x. */
  ghost function Without(s: seq<Bytes>, x: Bytes): (r: seq<Bytes>)
    requires x in s
    ensures multiset(r) == multiset(s) - multiset{x}
    ensures multiset(s) == multiset{x} + multiset(r)
    ensures forall y :: y in s && y != x ==> y in r
  {
    var i :| 0 <= i < |s| && s[i] == x;
    assert s == s[..i] + [s[i]] + s[i + 1..];
    s[..i] + s[i + 1..]
  }

  /** Lists compared as text throughout, or as numbers throughout, are sortable both ways. */
  lemma ComparableSortable(asc: bool, alpha: bool, s: seq<Bytes>)
    requires Comparable(alpha, s)
    ensures Sortable(asc, alpha, s)
  {
    forall x, y, z | x in s && y in s && z in s
      ensures !Smaller(alpha, y, x) && !Smaller(alpha, z, y) ==> !Smaller(alpha, z, x)
      ensures Smaller(alpha, z, y) && Smaller(alpha, y, x) ==> Smaller(alpha, z, x)
    {
      if alpha || ParseFloat(x).None? {
        LessBytesChain(x, y, z);
      }
    }
  }

  lemma LessBytesChain(x: Bytes, y: Bytes, z: Bytes)
    ensures !LessBytes(y, x) && !LessBytes(z, y) ==> !LessBytes(z, x)
    ensures LessBytes(z, y) && LessBytes(y, x) ==> LessBytes(z, x)
  {
    if !LessBytes(y, x) && !LessBytes(z, y) {
      LessBytesTransitive(x, y, z);
    }
    if LessBytes(z, y) && LessBytes(y, x) {
      LessBytesTotal(z, y);
      LessBytesTotal(y, x);
      LessBytesTransitive(z, y, x);
      LessBytesTotal(z, x);
    }
  }

  /** Numbers mixed with text can make the comparator cyclic: no order of the list 2, 10, 1a
      has every pair in comparator order, so SORT cannot order it. */
  lemma MixedListHasNoOrder(r: seq<Bytes>)
    requires ParseFloat("2") == Some(Finite(2.0)) && ParseFloat("10") == Some(Finite(10.0))
    requires ParseFloat("1a") == None
    requires multiset(r) == multiset{"2", "10", "1a"}
    ensures exists i, j :: 0 <= i < j < |r| && Smaller(false, r[j], r[i])
  {
    var two: Bytes, ten: Bytes, text: Bytes := "2", "10", "1a";
    assert Smaller(false, two, ten) && LessBytes(ten[1..], text[1..]);
    assert Smaller(false, ten, text) && Smaller(false, text, two);
    assert two in r && ten in r && text in r;
    var i, j, k :| 0 <= i < |r| && 0 <= j < |r| && 0 <= k < |r| && r[i] == two && r[j] == ten && r[k] == text;
    assert i != j && j != k && i != k;
  }
}
