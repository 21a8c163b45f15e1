/** Byte strings, 64-bit integers and the decimal notation of Go's strconv package. */
module ByteStrings {
  // One byte, written as the character with that code.
  type Byte = c: char | c as int < 256 witness ' '
  type Bytes = seq<Byte>

  const MAX_INT64: int := 0x7FFF_FFFF_FFFF_FFFF
  type int64 = n: int | -MAX_INT64 - 1 <= n <= MAX_INT64

  // A number of elements.
  type Size = n: int | 0 <= n <= MAX_INT64

  const CR: Byte := '\r'
  const LF: Byte := '\n'
  const CRLF: Bytes := [CR, LF]

  datatype Option<+T> = None | Some(value: T)

  /** The two's complement result of a 64-bit operation whose exact result is n. */
  function Wrap64(n: int): (w: int64)
    ensures -MAX_INT64 - 1 <= n <= MAX_INT64 ==> w == n
  {
    (n + MAX_INT64 + 1) % (2 * MAX_INT64 + 2) - MAX_INT64 - 1
  }

  predicate IsDigit(b: Byte) {
    '0' <= b <= '9'
  }

  predicate AllDigits(s: Bytes) {
    forall i :: 0 <= i < |s| ==> IsDigit(s[i])
  }

  function Digit(d: nat): (b: Byte)
    requires d < 10
    ensures IsDigit(b)
  {
    (d + '0' as int) as char
  }

  function Decimal(n: nat): (s: Bytes)
    ensures s != [] && AllDigits(s)
  {
    if n < 10 then [Digit(n)] else Decimal(n / 10) + [Digit(n % 10)]
  }

  function DecimalValue(s: Bytes): nat
    requires AllDigits(s)
  {
    if s == [] then 0 else 10 * DecimalValue(s[..|s| - 1]) + (s[|s| - 1] as int - '0' as int)
  }

  lemma {:induction false} DecimalRoundTrip(n: nat)
    ensures DecimalValue(Decimal(n)) == n
  {
    if n < 10 {
      assert DecimalValue([]) == 0;
    } else {
      var s := Decimal(n);
      assert s[..|s| - 1] == Decimal(n / 10);
      DecimalRoundTrip(n / 10);
    }
  }

  /** strconv.FormatInt(n, 10) */
  function FormatInt(n: int): Bytes {
    if n < 0 then "-" + Decimal(-n) else Decimal(n)
  }

  /** strconv.ParseInt(s, 10, 64) and, on a 64-bit platform, strconv.Atoi(s): one optional
      sign, then one or more digits, then the range check. */
  function ParseInt(s: Bytes): Option<int64> {
    var signed := s != [] && (s[0] == '-' || s[0] == '+');
    var digits := if signed then s[1..] else s;
    if digits == [] || !AllDigits(digits) then None
    else
      var n: int := if signed && s[0] == '-' then -(DecimalValue(digits) as int) else DecimalValue(digits);
      if -MAX_INT64 - 1 <= n <= MAX_INT64 then Some(n) else None
  }

  lemma ParseFormat(n: int64)
    ensures ParseInt(FormatInt(n)) == Some(n)
    ensures LF !in FormatInt(n)
  {
    if n < 0 {
      var m: nat := -(n as int);
      assert FormatInt(n)[1..] == Decimal(m);
      DecimalRoundTrip(m);
    } else {
      assert IsDigit(FormatInt(n)[0]);
      DecimalRoundTrip(n);
    }
  }

  /** strings.ToUpper on ASCII text. */
  function ToUpper(s: Bytes): (u: Bytes)
    ensures |u| == |s|
    ensures forall i :: 0 <= i < |s| ==> u[i] == UpperByte(s[i])
  {
    if s == [] then [] else [UpperByte(s[0])] + ToUpper(s[1..])
  }

  function UpperByte(b: Byte): Byte {
    if 'a' <= b <= 'z' then (b as int - 32) as char else b
  }

  lemma ToUpperFixed(s: Bytes)
    requires forall i :: 0 <= i < |s| ==> UpperByte(s[i]) == s[i]
    ensures ToUpper(s) == s
  {
    assert forall i :: 0 <= i < |s| ==> ToUpper(s)[i] == s[i];
  }

  function AsSet(s: seq<Bytes>): set<Bytes> {
    set x | x in s
  }

  /** The order visits each element of s once, and nothing else. */
  predicate Enumerates(order: seq<Bytes>, s: set<Bytes>) {
    AsSet(order) == s && forall i, j :: 0 <= i < j < |order| ==> order[i] != order[j]
  }

  lemma AsSetNext(s: seq<Bytes>, i: nat)
    requires i < |s|
    ensures AsSet(s[..i + 1]) == AsSet(s[..i]) + {s[i]}
    ensures i + 1 == |s| ==> s[..i + 1] == s
  {
    assert s[..i + 1] == s[..i] + [s[i]];
  }

  lemma AsSetWhole(s: seq<Bytes>)
    ensures AsSet(s[..0]) == {} && s[..|s|] == s
  {
  }

  lemma DropOne<V>(m: map<Bytes, V>, key: Bytes)
    ensures |m - {key}| == if key in m then |m| - 1 else |m|
    ensures key !in m ==> m - {key} == m
  {
    assert (m - {key}).Keys == m.Keys - {key};
    assert |m.Keys| == |m| && |(m - {key}).Keys| == |m - {key}|;
  }

  lemma DropNext<V>(m: map<Bytes, V>, s: seq<Bytes>, i: nat)
    requires i < |s|
    ensures m - AsSet(s[..i + 1]) == m - AsSet(s[..i]) - {s[i]}
  {
    AsSetNext(s, i);
  }

  lemma DropNone<V>(m: map<Bytes, V>, s: seq<Bytes>)
    ensures m - AsSet(s[..0]) == m && s[..|s|] == s
  {
  }
}
