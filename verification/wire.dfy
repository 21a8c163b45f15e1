/** The protocol's bytes, spelled out: a grammar with literal codes, independent of the encoder and
    the decoder, and what each has to do with it. Carriage return is 13 and line feed is 10; the
    digits are 48 to 57; a minus sign is 45. */
module Wire {
  import opened ByteStrings
  import opened Resp

  const EOL: Bytes := [13 as char, 10 as char]

  // ---------- Decimal numbers ----------

  predicate DigitCodes(s: Bytes) {
    forall i :: 0 <= i < |s| ==> 48 <= s[i] as int <= 57
  }

  function Number(s: Bytes): nat
    requires DigitCodes(s)
  {
    if s == [] then 0 else 10 * Number(s[..|s| - 1]) + (s[|s| - 1] as int - 48)
  }

  /** The digits of n, without a leading zero. */
  predicate SpellsNat(s: Bytes, n: nat) {
    s != [] && DigitCodes(s) && Number(s) == n && (|s| > 1 ==> s[0] as int != 48)
  }

  predicate SpellsInt(s: Bytes, n: int) {
    if n < 0 then s != [] && s[0] as int == 45 && SpellsNat(s[1..], -n) else SpellsNat(s, n)
  }

  lemma {:induction false} DecimalSpells(n: nat)
    ensures SpellsNat(Decimal(n), n) && (n > 0 ==> Decimal(n)[0] as int != 48)
  {
    if n < 10 {
      assert Number([]) == 0;
    } else {
      var s := Decimal(n);
      assert s[..|s| - 1] == Decimal(n / 10);
      DecimalSpells(n / 10);
    }
  }

  lemma {:induction false} SpelledOnce(s: Bytes, t: Bytes, n: nat)
    requires SpellsNat(s, n) && SpellsNat(t, n)
    ensures s == t
    decreases |s|
  {
    NoSmaller(s);
    NoSmaller(t);
    if |s| > 1 && |t| > 1 {
      SpelledOnce(s[..|s| - 1], t[..|t| - 1], n / 10);
      assert s == s[..|s| - 1] + [s[|s| - 1]] && t == t[..|t| - 1] + [t[|t| - 1]];
    } else {
      assert s[..0] == [] && t[..0] == [] && Number([]) == 0;
    }
  }

  /** More than one digit without a leading zero is at least ten. */
  lemma {:induction false} NoSmaller(s: Bytes)
    requires s != [] && DigitCodes(s) && (|s| > 1 ==> s[0] as int != 48)
    ensures |s| > 1 ==> Number(s) >= 10
    ensures s[0] as int != 48 ==> Number(s) >= 1
  {
    if |s| > 1 {
      NoSmaller(s[..|s| - 1]);
    } else {
      assert s[..0] == [] && Number([]) == 0;
    }
  }

  lemma FormatSpellsExactly(s: Bytes, n: int)
    ensures SpellsInt(s, n) <==> s == FormatInt(n)
  {
    if n < 0 {
      DecimalSpells(-n);
      assert FormatInt(n)[1..] == Decimal(-n);
      if SpellsInt(s, n) {
        SpelledOnce(s[1..], Decimal(-n), -n);
        assert s == [s[0]] + s[1..];
      }
    } else {
      DecimalSpells(n);
      if SpellsInt(s, n) {
        SpelledOnce(s, Decimal(n), n);
      }
    }
  }

  // ---------- Values ----------

  function Joined(parts: seq<Bytes>): Bytes {
    if parts == [] then [] else parts[0] + Joined(parts[1..])
  }

  /** The grammar: a type byte (plus 43, minus 45, colon 58, dollar 36, star 42) and what follows. */
  ghost predicate Spells(s: Bytes, v: Value)
    decreases v
  {
    match v.kind
    case SimpleString => s == [43 as char] + v.text + EOL
    case Error => s == [45 as char] + v.text + EOL
    case Integer => exists d :: SpellsInt(d, v.number) && s == [58 as char] + d + EOL
    case BulkString =>
      if v.isNil then s == [36 as char, 45 as char, 49 as char] + EOL
      else exists d :: SpellsInt(d, |v.text|) && s == [36 as char] + d + EOL + v.text + EOL
    case Array =>
      if v.isNil then s == [42 as char, 45 as char, 49 as char] + EOL
      else exists d, parts: seq<Bytes> :: SpellsInt(d, |v.items|) && SpellAll(parts, v.items)
                                          && s == [42 as char] + d + EOL + Joined(parts)
    case Null => s == []
  }

  ghost predicate SpellAll(parts: seq<Bytes>, vs: seq<Value>)
    decreases vs
  {
    |parts| == |vs| && forall i :: 0 <= i < |vs| ==> Spells(parts[i], vs[i])
  }

  /** The encoder writes what the grammar says, and the grammar says nothing else. */
  lemma {:induction false} EncodeSpellsExactly(s: Bytes, v: Value)
    ensures Spells(s, v) <==> s == Encode(v)
    decreases v, 1
  {
    match v.kind
    case Integer => NumberLine(s, 58 as char, v.number, []);
    case BulkString => if !v.isNil { NumberLine(s, 36 as char, |v.text|, v.text + EOL); }
    case Array =>
      if !v.isNil {
        ItemsSpelled(v.items);
        ArraySpelled(s, v);
      }
    case _ =>
  }

  lemma NumberLine(s: Bytes, prefix: Byte, n: int, rest: Bytes)
    ensures (exists d :: SpellsInt(d, n) && s == [prefix] + d + EOL + rest) <==> s == [prefix] + FormatInt(n) + EOL + rest
    ensures (exists d :: SpellsInt(d, n) && s == [prefix] + d + EOL) <==> s == [prefix] + FormatInt(n) + EOL
  {
    hide SpellsInt, FormatInt;
    FormatSpellsExactly(FormatInt(n), n);
    forall d | SpellsInt(d, n) ensures d == FormatInt(n) {
      FormatSpellsExactly(d, n);
    }
  }

  lemma {:induction false} ItemsSpelled(vs: seq<Value>)
    ensures forall parts: seq<Bytes> :: SpellAll(parts, vs) ==> Joined(parts) == EncodeAll(vs)
    ensures exists parts: seq<Bytes> :: SpellAll(parts, vs)
    decreases vs, 0
  {
    hide Spells;
    if vs == [] {
      assert SpellAll([], vs);
    } else {
      var rest := vs[1..];
      ItemsSpelled(rest);
      EncodeSpellsExactly(Encode(vs[0]), vs[0]);
      var some: seq<Bytes> :| SpellAll(some, rest);
      assert SpellAll([Encode(vs[0])] + some, vs);
      forall parts: seq<Bytes> | SpellAll(parts, vs) ensures Joined(parts) == EncodeAll(vs) {
        EncodeSpellsExactly(parts[0], vs[0]);
        assert SpellAll(parts[1..], rest);
      }
    }
  }

  lemma ArraySpelled(s: Bytes, v: Value)
    requires v.kind == Array && !v.isNil
    requires forall parts: seq<Bytes> :: SpellAll(parts, v.items) ==> Joined(parts) == EncodeAll(v.items)
    requires exists parts: seq<Bytes> :: SpellAll(parts, v.items)
    ensures Spells(s, v) <==> s == Encode(v)
  {
    hide SpellsInt, FormatInt, SpellAll;
    var n := |v.items|;
    FormatSpellsExactly(FormatInt(n), n);
    forall d | SpellsInt(d, n) ensures d == FormatInt(n) {
      FormatSpellsExactly(d, n);
    }
    var parts: seq<Bytes> :| SpellAll(parts, v.items);
    if s == Encode(v) {
      assert s == [42 as char] + FormatInt(n) + EOL + Joined(parts);
    }
  }

  /** And the decoder reads it: any bytes that begin with the spelling of a normal value give it. */
  lemma DecodeSpelled(s: Bytes, v: Value, rest: Bytes)
    requires Normal(v) && Spells(s, v)
    ensures Decode(s + rest) == Ok(v, |s|)
  {
    hide Spells, Normal, Decode, Encode;
    EncodeSpellsExactly(s, v);
    RoundTrip(v, rest);
  }

  // ---------- What else the decoder takes ----------

  /** A line ends at its first line feed; one carriage return before that is dropped. */
  lemma LineEnds(t: Bytes, rest: Bytes)
    requires 10 as char !in t
    ensures DecodeLine(t + [13 as char, 10 as char] + rest) == Ok(t, |t| + 2)
    ensures t == [] || t[|t| - 1] != 13 as char ==> DecodeLine(t + [10 as char] + rest) == Ok(t, |t| + 1)
    ensures DecodeLine(t) == Stop(ShortRead, |t|)
  {
    LineRoundTrip(t, rest);
    var s := t + [10 as char] + rest;
    assert s[..|t|] == t;
    IndexLFAt(s, |t|);
  }

  lemma LengthRead(prefix: Byte, n: int64, rest: Bytes)
    ensures var body := FormatInt(n) + CRLF + rest;
            && Decode([prefix] + FormatInt(n) + EOL + rest) == DecodeBody(prefix, body).After(1)
            && DecodeNumber(body) == Ok(n, |FormatInt(n)| + 2)
  {
    hide FormatInt, DecodeBody, DecodeNumber;
    NumberRoundTrip(n, rest);
    assert ([prefix] + FormatInt(n) + EOL + rest)[1..] == FormatInt(n) + CRLF + rest;
  }

  /** A length below -1 or beyond the largest buffer crashes the program; -1 is the nil text. */
  lemma BulkLengths(n: int64, rest: Bytes)
    ensures var head := [36 as char] + FormatInt(n) + EOL;
            && (n < -1 || (0 <= n && MAX_BUFFER < n + 2) ==> Decode(head + rest) == Stop(Panic, |head|))
            && (n == -1 ==> Decode(head + rest) == Ok(NilBulk, |head|))
  {
    hide FormatInt, DecodeNumber, Decode;
    LengthRead(36 as char, n, rest);
  }

  /** The two bytes after a text are taken whatever they are. */
  lemma BulkEnds(text: Bytes, end: Bytes, rest: Bytes)
    requires |end| == 2 && |text| + 2 <= MAX_BUFFER
    ensures var head := [36 as char] + FormatInt(|text|) + EOL;
            Decode(head + (text + end + rest)) == Ok(Bulk(text), |head| + |text| + 2)
  {
    hide FormatInt, DecodeNumber, Decode;
    var n, left := |text|, text + end + rest;
    LengthRead(36 as char, n, left);
    var s, m := FormatInt(n) + CRLF + left, |FormatInt(n)| + 2;
    assert s[m..] == left && left[..n] == text;
    assert s[m..m + n] == s[m..][..n];
  }

  lemma ArrayLengths(n: int64, rest: Bytes)
    ensures var head := [42 as char] + FormatInt(n) + EOL;
            && (n < -1 || MAX_ITEMS < n ==> Decode(head + rest) == Stop(Panic, |head|))
            && (n == -1 ==> Decode(head + rest) == Ok(NilArray, |head|))
            && (n == 0 ==> Decode(head + rest) == Ok(Arr([]), |head|))
  {
    hide FormatInt, DecodeNumber, Decode;
    LengthRead(42 as char, n, rest);
    assert DecodeItems((FormatInt(n) + CRLF + rest)[|FormatInt(n)| + 2..], 0) == Ok([], 0);
  }

  /** Any other first byte is malformed. */
  lemma OtherPrefix(s: Bytes)
    requires s != [] && s[0] as int != 43 && s[0] as int != 45 && s[0] as int != 58 && s[0] as int != 36 && s[0] as int != 42
    ensures Decode(s) == Stop(Syntax, 1)
  {
  }

  // ---------- Numbers as they may be written ----------

  /** A number may have a plus sign or leading zeros; nothing but a sign and digits is one, and it
      must fit in 64 bits. */
  lemma NumbersRead(s: Bytes)
    requires s != [] && DigitCodes(s)
    ensures ParseInt(s) == if Number(s) <= 9_223_372_036_854_775_807 then Some(Number(s)) else None
    ensures ParseInt([43 as char] + s) == ParseInt(s)
    ensures ParseInt([45 as char] + s) == if Number(s) <= 9_223_372_036_854_775_808 then Some(-(Number(s) as int)) else None
  {
    hide DecimalValue, Number;
    SameNumber(s);
    assert s[0] as int != 43 && s[0] as int != 45;
    Signed(43 as char, s);
    Signed(45 as char, s);
  }

  lemma Signed(sign: Byte, s: Bytes)
    ensures ([sign] + s)[0] == sign && ([sign] + s)[1..] == s && [sign] + s != []
  {
  }

  lemma NumbersRefused(s: Bytes)
    requires s == [] || !DigitCodes(s)
    ensures ParseInt([43 as char] + s) == None && ParseInt([45 as char] + s) == None
    ensures s == [] || (s[0] as int != 43 && s[0] as int != 45) ==> ParseInt(s) == None
  {
    hide DecimalValue;
    Signed(43 as char, s);
    Signed(45 as char, s);
    CodesAreDigits(s);
  }

  lemma CodesAreDigits(s: Bytes)
    ensures AllDigits(s) <==> DigitCodes(s)
  {
    if DigitCodes(s) {
      forall i | 0 <= i < |s| ensures IsDigit(s[i]) {
        assert 48 <= s[i] as int <= 57;
      }
    }
  }

  /** A line that should hold a number and does not is malformed, and is taken. */
  lemma NumbersMalformed(t: Bytes, rest: Bytes, prefix: Byte)
    requires 10 as char !in t && ParseInt(t) == None
    requires prefix == 58 as char || prefix == 36 as char || prefix == 42 as char
    ensures Decode([prefix] + t + EOL + rest) == Stop(Syntax, |t| + 3)
  {
    hide ParseInt, DecodeLine, DecodeItems;
    LineEnds(t, rest);
    var body := t + [13 as char, 10 as char] + rest;
    var s := [prefix] + t + EOL + rest;
    assert s[1..] == body && s[0] == prefix;
    assert DecodeNumber(body) == Stop(Syntax, |t| + 2);
    assert DecodeInteger(body) == DecodeBulk(body) == Stop(Syntax, |t| + 2);
    assert DecodeArray(body) == Stop(Syntax, |t| + 2);
    assert Decode(s) == DecodeBody(prefix, body).After(1);
    assert DecodeBody(prefix, body) == Stop(Syntax, |t| + 2);
  }

  lemma {:induction false} SameNumber(s: Bytes)
    requires DigitCodes(s)
    ensures AllDigits(s) && DecimalValue(s) == Number(s)
  {
    if s != [] {
      SameNumber(s[..|s| - 1]);
    }
  }

  lemma {:induction false} LeadingZero(s: Bytes)
    requires DigitCodes(s)
    ensures DigitCodes([48 as char] + s) && Number([48 as char] + s) == Number(s)
  {
    var z := [48 as char] + s;
    if s == [] {
      assert z[..0] == [];
    } else {
      LeadingZero(s[..|s| - 1]);
      assert z[..|z| - 1] == [48 as char] + s[..|s| - 1];
    }
  }

  /** 64-bit arithmetic wraps by multiples of two to the 64th. */
  lemma WrapsBy64(n: int)
    ensures (n - Wrap64(n)) % 0x1_0000_0000_0000_0000 == 0
    ensures -9_223_372_036_854_775_808 <= Wrap64(n) <= 9_223_372_036_854_775_807
  {
  }

  /** The values the round trip is about, field by field. */
  lemma NormalIs(t: Bytes, n: int64, vs: seq<Value>)
    ensures Normal(Value(SimpleString, t, 0, [], false)) <==> 10 as char !in t
    ensures Normal(Value(Error, t, 0, [], false)) <==> 10 as char !in t
    ensures Normal(Value(Integer, "", n, [], false))
    ensures Normal(Value(BulkString, t, 0, [], false)) <==> |t| + 2 <= MAX_BUFFER
    ensures Normal(Value(BulkString, "", 0, [], true)) && Normal(Value(Array, "", 0, [], true))
    ensures Normal(Value(Array, "", 0, vs, false)) <==>
              |vs| <= MAX_ITEMS && forall i :: 0 <= i < |vs| ==> Normal(vs[i])
  {
  }
}
