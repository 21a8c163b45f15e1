/** The serialization protocol (RESP, sections "Simple strings", "Integers", "Bulk strings" and
    "Arrays"): the encoder, the decoder, and what each promises about the other. */
module Resp {
  import opened ByteStrings

  datatype Kind = SimpleString | Error | Integer | BulkString | Array | Null

  // One record for every kind, as in the program; each kind uses some of the fields.
  datatype Value = Value(kind: Kind, text: Bytes, number: int64, items: seq<Value>, isNil: bool)

  function Simple(t: Bytes): Value { Value(SimpleString, t, 0, [], false) }
  function Err(t: Bytes): Value { Value(Error, t, 0, [], false) }
  function Int(n: int64): Value { Value(Integer, "", n, [], false) }
  function Bulk(t: Bytes): Value { Value(BulkString, t, 0, [], false) }
  const NilBulk: Value := Value(BulkString, "", 0, [], true)
  function Arr(vs: seq<Value>): Value { Value(Array, "", 0, vs, false) }
  const NilArray: Value := Value(Array, "", 0, [], true)

  // ---------- Encoder ----------

  function Encode(v: Value): Bytes
    decreases v
  {
    match v.kind
    case SimpleString => "+" + v.text + CRLF
    case Error => "-" + v.text + CRLF
    case Integer => ":" + FormatInt(v.number) + CRLF
    case BulkString =>
      if v.isNil then "$-1" + CRLF
      else "$" + FormatInt(|v.text|) + CRLF + v.text + CRLF
    case Array =>
      if v.isNil then "*-1" + CRLF
      else "*" + FormatInt(|v.items|) + CRLF + EncodeAll(v.items)
    case Null => ""
  }

  function EncodeAll(vs: seq<Value>): Bytes
    decreases vs
  {
    if vs == [] then "" else Encode(vs[0]) + EncodeAll(vs[1..])
  }

  // ---------- Decoder ----------

  // The largest byte buffer and the largest array of values that can be asked for: asking for
  // more panics. What they are depends on the platform, and is left open.
  const MAX_BUFFER: Size
  const MAX_ITEMS: Size

  // ShortRead: the stream ended first. Syntax: malformed. Panic: the program crashes.
  datatype Fault = ShortRead | Syntax | Panic

  // The verdict on a stream, with the number of bytes taken from it.
  datatype Parsed<+T> = Ok(value: T, used: nat) | Stop(fault: Fault, used: nat)
  {
    predicate Short() { Stop? && fault == ShortRead }

    function After(skip: nat): Parsed<T> { this.(used := skip + used) }
  }

  function Prepend(vs: seq<Value>, r: Parsed<seq<Value>>): Parsed<seq<Value>> {
    if r.Ok? then Ok(vs + r.value, r.used) else r
  }

  function AsArray(r: Parsed<seq<Value>>): Parsed<Value> {
    if r.Ok? then Ok(Arr(r.value), r.used) else Stop(r.fault, r.used)
  }

  function IndexLF(s: Bytes): (i: nat)
    ensures i <= |s|
    ensures forall j :: 0 <= j < i ==> s[j] != LF
    ensures i < |s| ==> s[i] == LF
  {
    if s == [] || s[0] == LF then 0 else 1 + IndexLF(s[1..])
  }

  function TrimCR(s: Bytes): Bytes {
    if s != [] && s[|s| - 1] == CR then s[..|s| - 1] else s
  }

  function DecodeLine(s: Bytes): (r: Parsed<Bytes>)
    ensures r.used <= |s|
    ensures r.Ok? ==> 1 <= r.used
  {
    var i := IndexLF(s);
    if i == |s| then Stop(ShortRead, |s|) else Ok(TrimCR(s[..i]), i + 1)
  }

  function DecodeNumber(s: Bytes): (r: Parsed<int64>)
    ensures r.used <= |s|
    ensures r.Ok? ==> 1 <= r.used
  {
    match DecodeLine(s)
    case Stop(f, n) => Stop(f, n)
    case Ok(line, n) =>
      match ParseInt(line)
      case None => Stop(Syntax, n)
      case Some(k) => Ok(k, n)
  }

  function DecodeText(s: Bytes, kind: Kind): (r: Parsed<Value>)
    ensures r.used <= |s|
  {
    match DecodeLine(s)
    case Stop(f, n) => Stop(f, n)
    case Ok(line, n) => Ok(Value(kind, line, 0, [], false), n)
  }

  function DecodeInteger(s: Bytes): (r: Parsed<Value>)
    ensures r.used <= |s|
  {
    match DecodeNumber(s)
    case Stop(f, n) => Stop(f, n)
    case Ok(k, n) => Ok(Int(k), n)
  }

  /** A length below -1, or one that no buffer can hold with the two bytes after the text, makes
      the program panic. Those two bytes are taken but not looked at. */
  function DecodeBulk(s: Bytes): (r: Parsed<Value>)
    ensures r.used <= |s|
  {
    match DecodeNumber(s)
    case Stop(f, n) => Stop(f, n)
    case Ok(k, n) =>
      if k == -1 then Ok(NilBulk, n)
      else if k < -1 || MAX_BUFFER < k + 2 then Stop(Panic, n)
      else if |s| - n < k + 2 then Stop(ShortRead, |s|)
      else Ok(Bulk(s[n..n + k]), n + k + 2)
  }

  function DecodeArray(s: Bytes): (r: Parsed<Value>)
    ensures r.used <= |s|
    decreases |s|, 2
  {
    match DecodeNumber(s)
    case Stop(f, n) => Stop(f, n)
    case Ok(k, n) =>
      if k == -1 then Ok(NilArray, n)
      else if k < -1 || MAX_ITEMS < k then Stop(Panic, n)
      else AsArray(DecodeItems(s[n..], k)).After(n)
  }

  function DecodeItems(s: Bytes, count: nat): (r: Parsed<seq<Value>>)
    ensures r.used <= |s|
    ensures r.Ok? ==> |r.value| == count
    decreases |s|, 1, count
  {
    if count == 0 then Ok([], 0)
    else
      var head := Decode(s);
      if head.Stop? then Stop(head.fault, head.used)
      else Prepend([head.value], DecodeItems(s[head.used..], count - 1)).After(head.used)
  }

  function DecodeBody(prefix: Byte, s: Bytes): (r: Parsed<Value>)
    ensures r.used <= |s|
    decreases |s|, 3
  {
    match prefix
    case '+' => DecodeText(s, SimpleString)
    case '-' => DecodeText(s, Error)
    case ':' => DecodeInteger(s)
    case '$' => DecodeBulk(s)
    case '*' => DecodeArray(s)
    case _ => Stop(Syntax, 0)
  }

  function Decode(s: Bytes): (r: Parsed<Value>)
    ensures r.used <= |s|
    ensures r.Ok? ==> 1 <= r.used
    decreases |s|, 0
  {
    if s == [] then Stop(ShortRead, 0)
    else DecodeBody(s[0], s[1..]).After(1)
  }

  // ---------- The values that survive a round trip ----------

  /** The fields a kind does not use are zero, line texts hold no line feed, and lengths can
      be allocated. */
  predicate Normal(v: Value)
    decreases v
  {
    match v.kind
    case SimpleString => LF !in v.text && v == Simple(v.text)
    case Error => LF !in v.text && v == Err(v.text)
    case Integer => v == Int(v.number)
    case BulkString => v == NilBulk || (v == Bulk(v.text) && |v.text| + 2 <= MAX_BUFFER)
    case Array =>
      v == NilArray || (v == Arr(v.items) && |v.items| <= MAX_ITEMS
                        && forall i :: 0 <= i < |v.items| ==> Normal(v.items[i]))
    case Null => false
  }

  predicate AllNormal(vs: seq<Value>) {
    forall i :: 0 <= i < |vs| ==> Normal(vs[i])
  }

  lemma IndexLFAt(s: Bytes, i: nat)
    requires i < |s| && s[i] == LF && LF !in s[..i]
    ensures IndexLF(s) == i
  {
    forall j | 0 <= j < i ensures s[j] != LF {
      assert s[j] == s[..i][j];
    }
  }

  lemma LineRoundTrip(line: Bytes, rest: Bytes)
    requires LF !in line
    ensures DecodeLine(line + CRLF + rest) == Ok(line, |line| + 2)
  {
    var s := line + CRLF + rest;
    var i := |line| + 1;
    assert s[..i] == line + [CR];
    IndexLFAt(s, i);
    assert TrimCR(line + [CR]) == line;
  }

  lemma NumberRoundTrip(n: int64, rest: Bytes)
    ensures DecodeNumber(FormatInt(n) + CRLF + rest) == Ok(n, |FormatInt(n)| + 2)
  {
    ParseFormat(n);
    LineRoundTrip(FormatInt(n), rest);
  }

  lemma {:induction false} RoundTrip(v: Value, rest: Bytes)
    requires Normal(v)
    ensures Encode(v) != []
    ensures Decode(Encode(v) + rest) == Ok(v, |Encode(v)|)
    decreases v, 2
  {
    BodyRoundTrip(v, rest);
    var s := Encode(v) + rest;
    assert s[0] == Encode(v)[0];
  }

  lemma {:induction false} BodyRoundTrip(v: Value, rest: Bytes)
    requires Normal(v)
    ensures Encode(v) != []
    ensures DecodeBody(Encode(v)[0], (Encode(v) + rest)[1..]) == Ok(v, |Encode(v)| - 1)
    decreases v, 1
  {
    if v.isNil {
      NilRoundTrip(v, rest);
    } else {
      match v.kind
      case BulkString => BulkRoundTrip(v, rest);
      case Array => ArrayRoundTrip(v, rest);
      case _ => LineKindRoundTrip(v, rest);
    }
  }

  lemma LineKindRoundTrip(v: Value, rest: Bytes)
    requires v.kind != BulkString && v.kind != Array && Normal(v)
    ensures DecodeBody(Encode(v)[0], (Encode(v) + rest)[1..]) == Ok(v, |Encode(v)| - 1)
  {
    hide FormatInt, DecodeLine, DecodeNumber;
    var line := if v.kind == Integer then FormatInt(v.number) else v.text;
    assert (Encode(v) + rest)[1..] == line + CRLF + rest;
    if v.kind == Integer {
      NumberRoundTrip(v.number, rest);
    } else {
      LineRoundTrip(line, rest);
    }
  }

  lemma BulkRoundTrip(v: Value, rest: Bytes)
    requires v.kind == BulkString && Normal(v) && !v.isNil
    ensures Encode(v) != [] && Encode(v)[0] == '$'
    ensures DecodeBulk((Encode(v) + rest)[1..]) == Ok(v, |Encode(v)| - 1)
  {
    var body := (Encode(v) + rest)[1..];
    var n := |FormatInt(|v.text|)| + 2;
    Regroup("$", FormatInt(|v.text|), v.text + CRLF, rest);
    assert Encode(v) == "$" + FormatInt(|v.text|) + CRLF + (v.text + CRLF);
    NumberRoundTrip(|v.text|, v.text + CRLF + rest);
    BulkText(body, n, v.text, rest);
  }

  lemma Regroup(prefix: Bytes, count: Bytes, content: Bytes, rest: Bytes)
    requires |prefix| == 1
    ensures var body := (prefix + count + CRLF + content + rest)[1..];
            body == count + CRLF + (content + rest) && body[|count| + 2..] == content + rest
  {
  }

  lemma BulkText(body: Bytes, n: nat, text: Bytes, rest: Bytes)
    requires DecodeNumber(body) == Ok(|text|, n) && |text| + 2 <= MAX_BUFFER
    requires n <= |body| && body[n..] == text + CRLF + rest
    ensures DecodeBulk(body) == Ok(Bulk(text), n + |text| + 2)
  {
    assert body[n..n + |text|] == body[n..][..|text|] == text;
  }

  lemma NilRoundTrip(v: Value, rest: Bytes)
    requires Normal(v) && v.isNil
    ensures Encode(v) != []
    ensures DecodeBody(Encode(v)[0], (Encode(v) + rest)[1..]) == Ok(v, |Encode(v)| - 1)
  {
    NilLength(rest);
    assert (Encode(v) + rest)[1..] == "-1" + CRLF + rest;
  }

  lemma NilLength(rest: Bytes)
    ensures DecodeNumber("-1" + CRLF + rest) == Ok(-1, 4)
  {
    LineRoundTrip("-1", rest);
    var d: Bytes, t: Bytes := "1", "-1";
    assert d[..0] == [] && DecimalValue([]) == 0;
    assert DecimalValue(d) == 1;
    assert t[1..] == d;
  }

  lemma {:induction false} ArrayRoundTrip(v: Value, rest: Bytes)
    requires v.kind == Array && Normal(v) && !v.isNil
    ensures Encode(v) != [] && Encode(v)[0] == '*'
    ensures DecodeArray((Encode(v) + rest)[1..]) == Ok(v, |Encode(v)| - 1)
    decreases v, 0
  {
    var body := (Encode(v) + rest)[1..];
    var n := |FormatInt(|v.items|)| + 2;
    Regroup("*", FormatInt(|v.items|), EncodeAll(v.items), rest);
    NumberRoundTrip(|v.items|, EncodeAll(v.items) + rest);
    ItemsRoundTrip(v.items, rest);
  }

  lemma {:induction false} ItemsRoundTrip(vs: seq<Value>, rest: Bytes)
    requires AllNormal(vs)
    ensures DecodeItems(EncodeAll(vs) + rest, |vs|) == Ok(vs, |EncodeAll(vs)|)
    decreases vs
  {
    if vs != [] {
      var e, tail := Encode(vs[0]), EncodeAll(vs[1..]) + rest;
      assert EncodeAll(vs) + rest == e + tail;
      RoundTrip(vs[0], tail);
      assert (e + tail)[|e|..] == tail;
      ItemsRoundTrip(vs[1..], rest);
      assert vs == [vs[0]] + vs[1..];
    }
  }

  // ---------- What the decoder accepts ----------

  lemma LineHasNoLF(s: Bytes)
    ensures DecodeLine(s).Ok? ==> LF !in DecodeLine(s).value
  {
  }

  /** The decoder only ever produces normal values. */
  lemma {:induction false} DecodeNormal(s: Bytes)
    ensures Decode(s).Ok? ==> Normal(Decode(s).value)
    decreases |s|, 0
  {
    if s != [] {
      BodyNormal(s[0], s[1..]);
    }
  }

  lemma {:induction false} BodyNormal(prefix: Byte, s: Bytes)
    ensures DecodeBody(prefix, s).Ok? ==> Normal(DecodeBody(prefix, s).value)
    decreases |s|, 3
  {
    LineHasNoLF(s);
    if prefix == '*' {
      ArrayNormal(s);
    }
  }

  lemma {:induction false} ArrayNormal(s: Bytes)
    ensures DecodeArray(s).Ok? ==> Normal(DecodeArray(s).value)
    decreases |s|, 2
  {
    var h := DecodeNumber(s);
    if h.Ok? && 0 <= h.value <= MAX_ITEMS {
      ItemsNormal(s[h.used..], h.value);
    }
  }

  lemma {:induction false} ItemsNormal(s: Bytes, count: nat)
    ensures DecodeItems(s, count).Ok? ==> AllNormal(DecodeItems(s, count).value)
    decreases |s|, 1, count
  {
    if count > 0 && DecodeItems(s, count).Ok? {
      DecodeNormal(s);
      ItemsNormal(s[Decode(s).used..], count - 1);
    }
  }

  /** Exactly the normal values survive encoding and decoding, whatever follows them. */
  lemma RoundTripExactly(v: Value)
    ensures Normal(v) <==> forall rest :: Decode(Encode(v) + rest) == Ok(v, |Encode(v)|)
  {
    hide Normal, Encode, Decode;
    if Normal(v) {
      forall rest ensures Decode(Encode(v) + rest) == Ok(v, |Encode(v)|) {
        RoundTrip(v, rest);
      }
    } else {
      var nothing: Bytes := [];
      DecodeNormal(Encode(v));
      assert Encode(v) + nothing == Encode(v);
      assert Decode(Encode(v) + nothing) != Ok(v, |Encode(v)|);
    }
  }

  // ---------- Locality: a verdict depends only on the bytes it used ----------

  predicate Agree(s: Bytes, t: Bytes, n: nat) {
    n <= |s| && n <= |t| && forall i :: 0 <= i < n ==> s[i] == t[i]
  }

  lemma AgreeSlice(s: Bytes, t: Bytes, n: nat, i: nat, j: nat)
    requires i <= j <= n && Agree(s, t, n)
    ensures s[i..j] == t[i..j]
  {
  }

  lemma AgreeTail(s: Bytes, t: Bytes, k: nat, n: nat)
    requires k <= n && Agree(s, t, n)
    ensures Agree(s[k..], t[k..], n - k)
  {
  }

  lemma LineLocal(s: Bytes, t: Bytes)
    requires DecodeLine(s).Ok? && Agree(s, t, DecodeLine(s).used)
    ensures DecodeLine(t) == DecodeLine(s)
  {
    var i := IndexLF(s);
    AgreeSlice(s, t, i + 1, 0, i);
    assert LF !in s[..i];
    IndexLFAt(t, i);
  }

  lemma NumberLocal(s: Bytes, t: Bytes)
    requires !DecodeNumber(s).Short() && Agree(s, t, DecodeNumber(s).used)
    ensures DecodeNumber(t) == DecodeNumber(s)
  {
    LineLocal(s, t);
  }

  lemma BulkLocal(s: Bytes, t: Bytes)
    requires !DecodeBulk(s).Short() && Agree(s, t, DecodeBulk(s).used)
    ensures DecodeBulk(t) == DecodeBulk(s)
  {
    NumberLocal(s, t);
    hide DecodeNumber;
    var h, n := DecodeNumber(s), DecodeBulk(s).used;
    if h.Ok? && DecodeBulk(s).Ok? && h.value != -1 {
      AgreeSlice(s, t, n, h.used, h.used + h.value);
    }
  }

  lemma {:induction false} ArrayLocal(s: Bytes, t: Bytes)
    requires !DecodeArray(s).Short() && Agree(s, t, DecodeArray(s).used)
    ensures DecodeArray(t) == DecodeArray(s)
    decreases |s|, 2
  {
    var h, n := DecodeNumber(s), DecodeArray(s).used;
    NumberLocal(s, t);
    if h.Ok? && 0 <= h.value <= MAX_ITEMS {
      AgreeTail(s, t, h.used, n);
      ItemsLocal(s[h.used..], t[h.used..], h.value);
    }
  }

  lemma {:induction false} ItemsLocal(s: Bytes, t: Bytes, count: nat)
    requires !DecodeItems(s, count).Short() && Agree(s, t, DecodeItems(s, count).used)
    ensures DecodeItems(t, count) == DecodeItems(s, count)
    decreases |s|, 1, count
  {
    hide Decode;
    if count > 0 {
      var h, n := Decode(s), DecodeItems(s, count).used;
      Local(s, t);
      if h.Ok? {
        AgreeTail(s, t, h.used, n);
        ItemsLocal(s[h.used..], t[h.used..], count - 1);
      }
    }
  }

  /** Any verdict other than "the stream ended" is reached from the bytes used alone: every
      stream that begins with them gets the same verdict. */
  lemma {:induction false} Local(s: Bytes, t: Bytes)
    requires !Decode(s).Short() && Agree(s, t, Decode(s).used)
    ensures Decode(t) == Decode(s)
    decreases |s|, 0
  {
    AgreeTail(s, t, 1, Decode(s).used);
    BodyLocal(s[0], s[1..], t[1..]);
  }

  lemma {:induction false} BodyLocal(prefix: Byte, s: Bytes, t: Bytes)
    requires !DecodeBody(prefix, s).Short() && Agree(s, t, DecodeBody(prefix, s).used)
    ensures DecodeBody(prefix, t) == DecodeBody(prefix, s)
    decreases |s|, 3
  {
    match prefix
    case '+' => LineLocal(s, t);
    case '-' => LineLocal(s, t);
    case ':' => NumberLocal(s, t);
    case '$' => BulkLocal(s, t);
    case '*' => ArrayLocal(s, t);
    case _ =>
  }

  /** Every proper prefix of an encoding is an incomplete read: never a value, never a crash. */
  lemma TruncatedIsShort(v: Value, k: nat)
    requires Normal(v) && k < |Encode(v)|
    ensures Decode(Encode(v)[..k]).Short()
  {
    var e := Encode(v);
    RoundTrip(v, []);
    assert e + [] == e;
    if !Decode(e[..k]).Short() {
      Local(e[..k], e);
    }
  }

  /** No encoding is a prefix of another, so in particular the encoder is injective. */
  lemma PrefixFree(v: Value, w: Value)
    requires Normal(v) && Normal(w) && Encode(v) <= Encode(w)
    ensures v == w
  {
    var rest := Encode(w)[|Encode(v)|..];
    assert Encode(v) + rest == Encode(w) == Encode(w) + [];
    RoundTrip(v, rest);
    RoundTrip(w, []);
  }

  // ---------- Sequences of encodings ----------

  lemma {:induction false} EncodeAllAppend(vs: seq<Value>, ws: seq<Value>)
    ensures EncodeAll(vs + ws) == EncodeAll(vs) + EncodeAll(ws)
  {
    if vs == [] {
      assert vs + ws == ws;
    } else {
      assert (vs + ws)[1..] == vs[1..] + ws;
      EncodeAllAppend(vs[1..], ws);
    }
  }
}
