/** The encoder's and the decoder's own loops, over a buffered stream. */
module RespReader {
  import opened ByteStrings
  import opened Resp

  method Write(v: Value) returns (out: Bytes)
    ensures out == Encode(v)
    decreases v
  {
    hide FormatInt;
    match v.kind
    case SimpleString => return "+" + v.text + CRLF;
    case Error => return "-" + v.text + CRLF;
    case Integer => return ":" + FormatInt(v.number) + CRLF;
    case BulkString =>
      if v.isNil {
        return "$-1" + CRLF;
      }
      return "$" + FormatInt(|v.text|) + CRLF + v.text + CRLF;
    case Array =>
      if v.isNil {
        return "*-1" + CRLF;
      }
      out := "*" + FormatInt(|v.items|) + CRLF;
      ghost var header := out;
      for i := 0 to |v.items|
        invariant out == header + EncodeAll(v.items[..i])
      {
        var e := Write(v.items[i]);
        out := out + e;
        EncodeAllNext(v.items, i);
      }
      assert v.items[..|v.items|] == v.items;
    case Null => return "";
  }

  class Reader {
    var rest: Bytes  // the bytes not read yet

    constructor (data: Bytes)
      ensures rest == data
    {
      rest := data;
    }

    /** Reads through the next line feed; at the end of the stream all is read, in vain. */
    method ReadLine() returns (r: Parsed<Bytes>)
      modifies this
      ensures r == DecodeLine(old(rest)) && rest == old(rest)[r.used..]
    {
      var i := 0;
      while i < |rest| && rest[i] != LF
        invariant 0 <= i <= |rest|
        invariant LF !in rest[..i]
      {
        i := i + 1;
      }
      IndexLFFrom(rest, i);
      if i == |rest| {
        rest := [];
        return Stop(ShortRead, i);
      }
      r := Ok(TrimCR(rest[..i]), i + 1);
      rest := rest[i + 1..];
    }

    method ReadFull(n: nat) returns (buf: Option<Bytes>)
      modifies this
      ensures if n <= |old(rest)| then buf == Some(old(rest)[..n]) && rest == old(rest)[n..]
              else buf == None && rest == []
    {
      if |rest| < n {
        rest := [];
        return None;
      }
      buf := Some(rest[..n]);
      rest := rest[n..];
    }

    method ReadNumber() returns (r: Parsed<int64>)
      modifies this
      ensures r == DecodeNumber(old(rest)) && rest == old(rest)[r.used..]
    {
      var line := ReadLine();
      if line.Stop? {
        return Stop(line.fault, line.used);
      }
      match ParseInt(line.value)
      case None => return Stop(Syntax, line.used);
      case Some(k) => return Ok(k, line.used);
    }

    method ReadBulkString() returns (r: Parsed<Value>)
      modifies this
      ensures r == DecodeBulk(old(rest)) && rest == old(rest)[r.used..]
    {
      var n := ReadNumber();
      if n.Stop? {
        return Stop(n.fault, n.used);
      }
      if n.value == -1 {
        return Ok(NilBulk, n.used);
      }
      if n.value < -1 || MAX_BUFFER < n.value + 2 {
        return Stop(Panic, n.used);
      }
      var left := |rest|;
      var buf := ReadFull(n.value + 2);
      if buf.None? {
        return Stop(ShortRead, n.used + left);
      }
      SliceOfSlice(old(rest), n.used, n.value);
      r := Ok(Bulk(buf.value[..n.value]), n.used + n.value + 2);
    }

    method ReadArray() returns (r: Parsed<Value>)
      modifies this
      ensures r == DecodeArray(old(rest)) && rest == old(rest)[r.used..]
      decreases |rest|, 0
    {
      var n := ReadNumber();
      if n.Stop? {
        return Stop(n.fault, n.used);
      }
      if n.value == -1 {
        return Ok(NilArray, n.used);
      }
      if n.value < -1 || MAX_ITEMS < n.value {
        return Stop(Panic, n.used);
      }
      var items := ReadItems(n.value);
      r := AsArray(items).After(n.used);
    }

    method ReadItems(count: nat) returns (r: Parsed<seq<Value>>)
      modifies this
      ensures r == DecodeItems(old(rest), count) && rest == old(rest)[r.used..]
      decreases |rest|, 2
    {
      hide Decode, DecodeItems, Sofar;
      var values: seq<Value>, used: nat := [], 0;
      ghost var whole := DecodeItems(rest, count);
      SofarNothing(rest, count);
      for i := 0 to count
        invariant used <= |old(rest)| && rest == old(rest)[used..]
        invariant Sofar(whole, values, used, rest, count - i)
      {
        SofarNext(whole, values, used, rest, count - i);
        var v := Read();
        used := used + v.used;
        if v.Stop? {
          return Stop(v.fault, used);
        }
        values := values + [v.value];
      }
      SofarAll(whole, values, used, rest);
      r := Ok(values, used);
    }

    method Read() returns (r: Parsed<Value>)
      modifies this
      ensures r == Decode(old(rest)) && rest == old(rest)[r.used..]
      decreases |rest|, 1
    {
      if rest == [] {
        return Stop(ShortRead, 0);
      }
      var prefix := rest[0];
      rest := rest[1..];
      r := ReadBody(prefix);
      r := r.After(1);
    }

    method ReadBody(prefix: Byte) returns (r: Parsed<Value>)
      modifies this
      ensures r == DecodeBody(prefix, old(rest)) && rest == old(rest)[r.used..]
      decreases |rest|, 3
    {
      match prefix
      case '+' =>
        var line := ReadLine();
        r := if line.Ok? then Ok(Simple(line.value), line.used) else Stop(line.fault, line.used);
      case '-' =>
        var line := ReadLine();
        r := if line.Ok? then Ok(Err(line.value), line.used) else Stop(line.fault, line.used);
      case ':' =>
        var n := ReadNumber();
        r := if n.Ok? then Ok(Int(n.value), n.used) else Stop(n.fault, n.used);
      case '$' => r := ReadBulkString();
      case '*' => r := ReadArray();
      case _ => r := Stop(Syntax, 0);
    }
  }

  lemma SliceOfSlice(s: Bytes, n: nat, k: nat)
    requires n + k + 2 <= |s|
    ensures s[n..][..k + 2][..k] == s[n..n + k]
  {
  }

  /** The values read so far, and those the rest of the stream holds, are the whole. */
  ghost predicate Sofar(whole: Parsed<seq<Value>>, values: seq<Value>, used: nat, rest: Bytes, left: nat) {
    whole == Prepend(values, DecodeItems(rest, left)).After(used)
  }

  lemma SofarNothing(s: Bytes, count: nat)
    ensures Sofar(DecodeItems(s, count), [], 0, s, count)
  {
    hide DecodeItems;
    var r := DecodeItems(s, count);
    if r.Ok? {
      assert [] + r.value == r.value;
    }
  }

  lemma SofarNext(whole: Parsed<seq<Value>>, values: seq<Value>, used: nat, s: Bytes, left: nat)
    requires left > 0 && Sofar(whole, values, used, s, left)
    ensures var v := Decode(s);
            if v.Stop? then whole == Stop(v.fault, used + v.used)
            else Sofar(whole, values + [v.value], used + v.used, s[v.used..], left - 1)
  {
    hide Decode, DecodeItems;
    ItemsStep(s, left, values);
  }

  lemma SofarAll(whole: Parsed<seq<Value>>, values: seq<Value>, used: nat, s: Bytes)
    requires Sofar(whole, values, used, s, 0)
    ensures whole == Ok(values, used)
  {
    assert values + [] == values;
  }

  lemma ItemsStep(s: Bytes, count: nat, values: seq<Value>)
    requires count > 0
    ensures var v := Decode(s);
            Prepend(values, DecodeItems(s, count)) ==
              if v.Stop? then Stop(v.fault, v.used)
              else Prepend(values + [v.value], DecodeItems(s[v.used..], count - 1)).After(v.used)
  {
    var v := Decode(s);
    if v.Ok? && DecodeItems(s[v.used..], count - 1).Ok? {
      var vs := DecodeItems(s[v.used..], count - 1).value;
      assert values + ([v.value] + vs) == values + [v.value] + vs;
    }
  }

  lemma EncodeAllNext(vs: seq<Value>, i: nat)
    requires i < |vs|
    ensures EncodeAll(vs[..i + 1]) == EncodeAll(vs[..i]) + Encode(vs[i])
  {
    assert vs[..i + 1] == vs[..i] + [vs[i]];
    EncodeAllAppend(vs[..i], [vs[i]]);
    assert EncodeAll([vs[i]][1..]) == "";
  }

  lemma IndexLFFrom(s: Bytes, n: nat)
    requires n <= |s| && LF !in s[..n] && (n == |s| || s[n] == LF)
    ensures IndexLF(s) == n
  {
    if n < |s| {
      IndexLFAt(s, n);
    } else {
      assert s[..n] == s;
    }
  }
}
