/** Loading the append-only file: from any bytes to dispatched calls to recovered stores. */
module Loading {
  import opened ByteStrings
  import opened Resp
  import opened Expiry
  import opened Commands
  import opened LogRefinement

  // The calls dispatched from a file, and whether decoding it crashes the program.
  datatype Loaded = Loaded(calls: seq<Call>, panicked: bool)

  function Load(s: Bytes): Loaded
    decreases |s|
  {
    match Decode(s)
    case Stop(fault, _) => Loaded([], fault == Panic)
    case Ok(v, n) =>
      var rest := Load(s[n..]);
      rest.(calls := CallSeq(v) + rest.calls)
  }

  function CallSeq(v: Value): seq<Call> {
    match CallOf(v)
    case Some(c) => [c]
    case None => []
  }

  function CallsOf(vs: seq<Value>): seq<Call> {
    if vs == [] then [] else CallSeq(vs[0]) + CallsOf(vs[1..])
  }

  function ParseAll(calls: seq<Call>): (cs: seq<Command>)
    ensures |cs| == |calls| && forall i :: 0 <= i < |calls| ==> cs[i] == Parse(calls[i])
  {
    seq(|calls|, i requires 0 <= i < |calls| => Parse(calls[i]))
  }

  /** The stores a server starting on this file has; None if it crashes on the way. */
  function Recover(s: Bytes, now: Time): Option<DB> {
    if Load(s).panicked then None else ReplayFrom(EMPTY, ParseAll(Load(s).calls), now)
  }

  /** How many of the records lie wholly in the first `cut` bytes of their encodings: the
      longest such prefix. */
  function Whole(records: seq<Value>, cut: nat): (n: nat)
    ensures n <= |records|
    ensures |EncodeAll(records[..n])| <= cut
    ensures n < |records| ==> cut < |EncodeAll(records[..n + 1])|
  {
    if records == [] then 0
    else if cut < |Encode(records[0])| then
      assert records[..1] == [records[0]] && EncodeAll([records[0]][1..]) == "";
      assert records[..0] == [];
      0
    else
      var n := Whole(records[1..], cut - |Encode(records[0])|);
      assert records[..n + 1][0] == records[0] && records[..n + 1][1..] == records[1..][..n];
      assert n + 1 < |records| ==> records[..n + 2][0] == records[0] && records[..n + 2][1..] == records[1..][..n + 1];
      n + 1
  }

  /** A file cut short anywhere: loading dispatches, in order, exactly the calls of the records
      wholly contained in what is left, and never crashes. */
  lemma {:induction false} LoadTruncated(records: seq<Value>, cut: nat)
    requires AllNormal(records) && cut <= |EncodeAll(records)|
    ensures Load(EncodeAll(records)[..cut]) == Loaded(CallsOf(records[..Whole(records, cut)]), false)
    decreases |records|
  {
    hide Decode, Encode, Normal, CallSeq;
    if records == [] {
      DecodeNothing();
      assert records[..Whole(records, cut)] == [];
    } else {
      var e, tail := Encode(records[0]), EncodeAll(records[1..]);
      if cut < |e| {
        assert EncodeAll(records)[..cut] == e[..cut];
        TruncatedIsShort(records[0], cut);
        assert records[..0] == [];
      } else {
        var left := tail[..cut - |e|];
        assert EncodeAll(records)[..cut] == e + left;
        RoundTrip(records[0], left);
        assert (e + left)[|e|..] == left;
        LoadTruncated(records[1..], cut - |e|);
        var n := Whole(records[1..], cut - |e|);
        assert records[..n + 1][0] == records[0] && records[..n + 1][1..] == records[1..][..n];
      }
    }
  }

  lemma DecodeNothing()
    ensures Decode([]) == Stop(ShortRead, 0)
  {
  }

  /** A command is an array whose first element is a bulk or a simple string: its text is the name,
      the rest the arguments. Loading passes over any other value. */
  lemma LoadPast(v: Value, rest: Bytes)
    requires Normal(v)
    ensures CallOf(v).Some? <==> v.kind == Array && |v.items| > 0 && (v.items[0].kind == BulkString || v.items[0].kind == SimpleString)
    ensures CallOf(v).Some? ==> CallOf(v).value.name == v.items[0].text && CallOf(v).value.args == v.items[1..]
    ensures Load(Encode(v) + rest) ==
              Loaded((if CallOf(v).Some? then [CallOf(v).value] else []) + Load(rest).calls, Load(rest).panicked)
  {
    hide Decode, Encode, Normal;
    RoundTrip(v, rest);
    assert (Encode(v) + rest)[|Encode(v)|..] == rest;
  }

  /** Loading stops where the bytes stop making sense, whatever follows, and crashes exactly when the
      decoder does. */
  lemma {:induction false} LoadStops(records: seq<Value>, junk: Bytes)
    requires AllNormal(records) && Decode(junk).Stop?
    ensures Load(EncodeAll(records) + junk) == Loaded(CallsOf(records), Decode(junk).fault == Panic)
    decreases |records|
  {
    hide Decode, Encode, Normal, CallOf;
    if records == [] {
      assert EncodeAll(records) + junk == junk;
    } else {
      var e, tail := Encode(records[0]), EncodeAll(records[1..]) + junk;
      assert EncodeAll(records) + junk == e + tail;
      RoundTrip(records[0], tail);
      assert (e + tail)[|e|..] == tail;
      LoadStops(records[1..], junk);
    }
  }

  // ---------- Logs as bytes ----------

  /** The bytes of a log. */
  function Image(log: seq<Command>): Bytes
    requires AllLoggable(log)
  {
    EncodeAll(EmitAll(log))
  }

  /** The text lengths and counts of every record fit the machine. */
  predicate Fits(log: seq<Command>) {
    AllLoggable(log) && AllNormal(EmitAll(log))
  }

  lemma {:induction false} ParseEmitAll(log: seq<Command>)
    requires AllLoggable(log)
    ensures ParseAll(CallsOf(EmitAll(log))) == log
    decreases |log|
  {
    hide Parse, CallOf, Emit, Loggable;
    if log != [] {
      ParseEmit(log[0]);
      ParseEmitAll(log[1..]);
      assert EmitAll(log)[1..] == EmitAll(log[1..]);
      assert CallsOf(EmitAll(log)) == CallSeq(Emit(log[0])) + CallsOf(EmitAll(log[1..]));
      assert log == [log[0]] + log[1..];
    }
  }

  /** From bytes to stores: what is left of a log's file recovers exactly what replaying the
      surviving commands gives. */
  lemma RecoverTruncated(log: seq<Command>, cut: nat, now: Time)
    requires Fits(log) && cut <= |Image(log)|
    ensures var n := Whole(EmitAll(log), cut);
            Recover(Image(log)[..cut], now) == ReplayFrom(EMPTY, log[..n], now)
  {
    hide Load, CallsOf, ReplayFrom, Emit, Loggable, Normal, EncodeAll;
    LoadTruncated(EmitAll(log), cut);
    var n := Whole(EmitAll(log), cut);
    assert EmitAll(log)[..n] == EmitAll(log[..n]);
    ParseEmitAll(log[..n]);
  }

  /** Crash recovery, end to end: cut the file of a run anywhere, start a server on it at any
      time, and it comes up with the sets, lists and hashes of some moment of the run. The
      records that survive whole are that moment's log, or it and one more: a SET whose deadline
      did not make it. The dict is that moment's too, as `DictOfMoment` says. */
  lemma CrashRecovery(es: seq<Event>, cut: nat, now: Time) returns (j: nat)
    requires RestRun(es) && Run(es).Some? && Fits(Run(es).value.log) && cut <= |Image(Run(es).value.log)|
    ensures j <= |es| && Run(es[..j]).Some?
    ensures var recovered := Recover(Image(Run(es).value.log)[..cut], now);
            recovered.Some? && SameRest(Run(es[..j]).value.db, recovered.value)
    ensures var moment := Run(es[..j]).value.log;
            var whole := Run(es).value.log[..Whole(EmitAll(Run(es).value.log), cut)];
            whole == moment || Dangling(moment, whole)
    ensures DictRun(es) && Ordered(es) && EndOf(es) < now ==>
              var whole := Run(es).value.log[..Whole(EmitAll(Run(es).value.log), cut)];
              var recovered := Recover(Image(Run(es).value.log)[..cut], now).value;
              DictOfMoment(Run(es[..j]).value, whole, recovered.dict, now)
  {
    hide RestRun, DictRun, Run, Recover, ReplayFrom, SameRest, EncodeAll, Whole, DictOfMoment;
    var log := Run(es).value.log;
    RecoverTruncated(log, cut, now);
    j := CutLogIsAMoment(es, Whole(EmitAll(log), cut), now);
    if DictRun(es) && Ordered(es) && EndOf(es) < now {
      CutDict(es, j, log[..Whole(EmitAll(log), cut)], now);
    }
  }

  /** A restart on the whole file, end to end: the server comes back with every store as a client
      would see it if and only if no key's deadline was passed and then outlived. */
  lemma RestartExactly(es: seq<Event>, now: Time)
    requires RestRun(es) && DictRun(es) && Ordered(es) && EndOf(es) < now
    requires Run(es).Some? && Fits(Run(es).value.log)
    ensures var live := Run(es).value; var back := Recover(Image(live.log), now);
            && back.Some?
            && (SameRest(live.db, back.value) && Visible(back.value.dict, now) == Visible(live.db.dict, now)
                <==> forall k :: !Lost(live, k, now))
  {
    hide RestRun, DictRun, Run, Recover, ReplayFrom, Lost, EncodeAll, SameRest;
    var log := Run(es).value.log;
    var n := Whole(EmitAll(log), |Image(log)|);
    RecoverTruncated(log, |Image(log)|, now);
    assert Image(log)[..|Image(log)|] == Image(log);
    AllWhole(EmitAll(log));
    assert log[..n] == log;
    RunRebuiltExactly(es, now);
  }

  lemma {:induction false} AllWhole(records: seq<Value>)
    requires AllNormal(records)
    ensures Whole(records, |EncodeAll(records)|) == |records|
    decreases |records|
  {
    if records != [] {
      AllWhole(records[1..]);
    }
  }
}
