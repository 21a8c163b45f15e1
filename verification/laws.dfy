/** What clients are promised: requests as they are spelled, and what the replies say afterwards, in
    plain values. */
module Laws {
  import opened ByteStrings
  import opened Resp
  import opened Expiry
  import opened Sorting
  import opened Lists
  import opened Sets
  import opened HashMaps
  import opened Commands
  import opened LogRefinement
  import opened Replies
  import opened Wire

  // ---------- Requests ----------

  /** What the handler makes of a request with these arguments. */
  function Req(h: Handler, texts: seq<Bytes>): Command {
    Parse(Call(NameOf(h), Bulks(texts)))
  }

  lemma Read(h: Handler, texts: seq<Bytes>)
    ensures Req(h, texts) == ParseFor(h, Bulks(texts))
  {
    hide Parse, NameOf, ParseFor, Bulks;
    RecordArgs(h, texts);
  }

  lemma ReadKeyed(h: Handler, key: Bytes, texts: seq<Bytes>)
    ensures Req(h, [key] + texts) == ParseFor(h, Bulks([key] + texts))
    ensures Texts(Bulks([key] + texts)[1..]) == texts && Bulks([key] + texts)[0].text == key
    ensures |Bulks([key] + texts)| == 1 + |texts|
  {
    hide Parse, NameOf, ParseFor, Bulks, Texts;
    RecordArgs(h, [key] + texts);
    assert ([key] + texts)[1..] == texts;
  }

  /** The registry: each name, and the same name with any of its letters in lower case (32 above). */
  lemma AnyCase(h: Handler, name: Bytes)
    requires |name| == |NameOf(h)|
    requires forall i :: 0 <= i < |name| ==>
               name[i] == NameOf(h)[i] || (65 <= NameOf(h)[i] as int <= 90 && name[i] as int == NameOf(h)[i] as int + 32)
    ensures Lookup(name) == Some(h)
  {
    hide NameOf;
    NamesAreUpper(h);
    forall i | 0 <= i < |name| ensures ToUpper(name)[i] == NameOf(h)[i] {
      assert ToUpper(NameOf(h))[i] == UpperByte(NameOf(h)[i]);
    }
    assert ToUpper(name) == NameOf(h);
    LookupName(h);
    SameUpper(name, h);
  }

  lemma SameUpper(name: Bytes, h: Handler)
    requires ToUpper(name) == NameOf(h)
    ensures Lookup(name) == Lookup(NameOf(h))
  {
    hide NameOf, ToUpper;
    NamesAreUpper(h);
  }

  lemma DictNames()
    ensures NameOf(CmdSet) == "SET" && NameOf(CmdGet) == "GET" && NameOf(CmdDel) == "DEL"
    ensures NameOf(CmdExpire) == "EXPIRE" && NameOf(CmdPExpireAt) == "PEXPIREAT" && NameOf(CmdTTL) == "TTL"
    ensures NameOf(CmdAuth) == "AUTH"
  {
  }

  lemma ListNames()
    ensures NameOf(CmdLpush) == "LPUSH" && NameOf(CmdRpush) == "RPUSH" && NameOf(CmdLpop) == "LPOP"
    ensures NameOf(CmdRpop) == "RPOP" && NameOf(CmdSort) == "SORT"
  {
  }

  lemma OtherNames()
    ensures NameOf(CmdHset) == "HSET" && NameOf(CmdHdel) == "HDEL" && NameOf(CmdSAdd) == "SADD" && NameOf(CmdSRem) == "SREM"
    ensures NameOf(CmdSExpire) == "SEXPIRE" && NameOf(CmdSMembers) == "SMEMBERS" && NameOf(CmdSCard) == "SCARD"
    ensures NameOf(CmdSTTL) == "STTL" && NameOf(CmdSIsMember) == "SISMEMBER"
  {
  }

  /** SET k v, with a lifetime in seconds if a positive number follows. */
  lemma SetRequests(k: Bytes, v: Bytes, n: int64, word: Bytes)
    ensures Req(CmdSet, [k, v]) == Set(k, v, 0)
    ensures Req(CmdSet, [k, v, FormatInt(n)]) == Set(k, v, if n > 0 then Seconds(n) else 0)
    ensures ParseInt(word).None? ==> Req(CmdSet, [k, v, word]) == Set(k, v, 0)
  {
    hide Parse, FormatInt, ParseInt, Req;
    ParseFormat(n);
    Read(CmdSet, [k, v]);
    Read(CmdSet, [k, v, FormatInt(n)]);
    Read(CmdSet, [k, v, word]);
  }

  lemma KeyRequests(k: Bytes, ks: seq<Bytes>, n: int64)
    ensures Req(CmdGet, [k]) == Get(k) && Req(CmdTTL, [k]) == TTL(k)
    ensures ks != [] ==> Req(CmdDel, ks) == Del(ks)
    ensures Req(CmdExpire, [k, FormatInt(n)]) == Expire(k, n)
    ensures Req(CmdPExpireAt, [k, FormatInt(n)]) == PExpireAt(k, n)
    ensures Req(CmdSExpire, [k, FormatInt(n)]) == SExpire(k, n)
  {
    hide Parse, FormatInt, ParseInt, Req;
    ParseFormat(n);
    Read(CmdGet, [k]);
    Read(CmdTTL, [k]);
    Read(CmdDel, ks);
    assert Texts(Bulks(ks)) == ks;
    Read(CmdExpire, [k, FormatInt(n)]);
    Read(CmdPExpireAt, [k, FormatInt(n)]);
    Read(CmdSExpire, [k, FormatInt(n)]);
  }

  lemma PushRequests(k: Bytes, vs: seq<Bytes>)
    requires vs != []
    ensures Req(CmdLpush, [k] + vs) == Lpush(k, vs) && Req(CmdRpush, [k] + vs) == Rpush(k, vs)
  {
    hide Parse, Req, Bulks, Texts;
    ReadKeyed(CmdLpush, k, vs);
    ReadKeyed(CmdRpush, k, vs);
  }

  /** LPOP and RPOP take one unless a count follows. */
  lemma PopRequests(k: Bytes, n: int64)
    ensures Req(CmdLpop, [k]) == Lpop(k, 1) && Req(CmdLpop, [k, FormatInt(n)]) == Lpop(k, n)
    ensures Req(CmdRpop, [k]) == Rpop(k, 1) && Req(CmdRpop, [k, FormatInt(n)]) == Rpop(k, n)
  {
    hide Parse, FormatInt, ParseInt, Req;
    ParseFormat(n);
    Read(CmdLpop, [k]);
    Read(CmdRpop, [k]);
    Read(CmdLpop, [k, FormatInt(n)]);
    Read(CmdRpop, [k, FormatInt(n)]);
  }

  lemma HashRequests(k: Bytes, fvs: seq<Bytes>, fs: seq<Bytes>)
    ensures fvs != [] && |fvs| % 2 == 0 ==> Req(CmdHset, [k] + fvs) == Hset(k, fvs)
    ensures |fvs| % 2 != 0 ==> Req(CmdHset, [k] + fvs) == NoEffect
    ensures fs != [] ==> Req(CmdHdel, [k] + fs) == Hdel(k, fs)
  {
    hide Parse, Req, Bulks, Texts;
    ReadKeyed(CmdHset, k, fvs);
    ReadKeyed(CmdHdel, k, fs);
  }

  lemma SetStoreRequests(k: Bytes, ms: seq<Bytes>, m: Bytes)
    ensures ms != [] ==> Req(CmdSAdd, [k] + ms) == Sadd(k, ms) && Req(CmdSRem, [k] + ms) == Srem(k, ms)
    ensures Req(CmdSMembers, [k]) == SRead(k) && Req(CmdSCard, [k]) == SRead(k) && Req(CmdSTTL, [k]) == SRead(k)
    ensures Req(CmdSIsMember, [k, m]) == SRead(k)
  {
    hide Parse, Req, Texts;
    ReadKeyed(CmdSAdd, k, ms);
    ReadKeyed(CmdSRem, k, ms);
    Read(CmdSMembers, [k]);
    Read(CmdSCard, [k]);
    Read(CmdSTTL, [k]);
    Read(CmdSIsMember, [k, m]);
  }

  lemma AuthRequests(word: Bytes)
    ensures Req(CmdAuth, []) == Crash && Req(CmdAuth, [word]) == NoEffect
  {
    hide Parse, Req;
    Read(CmdAuth, []);
    Read(CmdAuth, [word]);
  }

  function Word(v: Value): Bytes {
    ToUpper(v.text)
  }

  const ASC: Bytes := "ASC"
  const DESC: Bytes := "DESC"
  const ALPHA: Bytes := "ALPHA"

  predicate Known(v: Value) {
    Word(v) == ASC || Word(v) == DESC || Word(v) == ALPHA
  }

  /** The word is among the options, and the other does not come after it. */
  predicate Decides(options: seq<Value>, word: Bytes, other: Bytes) {
    exists i :: 0 <= i < |options| && Word(options[i]) == word && !Among(options[i + 1..], other)
  }

  predicate Among(options: seq<Value>, word: Bytes) {
    exists i :: 0 <= i < |options| && Word(options[i]) == word
  }

  /** The options of SORT: any word but ASC, DESC and ALPHA, in any case, is refused; the last of ASC
      and DESC decides, ascending by default; ALPHA anywhere compares as text. */
  lemma {:induction false} OptionsMean(options: seq<Value>, asc: bool, alpha: bool)
    ensures SortOptions(options, asc, alpha).Some? <==> forall i :: 0 <= i < |options| ==> Known(options[i])
    ensures var r := SortOptions(options, asc, alpha);
            r.Some? ==>
              && (r.value.1 <==> alpha || Among(options, ALPHA))
              && (Decides(options, ASC, DESC) ==> r.value.0)
              && (Decides(options, DESC, ASC) ==> !r.value.0)
              && (!Among(options, ASC) && !Among(options, DESC) ==> r.value.0 == asc)
  {
    hide ToUpper, Decides, Among;
    if options == [] {
      NoOptions(options, ASC, DESC);
      NoOptions(options, DESC, ASC);
      NoOptions(options, ALPHA, ASC);
    } else {
      var rest, w := options[1..], Word(options[0]);
      assert forall i :: 0 <= i < |rest| ==> rest[i] == options[i + 1];
      OptionsMean(rest, if w == ASC then true else if w == DESC then false else asc, alpha || w == ALPHA);
      AmongFirst(options, ASC);
      AmongFirst(options, DESC);
      AmongFirst(options, ALPHA);
      DecidesFirst(options, ASC, DESC);
      DecidesFirst(options, DESC, ASC);
      if Among(rest, ASC) && !Among(rest, DESC) {
        NeverUndone(rest, ASC, DESC);
      }
      if Among(rest, DESC) && !Among(rest, ASC) {
        NeverUndone(rest, DESC, ASC);
      }
    }
  }

  lemma NoOptions(options: seq<Value>, word: Bytes, other: Bytes)
    requires options == []
    ensures !Among(options, word) && !Decides(options, word, other)
  {
  }

  lemma NeverUndone(options: seq<Value>, word: Bytes, other: Bytes)
    requires Among(options, word) && !Among(options, other)
    ensures Decides(options, word, other)
  {
    var i :| 0 <= i < |options| && Word(options[i]) == word;
    AmongTail(options, i + 1, other);
  }

  lemma AmongTail(options: seq<Value>, n: nat, word: Bytes)
    requires n <= |options|
    ensures Among(options[n..], word) ==> Among(options, word)
  {
    if j :| 0 <= j < |options| - n && Word(options[n..][j]) == word {
      assert Word(options[n + j]) == word;
    }
  }

  lemma AmongFirst(options: seq<Value>, word: Bytes)
    requires options != []
    ensures Among(options, word) <==> Word(options[0]) == word || Among(options[1..], word)
  {
    if i :| 0 <= i < |options[1..]| && Word(options[1..][i]) == word {
      assert Word(options[i + 1]) == word;
    }
    if i :| 0 < i < |options| && Word(options[i]) == word {
      assert Word(options[1..][i - 1]) == word;
    }
  }

  lemma DecidesFirst(options: seq<Value>, word: Bytes, other: Bytes)
    requires options != []
    ensures Decides(options, word, other) <==>
              (Word(options[0]) == word && !Among(options[1..], other)) || Decides(options[1..], word, other)
  {
    hide Among;
    var rest := options[1..];
    if i :| 0 <= i < |rest| && Word(rest[i]) == word && !Among(rest[i + 1..], other) {
      assert rest[i + 1..] == options[i + 2..] && Word(options[i + 1]) == word;
    }
    if i :| 0 < i < |options| && Word(options[i]) == word && !Among(options[i + 1..], other) {
      assert options[i + 1..] == rest[i..] && Word(rest[i - 1]) == word;
    }
  }

  lemma SortRequests(k: Bytes, words: seq<Bytes>)
    ensures var r := SortOptions(Bulks(words), true, false);
            Req(CmdSort, [k] + words) == if r.None? then NoEffect else Sort(k, r.value.0, r.value.1, Bulks(words))
  {
    hide Parse, Req, Texts, SortOptions;
    ReadKeyed(CmdSort, k, words);
    assert Bulks([k] + words)[1..] == Bulks(words);
  }

  // ---------- Lifetimes ----------

  // The most seconds whose nanoseconds fit in 64 bits: some 292 years.
  const MAX_SECONDS := 9_223_372_036

  /** A lifetime is what it says up to that many seconds, and wraps around beyond. */
  lemma SecondsExactly(n: int64, now: Time)
    ensures Seconds(n) == n * 1_000_000_000 <==> -MAX_SECONDS <= n <= MAX_SECONDS
    ensures -MAX_SECONDS <= n <= MAX_SECONDS ==> After(now, Seconds(n)) == now + 1000 * n
    ensures (Seconds(n) - n * 1_000_000_000) % 0x1_0000_0000_0000_0000 == 0
  {
    WrapsBy64(n * 1_000_000_000);
    if -MAX_SECONDS <= n <= MAX_SECONDS {
      assert n * 1_000_000_000 == (1000 * n) * 1_000_000;
    }
  }

  /** So EXPIRE with one second more deletes the key. */
  lemma LifetimeWraps(m: Store<Bytes>, key: Bytes, now: Time)
    ensures Expiry.Expire(m, key, Seconds(MAX_SECONDS + 1), now) == m - {key}
  {
    assert key !in m ==> m - {key} == m;
  }

  // A text reply, and the nil one.
  function TextReply(v: Bytes): Value { Value(BulkString, v, 0, [], false) }
  const NO_TEXT: Value := Value(BulkString, "", 0, [], true)
  function NumberReply(n: int64): Value { Value(Integer, "", n, [], false) }

  // ---------- Texts ----------

  /** GET and TTL tell what is stored: the text up to and at the deadline, and nothing after it; whole
      seconds left, -1 without a deadline, -2 without the key. */
  lemma ReadsTell(m: Store<Bytes>, k: Bytes, now: Time)
    ensures GetReply(m, [Bulk(k)], now) ==
              if k in m && (m[k].expiredAt == None || now <= m[k].expiredAt.value) then TextReply(m[k].value) else NO_TEXT
    ensures TtlReply("ttl", m, [Bulk(k)], now) ==
              NumberReply(if k !in m then -2
                          else if m[k].expiredAt == None then -1
                          else if m[k].expiredAt.value < now then -2
                          else Min((m[k].expiredAt.value - now) / 1000, 9_223_372_036))
  {
  }

  /** After SET k v, for n seconds or for good: GET k answers v as long as that, every other key as
      before. */
  lemma GetAfterSet(db: DB, k: Bytes, v: Bytes, n: int64, other: Bytes, now: Time, later: Time)
    requires 0 <= n <= MAX_SECONDS && now <= later && other != k
    ensures var c := Req(CmdSet, if n == 0 then [k, v] else [k, v, FormatInt(n)]);
            Apply(db, c, now).Some?
    ensures var c := Req(CmdSet, if n == 0 then [k, v] else [k, v, FormatInt(n)]);
            var after := Apply(db, c, now).value.dict;
            && GetReply(after, [Bulk(k)], later) == (if n == 0 || later <= now + 1000 * n then TextReply(v) else NO_TEXT)
            && GetReply(after, [Bulk(other)], later) == GetReply(db.dict, [Bulk(other)], later)
            && TtlReply("ttl", after, [Bulk(k)], later) ==
                 NumberReply(if n == 0 then -1 else if later <= now + 1000 * n then (now + 1000 * n - later) / 1000 else -2)
  {
    hide Req, Parse, FormatInt, Seconds, TtlReply, GetReply;
    SetRequests(k, v, n, []);
    SecondsExactly(n, now);
    var c := Req(CmdSet, if n == 0 then [k, v] else [k, v, FormatInt(n)]);
    var after := Apply(db, c, now).value.dict;
    ReadsTell(after, k, later);
    ReadsTell(after, other, later);
    ReadsTell(db.dict, other, later);
  }

  /** After DEL GET answers nothing for the named keys, and as before for others; the reply counts the
      keys that were there. */
  lemma GetAfterDel(db: DB, ks: seq<Bytes>, k: Bytes, now: Time, later: Time)
    requires ks != []
    ensures Apply(db, Req(CmdDel, ks), now).Some?
    ensures var after := Apply(db, Req(CmdDel, ks), now).value.dict;
            && GetReply(after, [Bulk(k)], later) == (if k in ks then NO_TEXT else GetReply(db.dict, [Bulk(k)], later))
            && DelReply(db.dict, after, Bulks(ks)) == NumberReply(Wrap64(|db.dict.Keys * AsSet(ks)|))
  {
    hide Req, Parse, GetReply;
    KeyRequests(k, ks, 0);
    var after := Apply(db, Req(CmdDel, ks), now).value.dict;
    ReadsTell(after, k, later);
    ReadsTell(db.dict, k, later);
    SplitKeys(db.dict, AsSet(ks));
  }

  lemma SplitKeys<V>(m: map<Bytes, V>, ks: set<Bytes>)
    ensures |m| - |m - ks| == |m.Keys * ks|
  {
    assert (m - ks).Keys == m.Keys - ks && m.Keys == (m.Keys - ks) + (m.Keys * ks);
    assert |m.Keys| == |m| && |(m - ks).Keys| == |m - ks|;
  }

  /** After EXPIRE k n, GET k answers as before for n seconds from now and nothing after them, or
      nothing at all if n is not positive; the reply says whether the key is stored. */
  lemma GetAfterExpire(db: DB, k: Bytes, n: int64, now: Time, later: Time)
    requires -MAX_SECONDS <= n <= MAX_SECONDS && now <= later
    ensures Apply(db, Req(CmdExpire, [k, FormatInt(n)]), now).Some?
    ensures var after := Apply(db, Req(CmdExpire, [k, FormatInt(n)]), now).value.dict;
            && GetReply(after, [Bulk(k)], later) ==
                 (if k in db.dict && 0 < n && later <= now + 1000 * n then TextReply(db.dict[k].value) else NO_TEXT)
            && TtlReply("ttl", after, [Bulk(k)], later) ==
                 NumberReply(if k in db.dict && 0 < n && later <= now + 1000 * n then (now + 1000 * n - later) / 1000 else -2)
            && ExpireReply("expire", db.dict, Bulks([k, FormatInt(n)])) == NumberReply(if k in db.dict then 1 else 0)
  {
    hide Req, Parse, FormatInt, Seconds, TtlReply, GetReply, ParseInt;
    ParseFormat(n);
    KeyRequests(k, [], n);
    SecondsExactly(n, now);
    WrapsSmall(n);
    var after := Apply(db, Req(CmdExpire, [k, FormatInt(n)]), now).value.dict;
    ReadsTell(after, k, later);
  }

  lemma WrapsSmall(n: int64)
    requires -MAX_SECONDS <= n <= MAX_SECONDS
    ensures Seconds(n) == n * 1_000_000_000 && (Seconds(n) > 0 <==> n > 0)
  {
  }

  /** After PEXPIREAT k at, the same up to that instant, or nothing if it is past. */
  lemma GetAfterPExpireAt(db: DB, k: Bytes, at: int64, now: Time, later: Time)
    requires now <= later
    ensures Apply(db, Req(CmdPExpireAt, [k, FormatInt(at)]), now).Some?
    ensures var after := Apply(db, Req(CmdPExpireAt, [k, FormatInt(at)]), now).value.dict;
            && GetReply(after, [Bulk(k)], later) == (if k in db.dict && later <= at then TextReply(db.dict[k].value) else NO_TEXT)
            && PExpireAtReply(db.dict, Bulks([k, FormatInt(at)])) == NumberReply(if k in db.dict then 1 else 0)
  {
    hide Req, Parse, FormatInt, GetReply, ParseInt;
    ParseFormat(at);
    KeyRequests(k, [], at);
    var after := Apply(db, Req(CmdPExpireAt, [k, FormatInt(at)]), now).value.dict;
    ReadsTell(after, k, later);
  }

  /** Over every run, with any eviction: what GET answers is the text last set, as the log has it. It
      does answer if no deadline given since has been reached, and never once the last one is past
      or the key was deleted. */
  lemma GetOverRuns(es: seq<Event>, k: Bytes, now: Time)
    requires DictRun(es) && LogRefinement.Ordered(es) && EndOf(es) <= now && Run(es).Some?
    ensures var live := Run(es).value; var t := TrackOf(live.log, k); var r := GetReply(live.db.dict, [Bulk(k)], now);
            && (r == NO_TEXT || (t.Present? && r == TextReply(t.value)))
            && (t.Present? && !AnyBefore(t.deadlines, now + 1) ==> r == TextReply(t.value))
            && (t == Absent || (LastOf(t.deadlines).Some? && LastOf(t.deadlines).value < now && t.deadlines != []) ==> r == NO_TEXT)
  {
    hide Run, TrackOf, DictRun, GetReply, AnyBefore;
    LiveTrack(es, k);
    var live := Run(es).value;
    var t := TrackOf(live.log, k);
    ReadsTell(live.db.dict, k, now);
    if t.Present? {
      AnyBeforeMore(t.deadlines, 0, EndOf(es), now + 1);
      AnyBeforeMore(t.deadlines, 0, EndOf(es) + 1, now + 1);
      AnyBeforeMore(t.deadlines, 0, now + 1, now + 1);
    }
  }

  // ---------- Sets ----------

  function Arguments(k: Bytes, texts: seq<Bytes>): seq<Value> {
    Bulks([k] + texts)
  }

  /** After SADD the named members are in the set, with those that were, and its deadline is what it
      was; the reply counts the new ones. Other sets are left alone. */
  lemma MembersAdded(m: Store<Members>, k: Bytes, ms: seq<Bytes>)
    requires ms != []
    ensures var after := Added(m, k, ms);
            && k in after && after == m[k := after[k]]
            && (forall x :: x in after[k].value <==> x in ms || (k in m && x in m[k].value))
            && after[k].expiredAt == (if k in m then m[k].expiredAt else None)
            && SaddReply(m, after, Arguments(k, ms)) ==
                 NumberReply(Wrap64(|set x | x in ms && !(k in m && x in m[k].value)|))
  {
    var was, more := MembersAt(m, k), set x | x in ms && !(k in m && x in m[k].value);
    assert was + AsSet(ms) == was + more && was * more == {};
  }

  /** After SREM the named members are out, the others and the deadline stay, and the key goes with its
      last member; the reply counts those removed. */
  lemma MembersRemoved(m: Store<Members>, k: Bytes, ms: seq<Bytes>)
    requires ms != [] && (k in m ==> m[k].value != {})
    ensures var after := Removed(m, k, ms);
            && (k in after <==> k in m && exists x :: x in m[k].value && x !in ms)
            && (k in after ==>
                  && after == m[k := after[k]]
                  && (forall x :: x in after[k].value <==> x in m[k].value && x !in ms)
                  && after[k].expiredAt == m[k].expiredAt)
            && (k !in after ==> after == m - {k})
            && SremReply(m, after, Arguments(k, ms)) == NumberReply(Wrap64(|set x | x in ms && k in m && x in m[k].value|))
  {
    var was, gone := MembersAt(m, k), set x | x in ms && k in m && x in m[k].value;
    assert was - AsSet(ms) == was - gone && gone <= was;
    assert |was - gone| == |was| - |gone|;
    if k in m && was - AsSet(ms) != {} {
      var x :| x in was - AsSet(ms);
      assert x in m[k].value && x !in ms;
    }
    assert k !in m ==> m - {k} == m;
  }

  /** SISMEMBER, SCARD, SMEMBERS and STTL tell what is stored, up to and at the deadline. */
  lemma SetReadsTell(m: Store<Members>, k: Bytes, x: Bytes, now: Time, r: Value)
    ensures var shown := k in m && (m[k].expiredAt == None || now <= m[k].expiredAt.value);
            && SismemberReply(m, Bulks([k, x]), now) == NumberReply(if shown && x in m[k].value then 1 else 0)
            && ScardReply(m, Bulks([k]), now) == NumberReply(if shown then Wrap64(|m[k].value|) else 0)
            && (!shown ==> (SmembersReply(m, Bulks([k]), now, r) <==> r == Value(Array, "", 0, [], true)))
            && (shown && SmembersReply(m, Bulks([k]), now, r) ==>
                  && r.kind == Array && !r.isNil && |r.items| == |m[k].value|
                  && (forall i :: 0 <= i < |r.items| ==> r.items[i] == TextReply(r.items[i].text) && r.items[i].text in m[k].value)
                  && (forall y :: y in m[k].value ==> exists i :: 0 <= i < |r.items| && r.items[i].text == y))
    ensures TtlReply("sttl", m, [Bulk(k)], now) ==
              NumberReply(if k !in m then -2
                          else if m[k].expiredAt == None then -1
                          else if m[k].expiredAt.value < now then -2
                          else Min((m[k].expiredAt.value - now) / 1000, 9_223_372_036))
  {
    if k in m && !Expired(m[k], now) && SmembersReply(m, Bulks([k]), now, r) {
      EnumeratedOnce(Texts(r.items), m[k].value);
    }
  }

  lemma {:induction false} EnumeratedOnce(order: seq<Bytes>, s: set<Bytes>)
    requires Enumerates(order, s)
    ensures |order| == |s| && (forall i :: 0 <= i < |order| ==> order[i] in s)
    ensures forall y :: y in s ==> exists i :: 0 <= i < |order| && order[i] == y
  {
    if order != [] {
      var front, last := order[..|order| - 1], order[|order| - 1];
      assert order == front + [last];
      assert AsSet(front) == s - {last} by {
        forall y | y in s - {last} ensures y in front {
          assert y in AsSet(order);
        }
      }
      assert last in AsSet(order);
      EnumeratedOnce(front, s - {last});
      forall y | y in s ensures exists i :: 0 <= i < |order| && order[i] == y {
        assert y in AsSet(order);
      }
    } else {
      assert s == {};
    }
  }

  // ---------- Hashes ----------

  /** After HSET the fields written hold what was written last (`LastWriteWins`) and the others what
      they did; the reply counts the new ones. Other hashes are left alone. */
  lemma FieldsWritten(m: HashStore, k: Bytes, fvs: seq<Bytes>, f: Bytes)
    requires fvs != [] && |fvs| % 2 == 0
    ensures var after := Written(m, k, fvs);
            && k in after && after == m[k := after[k]]
            && (f in after[k] <==> f in Writes(fvs) || (k in m && f in m[k]))
            && (f in after[k] ==> after[k][f] == if f in Writes(fvs) then Writes(fvs)[f] else m[k][f])
    ensures HsetReply(m, Written(m, k, fvs), Arguments(k, fvs)) == NumberReply(Wrap64(|Writes(fvs).Keys - HashAt(m, k).Keys|))
  {
    hide Writes, Wrap64, Bulks, HsetReply;
    var h := HashAt(m, k);
    assert Written(m, k, fvs) == m[k := h + Writes(fvs)];
    FieldsCounted(m, k, fvs);
  }

  lemma FieldsCounted(m: HashStore, k: Bytes, fvs: seq<Bytes>)
    requires fvs != [] && |fvs| % 2 == 0
    ensures HsetReply(m, m[k := HashAt(m, k) + Writes(fvs)], Arguments(k, fvs)) ==
              NumberReply(Wrap64(|Writes(fvs).Keys - HashAt(m, k).Keys|))
  {
    hide Writes, Wrap64, Arguments, HsetReply;
    var h, args := HashAt(m, k), Arguments(k, fvs);
    var after := m[k := h + Writes(fvs)];
    GrownBy(h, Writes(fvs));
    ArgumentsAre(k, fvs);
    CountedAt(m, after, args, k);
  }

  lemma ArgumentsAre(k: Bytes, texts: seq<Bytes>)
    requires texts != [] && |texts| % 2 == 0
    ensures |Arguments(k, texts)| >= 3 && |Arguments(k, texts)| % 2 != 0 && Arguments(k, texts)[0].text == k
  {
    assert |Arguments(k, texts)| == 1 + |texts|;
  }

  lemma CountedAt(m: HashStore, after: HashStore, args: seq<Value>, k: Bytes)
    requires |args| >= 3 && |args| % 2 != 0 && args[0].text == k
    ensures HsetReply(m, after, args) == Count(|HashAt(after, k)| - |HashAt(m, k)|)
  {
  }

  lemma GrownBy(h: Hash, w: Hash)
    ensures |h + w| - |h| == |w.Keys - h.Keys|
  {
    assert (h + w).Keys == h.Keys + (w.Keys - h.Keys);
    assert |(h + w).Keys| == |h + w| && |h.Keys| == |h|;
  }

  /** After HDEL the named fields are gone, the others stay, and the key goes with its last field; the
      reply counts those removed. Other hashes are left alone. */
  lemma FieldsErased(m: HashStore, k: Bytes, fs: seq<Bytes>, f: Bytes)
    requires fs != []
    ensures var after := Erased(m, k, fs);
            && (k in after <==> k in m && exists g :: g in m[k] && g !in fs)
            && (k in after ==>
                  && after == m[k := after[k]]
                  && (f in after[k] <==> f in m[k] && f !in fs) && (f in after[k] ==> after[k][f] == m[k][f]))
            && (k !in after ==> after == m - {k})
            && HdelReply(m, after, Arguments(k, fs)) == NumberReply(Wrap64(|HashAt(m, k).Keys * AsSet(fs)|))
  {
    var h, rest := HashAt(m, k), HashAt(m, k) - AsSet(fs);
    SplitKeys(h, AsSet(fs));
    if rest != map[] {
      var g :| g in rest;
      assert g in h && g !in fs;
    } else {
      assert forall g :: g in h ==> g in AsSet(fs);
    }
    assert k !in m ==> m - {k} == m;
  }

  // ---------- Lists ----------

  function ElemsAt(m: ListMap, k: Bytes): seq<Bytes> {
    if k in m then m[k].elems else []
  }

  /** LPUSH puts the values before the list, the last first; RPUSH puts them after it in order. Both
      reply its length. */
  lemma ListsGrow(db: DB, k: Bytes, vs: seq<Bytes>, now: Time)
    requires vs != []
    ensures var after := Apply(db, Req(CmdLpush, [k] + vs), now);
            && after.Some?
            && var m := after.value.lists;
               && k in m && m == db.lists[k := m[k]]
               && |m[k].elems| == |vs| + |ElemsAt(db.lists, k)|
               && (forall i :: 0 <= i < |vs| ==> m[k].elems[i] == vs[|vs| - 1 - i])
               && m[k].elems[|vs|..] == ElemsAt(db.lists, k)
               && PushReply("lpush", m, Arguments(k, vs)) == NumberReply(Wrap64(|ElemsAt(db.lists, k)| + |vs|))
    ensures var after := Apply(db, Req(CmdRpush, [k] + vs), now);
            after.Some? ==>
              var m := after.value.lists;
              && k in m && m == db.lists[k := m[k]] && m[k].elems == ElemsAt(db.lists, k) + vs
              && PushReply("rpush", m, Arguments(k, vs)) == NumberReply(Wrap64(|ElemsAt(db.lists, k)| + |vs|))
  {
    hide Req, Parse, PushAllFront, PushAllBack, Reverse;
    PushRequests(k, vs);
    PushAllFrontElems(RingAt(db.lists, k), vs);
    if !RingAt(db.lists, k).Stuck() {
      PushAllBackElems(RingAt(db.lists, k), vs);
    }
  }

  /** LPOP answers and takes the first elements, as many as there are up to the count. */
  lemma FrontTaken(db: DB, k: Bytes, n: int64, now: Time)
    requires k in db.lists && 0 <= n <= MAX_POP
    ensures var s := db.lists[k].elems; var taken := if n < |s| then n else |s|;
            var after := Apply(db, Req(CmdLpop, [k, FormatInt(n)]), now);
            && after.Some? && ElemsAt(after.value.lists, k) == s[taken..]
            && LpopReply(db.lists, Bulks([k, FormatInt(n)])) == Value(Array, "", 0, Bulks(s[..taken]), false)
  {
    hide Req, Parse, FormatInt, ParseInt, PoppedFront, PoppedBack, Bulks;
    ParseFormat(n);
    PopRequests(k, n);
    PopsTake(db.lists, k, n);
    var s := db.lists[k].elems;
    assert s[..|s|] == s && s[|s|..] == [];
  }

  /** RPOP the last, last first. */
  lemma BackTaken(db: DB, k: Bytes, n: int64, now: Time)
    requires k in db.lists && 0 <= n <= MAX_POP
    ensures var s := db.lists[k].elems; var taken := if n < |s| then n else |s|;
            var after := Apply(db, Req(CmdRpop, [k, FormatInt(n)]), now);
            && after.Some? && ElemsAt(after.value.lists, k) == s[..|s| - taken]
            && RpopReply(db.lists, Bulks([k, FormatInt(n)])) == Value(Array, "", 0, Bulks(LastFirst(s, taken)), false)
  {
    hide Req, Parse, FormatInt, ParseInt, PoppedFront, PoppedBack, Bulks;
    ParseFormat(n);
    PopRequests(k, n);
    PopsTake(db.lists, k, n);
    var s := db.lists[k].elems;
    assert s[..0] == [];
    assert PoppedBack(db.lists, k, n).1 == LastFirst(s, if n < |s| then n else |s|);
  }

  function LastFirst(s: seq<Bytes>, n: nat): seq<Bytes>
    requires n <= |s|
  {
    seq(n, i requires 0 <= i < n => s[|s| - 1 - i])
  }

  /** A pop panics on a count below zero, or above what can be allocated, if the key is there; else it
      does not. */
  lemma PopsPanicExactly(db: DB, k: Bytes, n: int64, now: Time)
    ensures Apply(db, Req(CmdLpop, [k, FormatInt(n)]), now).None? <==> k in db.lists && (n < 0 || MAX_POP < n)
    ensures Apply(db, Req(CmdRpop, [k, FormatInt(n)]), now).None? <==> k in db.lists && (n < 0 || MAX_POP < n)
  {
    hide Req, Parse, FormatInt;
    PopRequests(k, n);
  }

  /** SORT k puts the list in ascending order, by number unless ALPHA is among the words. */
  lemma SortOrders(db: DB, k: Bytes, words: seq<Bytes>, now: Time)
    requires k in db.lists && SortOptions(Bulks(words), true, false).Some?
    requires var (asc, alpha) := SortOptions(Bulks(words), true, false).value; Sortable(asc, alpha, db.lists[k].elems)
    ensures var (asc, alpha) := SortOptions(Bulks(words), true, false).value;
            var after := Apply(db, Req(CmdSort, [k] + words), now);
            && after.Some?
            && var m := after.value.lists;
               && k in m && m == db.lists[k := m[k]]
               && multiset(m[k].elems) == multiset(db.lists[k].elems)
               && AllInOrder(asc, alpha, m[k].elems)
  {
    hide Req, Parse, Sortable, AllInOrder, Sorted, SortOptions;
    SortRequests(k, words);
    var (asc, alpha) := SortOptions(Bulks(words), true, false).value;
    SortedKey(db.lists, k, asc, alpha);
  }

  // ---------- Refusals ----------

  /** A request with the wrong number of arguments is refused: it changes and logs nothing. */
  lemma WrongNumber(db: DB, h: Handler, args: seq<Value>, now: Time)
    requires match h
             case CmdGet => |args| < 1
             case CmdDel => |args| < 1
             case CmdSort => |args| < 1
             case CmdTTL => |args| != 1
             case CmdSMembers => |args| != 1
             case CmdSCard => |args| != 1
             case CmdSTTL => |args| != 1
             case CmdLpop => |args| < 1 || |args| > 2
             case CmdRpop => |args| < 1 || |args| > 2
             case CmdExpire => |args| != 2
             case CmdPExpireAt => |args| != 2
             case CmdSExpire => |args| != 2
             case CmdSIsMember => |args| != 2
             case CmdHset => |args| < 3 || |args| % 2 == 0
             case CmdAuth => |args| > 1
             case _ => |args| < 2
    ensures var c := ParseFor(h, args); Apply(db, c, now) == Some(db) && Logged(db, c, now) == []
  {
    assert ParseFor(h, args) == NoEffect;
  }

  /** AUTH says OK to the configured password alone. */
  lemma AuthTells(word: Bytes)
    ensures AuthReply([Bulk(word)]) == Value(SimpleString, "OK", 0, [], false) <==> word == PASSWORD
    ensures word != PASSWORD ==> AuthReply([Bulk(word)]) == ErrorReply("ERR auth is not correct")
  {
  }

  function ErrorReply(text: Bytes): Value { Value(Error, text, 0, [], false) }

  /** The words of a refusal, after which request it may be. */
  lemma Refusals(m: Store<Bytes>, k: Bytes, word: Bytes, now: Time)
    requires ParseInt(word).None?
    ensures GetReply(m, [], now) == ErrorReply("ERR wrong number of arguments for '" + "get" + "'")
    ensures SetReply([Bulk(k)]) == ErrorReply("ERR wrong number of arguments for '" + "set" + "'")
    ensures ExpireReply("expire", m, [Bulk(k)]) == ErrorReply("ERR wrong number of arguments for '" + "expire" + "'")
    ensures ExpireReply("expire", m, [Bulk(k), Bulk(word)]) == ErrorReply("ERR value is not an integer" + " or out of range")
    ensures PExpireAtReply(m, [Bulk(k), Bulk(word)]) == ErrorReply("ERR invalid expire time")
    ensures PopReply("lpop", [Bulk(k), Bulk(word)], []) == ErrorReply("ERR value is not an integer" + " or out of range")
    ensures SetReply([Bulk(k), Bulk(word)]) == Value(SimpleString, "OK", 0, [], false)
  {
    hide ParseInt;
  }
}
