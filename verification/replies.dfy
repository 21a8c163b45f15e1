/** What the handlers answer. */
module Replies {
  import opened ByteStrings
  import opened Resp
  import opened Expiry
  import opened Lists
  import opened Sets
  import opened HashMaps
  import opened Commands

  const OK_REPLY: Value := Simple("OK")
  const NOT_INTEGER: Value := Err("ERR value is not an integer" + " or out of range")

  function WrongArity(name: Bytes): Value {
    Err("ERR wrong number of arguments for '" + name + "'")
  }

  /** A number as the program's 64-bit integer. */
  function Count(n: int): Value {
    Int(Wrap64(n))
  }

  function Flag(b: bool): Value {
    Int(if b then 1 else 0)
  }

  // The configured password.
  const PASSWORD: Bytes

  function AuthReply(args: seq<Value>): Value
    requires args != []
  {
    if |args| > 1 then WrongArity("auth")
    else if args[0].text != PASSWORD then Err("ERR auth is not correct")
    else OK_REPLY
  }

  function SetReply(args: seq<Value>): Value {
    if |args| < 2 then WrongArity("set") else OK_REPLY
  }

  function GetReply(m: Store<Bytes>, args: seq<Value>, now: Time): Value {
    if |args| < 1 then WrongArity("get")
    else
      match Find(m, args[0].text, now)
      case None => NilBulk
      case Some(v) => Bulk(v)
  }

  function DelReply(before: Store<Bytes>, after: Store<Bytes>, args: seq<Value>): Value {
    if |args| < 1 then WrongArity("del") else Count(|before| - |after|)
  }

  function ExpireReply<V>(name: Bytes, m: Store<V>, args: seq<Value>): Value {
    if |args| != 2 then WrongArity(name)
    else if ParseInt(args[1].text).None? then NOT_INTEGER
    else Flag(args[0].text in m)
  }

  function PExpireAtReply(m: Store<Bytes>, args: seq<Value>): Value {
    if |args| != 2 then WrongArity("pexpireat")
    else if ParseInt(args[1].text).None? then Err("ERR invalid expire time")
    else Flag(args[0].text in m)
  }

  function TtlReply<V>(name: Bytes, m: Store<V>, args: seq<Value>, now: Time): Value {
    if |args| != 1 then WrongArity(name) else Count(Ttl(m, args[0].text, now))
  }

  function PushReply(name: Bytes, after: ListMap, args: seq<Value>): Value {
    if |args| < 2 then WrongArity(name) else Count(|RingAt(after, args[0].text).elems|)
  }

  function PopReply(name: Bytes, args: seq<Value>, popped: seq<Bytes>): Value {
    if |args| < 1 || |args| > 2 then WrongArity(name)
    else if PopCount(args).None? then NOT_INTEGER
    else Arr(Bulks(popped))
  }

  function LpopReply(m: ListMap, args: seq<Value>): Value {
    var n := PopCount(args);
    PopReply("lpop", args, if n.None? || PopPanics(m, args[0].text, n.value) then [] else PoppedFront(m, args[0].text, n.value).1)
  }

  function RpopReply(m: ListMap, args: seq<Value>): Value {
    var n := PopCount(args);
    PopReply("rpop", args, if n.None? || PopPanics(m, args[0].text, n.value) then [] else PoppedBack(m, args[0].text, n.value).1)
  }

  function SortReply(args: seq<Value>): Value {
    if |args| < 1 then WrongArity("sort")
    else if SortOptions(args[1..], true, false).None? then Err("ERR syntax error")
    else OK_REPLY
  }

  function HsetReply(before: HashStore, after: HashStore, args: seq<Value>): Value {
    if |args| < 3 || |args| % 2 == 0 then WrongArity("hset")
    else Count(|HashAt(after, args[0].text)| - |HashAt(before, args[0].text)|)
  }

  function HdelReply(before: HashStore, after: HashStore, args: seq<Value>): Value {
    if |args| < 2 then WrongArity("hdel")
    else Count(|HashAt(before, args[0].text)| - |HashAt(after, args[0].text)|)
  }

  function SaddReply(before: Store<Members>, after: Store<Members>, args: seq<Value>): Value {
    if |args| < 2 then WrongArity("sadd")
    else Count(|MembersAt(after, args[0].text)| - |MembersAt(before, args[0].text)|)
  }

  function SremReply(before: Store<Members>, after: Store<Members>, args: seq<Value>): Value {
    if |args| < 2 then WrongArity("srem")
    else Count(|MembersAt(before, args[0].text)| - |MembersAt(after, args[0].text)|)
  }

  function Shown(m: Store<Members>, key: Bytes, now: Time): Members {
    match Find(m, key, now)
    case None => {}
    case Some(ms) => ms
  }

  /** The members come in any order. */
  predicate SmembersReply(m: Store<Members>, args: seq<Value>, now: Time, reply: Value) {
    if |args| != 1 then reply == WrongArity("smembers")
    else if Find(m, args[0].text, now).None? then reply == NilArray
    else reply == Arr(Bulks(Texts(reply.items))) && Enumerates(Texts(reply.items), Shown(m, args[0].text, now))
  }

  function SismemberReply(m: Store<Members>, args: seq<Value>, now: Time): Value {
    if |args| != 2 then WrongArity("sismember") else Flag(args[1].text in Shown(m, args[0].text, now))
  }

  function ScardReply(m: Store<Members>, args: seq<Value>, now: Time): Value {
    if |args| != 1 then WrongArity("scard") else Count(|Shown(m, args[0].text, now)|)
  }

  /** Every read answers alike on both stores, for these arguments. */
  ghost predicate AnswerAlike(a: DB, b: DB, args: seq<Value>, now: Time) {
    && GetReply(a.dict, args, now) == GetReply(b.dict, args, now)
    && TtlReply("ttl", a.dict, args, now) == TtlReply("ttl", b.dict, args, now)
    && TtlReply("sttl", a.sets, args, now) == TtlReply("sttl", b.sets, args, now)
    && (forall r :: SmembersReply(a.sets, args, now, r) <==> SmembersReply(b.sets, args, now, r))
    && SismemberReply(a.sets, args, now) == SismemberReply(b.sets, args, now)
    && ScardReply(a.sets, args, now) == ScardReply(b.sets, args, now)
  }

  /** Stores that show the same at an instant answer every read alike then: what a client cannot
      see, such as an expired key not yet evicted, it cannot learn of either. */
  lemma ReadsAgree(a: DB, b: DB, args: seq<Value>, now: Time)
    requires Visible(a.dict, now) == Visible(b.dict, now) && Visible(a.sets, now) == Visible(b.sets, now)
    ensures AnswerAlike(a, b, args, now)
  {
    if args != [] {
      SeenAlike(a.dict, b.dict, args[0].text, now);
      SeenAlike(a.sets, b.sets, args[0].text, now);
    }
  }

  lemma SeenAlike<V>(a: Store<V>, b: Store<V>, key: Bytes, now: Time)
    requires Visible(a, now) == Visible(b, now)
    ensures Find(a, key, now) == Find(b, key, now) && Ttl(a, key, now) == Ttl(b, key, now)
  {
    var va, vb := Visible(a, now), Visible(b, now);
    assert key in va ==> va[key] == a[key];
    assert key in vb ==> vb[key] == b[key];
    assert key in va <==> key in vb;
  }

  /** EXPIRE can: its answer tells an evicted key from one that has only expired. */
  lemma ExpireTellsExactly(m: Store<Bytes>, args: seq<Value>, now: Time)
    requires |args| == 2 && ParseInt(args[1].text).Some?
    ensures ExpireReply("expire", m, args) == ExpireReply("expire", Visible(m, now), args)
            <==> args[0].text !in m || !Expired(m[args[0].text], now)
  {
  }
}
