/** Commands: how a request is read, what it does to the stores, and what it leaves in the log. */
module Commands {
  import opened ByteStrings
  import opened Resp
  import opened Expiry
  import opened Lists
  import opened Sets
  import opened HashMaps

  datatype DB = DB(dict: Store<Bytes>, sets: Store<Members>, lists: ListMap, hashes: HashStore)

  const EMPTY: DB := DB(map[], map[], map[], map[])

  // A name and its arguments, as taken from a request or a log record.
  datatype Call = Call(name: Bytes, args: seq<Value>)

  datatype Command =
    | Set(key: Bytes, value: Bytes, ttl: int64)
    | Get(key: Bytes)
    | Del(keys: seq<Bytes>)
    | Expire(key: Bytes, seconds: int64)
    | PExpireAt(key: Bytes, at: int64)
    | TTL(key: Bytes)
    | Lpush(key: Bytes, values: seq<Bytes>)
    | Rpush(key: Bytes, values: seq<Bytes>)
    | Lpop(key: Bytes, count: int64)
    | Rpop(key: Bytes, count: int64)
    | Sort(key: Bytes, asc: bool, alpha: bool, options: seq<Value>)
    | Hset(key: Bytes, fieldValues: seq<Bytes>)
    | Hdel(key: Bytes, fields: seq<Bytes>)
    | Sadd(key: Bytes, members: seq<Bytes>)
    | Srem(key: Bytes, members: seq<Bytes>)
    | SExpire(key: Bytes, seconds: int64)
    | SRead(key: Bytes)  // SMEMBERS, SISMEMBER, SCARD, STTL
    | Crash              // AUTH without a password: the handler reads an argument that is not there
    | NoEffect           // any other name, or arguments the handler rejects

  // ---------- Reading a request ----------

  function Texts(vs: seq<Value>): (ts: seq<Bytes>)
    ensures |ts| == |vs| && forall i :: 0 <= i < |vs| ==> ts[i] == vs[i].text
  {
    seq(|vs|, i requires 0 <= i < |vs| => vs[i].text)
  }

  function ParseSet(args: seq<Value>): Command {
    if |args| < 2 then NoEffect
    else
      var seconds := if |args| > 2 then ParseInt(args[2].text) else None;
      Set(args[0].text, args[1].text,
          if seconds.Some? && seconds.value > 0 then Seconds(seconds.value) else 0)
  }

  function ParseGet(args: seq<Value>): Command {
    if |args| < 1 then NoEffect else Get(args[0].text)
  }

  function ParseDel(args: seq<Value>): Command {
    if |args| < 1 then NoEffect else Del(Texts(args))
  }

  function ParseExpire(args: seq<Value>): Command {
    if |args| != 2 || ParseInt(args[1].text).None? then NoEffect
    else Expire(args[0].text, ParseInt(args[1].text).value)
  }

  function ParsePExpireAt(args: seq<Value>): Command {
    if |args| != 2 || ParseInt(args[1].text).None? then NoEffect
    else PExpireAt(args[0].text, ParseInt(args[1].text).value)
  }

  function ParseTTL(args: seq<Value>): Command {
    if |args| != 1 then NoEffect else TTL(args[0].text)
  }

  function ParseLpush(args: seq<Value>): Command {
    if |args| < 2 then NoEffect else Lpush(args[0].text, Texts(args[1..]))
  }

  function ParseRpush(args: seq<Value>): Command {
    if |args| < 2 then NoEffect else Rpush(args[0].text, Texts(args[1..]))
  }

  function PopCount(args: seq<Value>): Option<int64> {
    if |args| == 1 then Some(1) else if |args| == 2 then ParseInt(args[1].text) else None
  }

  function ParseLpop(args: seq<Value>): Command {
    if PopCount(args).None? then NoEffect else Lpop(args[0].text, PopCount(args).value)
  }

  function ParseRpop(args: seq<Value>): Command {
    if PopCount(args).None? then NoEffect else Rpop(args[0].text, PopCount(args).value)
  }

  /** The options of SORT, in any case, the last one of a kind winning; None on any other word. */
  function SortOptions(options: seq<Value>, asc: bool, alpha: bool): Option<(bool, bool)> {
    if options == [] then Some((asc, alpha))
    else
      var option := ToUpper(options[0].text);
      if option == "ASC" then SortOptions(options[1..], true, alpha)
      else if option == "DESC" then SortOptions(options[1..], false, alpha)
      else if option == "ALPHA" then SortOptions(options[1..], asc, true)
      else None
  }

  function ParseSort(args: seq<Value>): Command {
    if |args| < 1 || SortOptions(args[1..], true, false).None? then NoEffect
    else
      var (asc, alpha) := SortOptions(args[1..], true, false).value;
      Sort(args[0].text, asc, alpha, args[1..])
  }

  function ParseHset(args: seq<Value>): Command {
    if |args| < 3 || |args| % 2 == 0 then NoEffect else Hset(args[0].text, Texts(args[1..]))
  }

  function ParseHdel(args: seq<Value>): Command {
    if |args| < 2 then NoEffect else Hdel(args[0].text, Texts(args[1..]))
  }

  function ParseSadd(args: seq<Value>): Command {
    if |args| < 2 then NoEffect else Sadd(args[0].text, Texts(args[1..]))
  }

  function ParseSrem(args: seq<Value>): Command {
    if |args| < 2 then NoEffect else Srem(args[0].text, Texts(args[1..]))
  }

  function ParseSExpire(args: seq<Value>): Command {
    if |args| != 2 || ParseInt(args[1].text).None? then NoEffect
    else SExpire(args[0].text, ParseInt(args[1].text).value)
  }

  function ParseSRead(args: seq<Value>, arity: nat): Command
    requires 0 < arity
  {
    if |args| != arity then NoEffect else SRead(args[0].text)
  }

  function ParseAuth(args: seq<Value>): Command {
    if args == [] then Crash else NoEffect
  }

  // The registered handlers that touch a store or can crash.
  datatype Handler =
    | CmdSet | CmdGet | CmdDel | CmdExpire | CmdPExpireAt | CmdTTL | CmdLpush | CmdRpush | CmdLpop | CmdRpop
    | CmdSort | CmdHset | CmdHdel | CmdSAdd | CmdSRem | CmdSExpire | CmdSMembers | CmdSCard | CmdSTTL | CmdSIsMember
    | CmdAuth

  function NameOf(h: Handler): Bytes {
    match h
    case CmdSet => "SET"
    case CmdGet => "GET"
    case CmdDel => "DEL"
    case CmdExpire => "EXPIRE"
    case CmdPExpireAt => "PEXPIREAT"
    case CmdTTL => "TTL"
    case CmdLpush => "LPUSH"
    case CmdRpush => "RPUSH"
    case CmdLpop => "LPOP"
    case CmdRpop => "RPOP"
    case CmdSort => "SORT"
    case CmdHset => "HSET"
    case CmdHdel => "HDEL"
    case CmdSAdd => "SADD"
    case CmdSRem => "SREM"
    case CmdSExpire => "SEXPIRE"
    case CmdSMembers => "SMEMBERS"
    case CmdSCard => "SCARD"
    case CmdSTTL => "STTL"
    case CmdSIsMember => "SISMEMBER"
    case CmdAuth => "AUTH"
  }

  /** The registry, by name in any case; None for a name with no handler here. */
  function Lookup(name: Bytes): (h: Option<Handler>)
    ensures h.Some? ==> NameOf(h.value) == ToUpper(name)
  {
    var u := ToUpper(name);
    if u == "SET" then Some(CmdSet)
    else if u == "GET" then Some(CmdGet)
    else if u == "DEL" then Some(CmdDel)
    else if u == "EXPIRE" then Some(CmdExpire)
    else if u == "PEXPIREAT" then Some(CmdPExpireAt)
    else if u == "TTL" then Some(CmdTTL)
    else if u == "LPUSH" then Some(CmdLpush)
    else if u == "RPUSH" then Some(CmdRpush)
    else if u == "LPOP" then Some(CmdLpop)
    else if u == "RPOP" then Some(CmdRpop)
    else if u == "SORT" then Some(CmdSort)
    else if u == "HSET" then Some(CmdHset)
    else if u == "HDEL" then Some(CmdHdel)
    else if u == "SADD" then Some(CmdSAdd)
    else if u == "SREM" then Some(CmdSRem)
    else if u == "SEXPIRE" then Some(CmdSExpire)
    else if u == "SMEMBERS" then Some(CmdSMembers)
    else if u == "SCARD" then Some(CmdSCard)
    else if u == "STTL" then Some(CmdSTTL)
    else if u == "SISMEMBER" then Some(CmdSIsMember)
    else if u == "AUTH" then Some(CmdAuth)
    else None
  }

  function ParseFor(h: Handler, args: seq<Value>): Command {
    match h
    case CmdSet => ParseSet(args)
    case CmdGet => ParseGet(args)
    case CmdDel => ParseDel(args)
    case CmdExpire => ParseExpire(args)
    case CmdPExpireAt => ParsePExpireAt(args)
    case CmdTTL => ParseTTL(args)
    case CmdLpush => ParseLpush(args)
    case CmdRpush => ParseRpush(args)
    case CmdLpop => ParseLpop(args)
    case CmdRpop => ParseRpop(args)
    case CmdSort => ParseSort(args)
    case CmdHset => ParseHset(args)
    case CmdHdel => ParseHdel(args)
    case CmdSAdd => ParseSadd(args)
    case CmdSRem => ParseSrem(args)
    case CmdSExpire => ParseSExpire(args)
    case CmdSMembers => ParseSRead(args, 1)
    case CmdSCard => ParseSRead(args, 1)
    case CmdSTTL => ParseSRead(args, 1)
    case CmdSIsMember => ParseSRead(args, 2)
    case CmdAuth => ParseAuth(args)
  }

  function Parse(c: Call): Command {
    match Lookup(c.name)
    case Some(h) => ParseFor(h, c.args)
    case None => NoEffect
  }

  lemma LookupName(h: Handler)
    ensures Lookup(NameOf(h)) == Some(h)
  {
    hide ToUpper;
    NamesAreUpper(h);
  }

  lemma NamesAreUpper(h: Handler)
    ensures ToUpper(NameOf(h)) == NameOf(h)
  {
    hide ToUpper;
    ToUpperFixed(NameOf(h));
  }

  // ---------- What a command does ----------

  /** The stores afterwards; None if the program panics. */
  function Apply(db: DB, c: Command, now: Time): Option<DB> {
    match c
    case Set(k, v, ttl) => Some(db.(dict := Put(db.dict, k, v, ttl, now)))
    case Get(k) => Some(db.(dict := EvictIfExpired(db.dict, k, now)))
    case Del(ks) => Some(db.(dict := db.dict - AsSet(ks)))
    case Expire(k, s) => Some(db.(dict := Expiry.Expire(db.dict, k, Expiry.Seconds(s), now)))
    case PExpireAt(k, at) => Some(db.(dict := Expiry.ExpireAt(db.dict, k, at, now)))
    case TTL(k) => Some(db.(dict := EvictIfExpired(db.dict, k, now)))
    case Lpush(k, vs) => Some(db.(lists := PushedFront(db.lists, k, vs)))
    case Rpush(k, vs) =>
      if PushBackPanics(db.lists, k, vs) then None else Some(db.(lists := PushedBack(db.lists, k, vs)))
    case Lpop(k, n) =>
      if PopPanics(db.lists, k, n) then None else Some(db.(lists := PoppedFront(db.lists, k, n).0))
    case Rpop(k, n) =>
      if PopPanics(db.lists, k, n) then None else Some(db.(lists := PoppedBack(db.lists, k, n).0))
    case Sort(k, asc, alpha, _) => Some(db.(lists := Sorted(db.lists, k, asc, alpha)))
    case Hset(k, fvs) => Some(db.(hashes := Written(db.hashes, k, fvs)))
    case Hdel(k, fs) => Some(db.(hashes := Erased(db.hashes, k, fs)))
    case Sadd(k, ms) => Some(db.(sets := Added(db.sets, k, ms)))
    case Srem(k, ms) => Some(db.(sets := Removed(db.sets, k, ms)))
    case SExpire(k, s) => Some(db.(sets := Expiry.Expire(db.sets, k, Expiry.Seconds(s), now)))
    case SRead(k) => Some(db.(sets := EvictIfExpired(db.sets, k, now)))
    case Crash => None
    case NoEffect => Some(db)
  }

  // ---------- What a command leaves in the log ----------

  /** The records appended when the command runs on `db`, as the commands they spell. */
  function Logged(db: DB, c: Command, now: Time): seq<Command> {
    match c
    case Set(k, v, ttl) =>
      [Set(k, v, 0)] + if ttl > 0 then [PExpireAt(k, After(now, ttl))] else []
    case Del(ks) => [c]
    case Expire(k, s) => if k in db.dict then [PExpireAt(k, After(now, Expiry.Seconds(s)))] else []
    case Lpush(k, vs) => if PushedFront(db.lists, k, vs)[k].elems != [] then [c] else []
    case Rpush(k, vs) =>
      if !PushBackPanics(db.lists, k, vs) && PushedBack(db.lists, k, vs)[k].elems != [] then [c] else []
    case Sort(_, _, _, _) => [c]
    case Hset(k, fvs) => if |HashAt(Written(db.hashes, k, fvs), k)| > |HashAt(db.hashes, k)| then [c] else []
    case Hdel(k, fs) => if |HashAt(Erased(db.hashes, k, fs), k)| < |HashAt(db.hashes, k)| then [c] else []
    case Sadd(k, ms) => if |MembersAt(Added(db.sets, k, ms), k)| > |MembersAt(db.sets, k)| then [c] else []
    case Srem(k, ms) => if |MembersAt(Removed(db.sets, k, ms), k)| < |MembersAt(db.sets, k)| then [c] else []
    case SExpire(k, s) => if k in db.sets then [PExpireAt(k, After(now, Expiry.Seconds(s)))] else []
    case _ => []
  }

  /** The commands a log record can spell. */
  predicate Loggable(c: Command) {
    match c
    case Set(_, _, ttl) => ttl == 0
    case PExpireAt(_, _) => true
    case Del(ks) => ks != []
    case Lpush(_, vs) => vs != []
    case Rpush(_, vs) => vs != []
    case Sort(_, asc, alpha, options) => SortOptions(options, true, false) == Some((asc, alpha))
    case Hset(_, fvs) => |fvs| >= 2 && |fvs| % 2 == 0
    case Hdel(_, fs) => fs != []
    case Sadd(_, ms) => ms != []
    case Srem(_, ms) => ms != []
    case _ => false
  }

  function Bulks(ts: seq<Bytes>): (vs: seq<Value>)
    ensures |vs| == |ts| && forall i :: 0 <= i < |ts| ==> vs[i] == Bulk(ts[i])
  {
    seq(|ts|, i requires 0 <= i < |ts| => Bulk(ts[i]))
  }

  function Record(name: Bytes, texts: seq<Bytes>): Value {
    Arr([Bulk(name)] + Bulks(texts))
  }

  function Emit(c: Command): Value
    requires Loggable(c)
  {
    match c
    case Set(k, v, _) => Record("SET", [k, v])
    case PExpireAt(k, at) => Record("PEXPIREAT", [k, FormatInt(at)])
    case Del(ks) => Record("DEL", ks)
    case Lpush(k, vs) => Record("LPUSH", [k] + vs)
    case Rpush(k, vs) => Record("RPUSH", [k] + vs)
    case Sort(k, _, _, options) => Arr([Bulk("SORT"), Bulk(k)] + options)
    case Hset(k, fvs) => Record("HSET", [k] + fvs)
    case Hdel(k, fs) => Record("HDEL", [k] + fs)
    case Sadd(k, ms) => Record("SADD", [k] + ms)
    case Srem(k, ms) => Record("SREM", [k] + ms)
  }

  predicate AllLoggable(log: seq<Command>) {
    forall i :: 0 <= i < |log| ==> Loggable(log[i])
  }

  function EmitAll(log: seq<Command>): (vs: seq<Value>)
    requires AllLoggable(log)
    ensures |vs| == |log| && forall i :: 0 <= i < |log| ==> vs[i] == Emit(log[i])
  {
    seq(|log|, i requires 0 <= i < |log| => Emit(log[i]))
  }

  /** What loading makes of one decoded value: a call, unless it is not a command. */
  function CallOf(v: Value): Option<Call> {
    if v.kind != Array || v.items == [] then None
    else if v.items[0].kind != BulkString && v.items[0].kind != SimpleString then None
    else Some(Call(v.items[0].text, v.items[1..]))
  }

  lemma ParseSortKeeps(args: seq<Value>)
    ensures var c := ParseSort(args);
            c.Sort? ==> SortOptions(c.options, true, false) == Some((c.asc, c.alpha))
  {
    hide SortOptions;
    if |args| >= 1 && SortOptions(args[1..], true, false).Some? {
      var p := SortOptions(args[1..], true, false).value;
      assert p == (p.0, p.1);
    }
  }

  lemma ParsedShape(h: Handler, args: seq<Value>)
    ensures var c := ParseFor(h, args);
            c.Del? || c.Lpush? || c.Rpush? || c.Sort? || c.Hset? || c.Hdel? || c.Sadd? || c.Srem? ==> Loggable(c)
  {
    hide SortOptions, Lookup;
    ParseSortKeeps(args);
  }

  lemma LoggedIsLoggable(db: DB, c: Call, now: Time)
    ensures AllLoggable(Logged(db, Parse(c), now))
  {
    hide Lookup, ParseFor, SortOptions;
    if Lookup(c.name).Some? {
      ParsedShape(Lookup(c.name).value, c.args);
    }
  }

  lemma RecordArgs(h: Handler, texts: seq<Bytes>)
    ensures CallOf(Record(NameOf(h), texts)) == Some(Call(NameOf(h), Bulks(texts)))
    ensures Parse(Call(NameOf(h), Bulks(texts))) == ParseFor(h, Bulks(texts))
    ensures Texts(Bulks(texts)) == texts
    ensures texts != [] ==> Texts(Bulks(texts)[1..]) == texts[1..]
  {
    hide Lookup, NameOf, ParseFor;
    LookupName(h);
    assert Record(NameOf(h), texts).items[1..] == Bulks(texts);
    assert Texts(Bulks(texts)) == texts;
    if texts != [] {
      assert Texts(Bulks(texts)[1..]) == texts[1..];
    }
  }

  /** A record read back is the command it spells. */
  lemma ParseEmit(c: Command)
    requires Loggable(c)
    ensures CallOf(Emit(c)).Some? && Parse(CallOf(Emit(c)).value) == c
  {
    hide Parse, CallOf;
    match c
    case Sort(k, asc, alpha, options) => ParseSortRecord(k, asc, alpha, options);
    case Lpush(_, _) => ParseListRecord(c);
    case Rpush(_, _) => ParseListRecord(c);
    case Hset(_, _) => ParseHashRecord(c);
    case Hdel(_, _) => ParseHashRecord(c);
    case Sadd(_, _) => ParseSetRecord(c);
    case Srem(_, _) => ParseSetRecord(c);
    case _ => ParseDictRecord(c);
  }

  lemma ParseListRecord(c: Command)
    requires Loggable(c) && (c.Lpush? || c.Rpush?)
    ensures CallOf(Emit(c)).Some? && Parse(CallOf(Emit(c)).value) == c
  {
    hide Lookup, Parse, Bulks, Texts;
    if c.Lpush? {
      ParseKeyed(CmdLpush, c.key, c.values);
    } else {
      ParseKeyed(CmdRpush, c.key, c.values);
    }
  }

  lemma ParseHashRecord(c: Command)
    requires Loggable(c) && (c.Hset? || c.Hdel?)
    ensures CallOf(Emit(c)).Some? && Parse(CallOf(Emit(c)).value) == c
  {
    hide Lookup, Parse, Bulks, Texts;
    if c.Hset? {
      ParseKeyed(CmdHset, c.key, c.fieldValues);
    } else {
      ParseKeyed(CmdHdel, c.key, c.fields);
    }
  }

  lemma ParseSetRecord(c: Command)
    requires Loggable(c) && (c.Sadd? || c.Srem?)
    ensures CallOf(Emit(c)).Some? && Parse(CallOf(Emit(c)).value) == c
  {
    hide Lookup, Parse, Bulks, Texts;
    if c.Sadd? {
      ParseKeyed(CmdSAdd, c.key, c.members);
    } else {
      ParseKeyed(CmdSRem, c.key, c.members);
    }
  }

  lemma ParseDictRecord(c: Command)
    requires Loggable(c) && (c.Set? || c.PExpireAt? || c.Del?)
    ensures CallOf(Emit(c)).Some? && Parse(CallOf(Emit(c)).value) == c
  {
    hide Lookup, Parse, FormatInt, ParseInt;
    match c
    case Set(k, v, _) => RecordArgs(CmdSet, [k, v]);
    case PExpireAt(k, at) =>
      RecordArgs(CmdPExpireAt, [k, FormatInt(at)]);
      ParseFormat(at);
    case Del(ks) => RecordArgs(CmdDel, ks);
  }

  lemma ParseKeyed(h: Handler, key: Bytes, texts: seq<Bytes>)
    requires texts != []
    ensures CallOf(Record(NameOf(h), [key] + texts)) == Some(Call(NameOf(h), Bulks([key] + texts)))
    ensures Parse(Call(NameOf(h), Bulks([key] + texts))) == ParseFor(h, Bulks([key] + texts))
    ensures var args := Bulks([key] + texts);
            |args| == 1 + |texts| && args[0].text == key && Texts(args[1..]) == texts
  {
    hide Lookup, NameOf, ParseFor, Parse;
    RecordArgs(h, [key] + texts);
    assert ([key] + texts)[1..] == texts;
  }

  lemma ParseSortRecord(key: Bytes, asc: bool, alpha: bool, options: seq<Value>)
    requires SortOptions(options, true, false) == Some((asc, alpha))
    ensures var v := Arr([Bulk("SORT"), Bulk(key)] + options);
            CallOf(v).Some? && Parse(CallOf(v).value) == Sort(key, asc, alpha, options)
  {
    hide Lookup, SortOptions;
    LookupName(CmdSort);
    var v := Arr([Bulk("SORT"), Bulk(key)] + options);
    assert v.items[1..] == [Bulk(key)] + options;
    assert v.items[1..][1..] == options;
  }
}
