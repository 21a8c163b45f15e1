/** The command handlers, and the server's loading and rewriting of its files. */
module Servers {
  import opened ByteStrings
  import opened Resp
  import opened Expiry
  import opened Lists
  import opened Sets
  import opened HashMaps
  import opened Commands
  import opened LogRefinement
  import opened Loading
  import opened Compaction
  import opened AppendOnlyFile
  import opened Replies
  import Dicts
  import RespReader

  class Server {
    const dict: Dicts.Dict
    const sets: Sets.Set
    const lists: List
    const hashes: HashMap
    const aof: AOF

    ghost predicate Valid()
      reads lists, lists.owner.Keys
    {
      && lists.Valid()
      && dict !in lists.owner && sets !in lists.owner && hashes !in lists.owner && aof !in lists.owner
    }

    ghost function Abs(): DB
      reads dict, sets, lists, lists.items.Values, hashes
    {
      DB(dict.items, sets.items, lists.Abs(), hashes.items)
    }

    constructor (file: Bytes, enabled: bool)
      ensures Valid() && Abs() == EMPTY
      ensures aof.file == file && aof.enabled == enabled && !aof.replaying
      ensures fresh(dict) && fresh(sets) && fresh(lists) && fresh(lists.owner.Keys) && fresh(hashes) && fresh(aof)
    {
      dict := new Dicts.Dict();
      sets := new Sets.Set();
      lists := new List();
      hashes := new HashMap();
      aof := new AOF(file, enabled);
    }

    /** The command ran at `now`: the stores and the file are what they should be. */
    twostate predicate Performed(c: Command, now: Time, panicked: bool)
      reads dict, sets, lists, lists.items.Values, hashes, aof
    {
      && aof.enabled == old(aof.enabled) && aof.replaying == old(aof.replaying)
      && panicked == Apply(old(Abs()), c, now).None?
      && (panicked ==> aof.file == old(aof.file))
      && (!panicked ==>
            && Apply(old(Abs()), c, now) == Some(Abs())
            && AllLoggable(Logged(old(Abs()), c, now))
            && aof.file == old(aof.file) + if aof.enabled && !aof.replaying then Image(Logged(old(Abs()), c, now)) else "")
    }

    method CmdSet(args: seq<Value>, now: Time) returns (reply: Value)
      requires Valid()
      modifies dict, aof`file
      ensures Valid() && Performed(ParseSet(args), now, false)
      ensures reply == SetReply(args)
    {
      hide Image, Emit, Encode, FormatInt, ParseInt, Put, List.Valid, List.Abs, Seconds, After, Record, Loggable,
           AllLoggable, EvictIfExpired, Expiry.Expire, ExpireAt, PushedFront, PushedBack, PushBackPanics,
           PoppedFront, PoppedBack, PopPanics, Sorted, Written, Erased, Added, Removed, HashAt, MembersAt,
           SortOptions;
      NothingLogged();
      if |args| < 2 {
        return WrongArity("set");
      }
      var key, val := args[0].text, args[1].text;
      var ttl: int64 := 0;
      if |args| > 2 {
        var seconds := ParseInt(args[2].text);
        if seconds.Some? && seconds.value > 0 {
          ttl := Seconds(seconds.value);
        }
      }
      dict.Set(key, val, ttl, now);
      SetRecord(key, val);
      aof.Append(Record("SET", [key, val]));
      if ttl > 0 {
        var at := After(now, ttl);
        DeadlineRecord(key, at);
        ImageAppend([Set(key, val, 0)], [PExpireAt(key, at)]);
        aof.Append(Record("PEXPIREAT", [key, FormatInt(at)]));
      } else {
        assert [Set(key, val, 0)] + [] == [Set(key, val, 0)];
      }
      reply := OK_REPLY;
    }

    method CmdGet(args: seq<Value>, now: Time) returns (reply: Value)
      requires Valid()
      modifies dict
      ensures Valid() && Performed(ParseGet(args), now, false)
      ensures reply == GetReply(old(dict.items), args, now)
    {
      hide Image, Encode, Record, Loggable, AllLoggable, List.Valid, List.Abs, Texts, AsSet, EvictIfExpired,
           Evicted, Put, Expiry.Expire, ExpireAt, PushedFront, PushedBack, PushBackPanics, PoppedFront, PoppedBack,
           PopPanics, Sorted, Written, Erased, Added, Removed, HashAt, MembersAt, SortOptions;
      NothingLogged();
      if |args| < 1 {
        return WrongArity("get");
      }
      var value := dict.Get(args[0].text, now);
      reply := if value.None? then NilBulk else Bulk(value.value);
    }

    method CmdDel(args: seq<Value>, now: Time) returns (reply: Value)
      requires Valid()
      modifies dict, aof`file
      ensures Valid() && Performed(ParseDel(args), now, false)
      ensures reply == DelReply(old(dict.items), dict.items, args)
    {
      hide List.Valid, List.Abs, Texts, Apply, Logged, Image, AllLoggable;
      if |args| < 1 {
        NoEffectPerformed(now);
        return WrongArity("del");
      }
      var keys := TextsOf(args);
      var n := DelKeys(keys, now);
      reply := Count(n);
    }

    method DelKeys(keys: seq<Bytes>, now: Time) returns (n: nat)
      requires Valid() && keys != []
      modifies dict, aof`file
      ensures Valid() && Performed(Del(keys), now, false)
      ensures n == |old(dict.items)| - |dict.items|
    {
      hide Image, Emit, Encode, Record, Loggable, AllLoggable, List.Valid, List.Abs, AsSet;
      NothingLogged();
      n := dict.Delete(keys);
      DelRecord(keys);
      aof.Append(Record("DEL", keys));
    }

    method CmdExpire(args: seq<Value>, now: Time) returns (reply: Value)
      requires Valid()
      modifies dict, aof`file
      ensures Valid() && Performed(ParseExpire(args), now, false)
      ensures reply == ExpireReply("expire", old(dict.items), args)
    {
      hide Image, Encode, Record, Loggable, AllLoggable, List.Valid, List.Abs, Texts, AsSet, Expiry.Expire,
           FormatInt, ParseInt, Seconds, After, Put, EvictIfExpired, ExpireAt, PushedFront, PushedBack,
           PushBackPanics, PoppedFront, PoppedBack, PopPanics, Sorted, Written, Erased, Added, Removed, HashAt,
           MembersAt, SortOptions;
      NothingLogged();
      if |args| != 2 {
        return WrongArity("expire");
      }
      var key, seconds := args[0].text, ParseInt(args[1].text);
      if seconds.None? {
        return NOT_INTEGER;
      }
      var ok := dict.Expire(key, Seconds(seconds.value), now);
      var at := After(now, Seconds(seconds.value));
      if !ok {
        return Flag(false);
      }
      DeadlineRecord(key, at);
      aof.Append(Record("PEXPIREAT", [key, FormatInt(at)]));
      reply := Flag(true);
    }

    method CmdPExpireAt(args: seq<Value>, now: Time) returns (reply: Value)
      requires Valid()
      modifies dict
      ensures Valid() && Performed(ParsePExpireAt(args), now, false)
      ensures reply == PExpireAtReply(old(dict.items), args)
    {
      hide Image, Encode, Record, Loggable, AllLoggable, List.Valid, List.Abs, Texts, AsSet, ExpireAt, ParseInt,
           Put, EvictIfExpired, Expiry.Expire, PushedFront, PushedBack, PushBackPanics, PoppedFront, PoppedBack,
           PopPanics, Sorted, Written, Erased, Added, Removed, HashAt, MembersAt, SortOptions;
      NothingLogged();
      if |args| != 2 {
        return WrongArity("pexpireat");
      }
      var key, ms := args[0].text, ParseInt(args[1].text);
      if ms.None? {
        return Err("ERR invalid expire time");
      }
      var ok := dict.ExpireAt(key, ms.value, now);
      reply := Flag(ok);
    }

    method CmdTTL(args: seq<Value>, now: Time) returns (reply: Value)
      requires Valid()
      modifies dict
      ensures Valid() && Performed(ParseTTL(args), now, false)
      ensures reply == TtlReply("ttl", old(dict.items), args, now)
    {
      hide Image, Encode, Record, Loggable, AllLoggable, List.Valid, List.Abs, Texts, AsSet, EvictIfExpired,
           Evicted, Put, Expiry.Expire, ExpireAt, PushedFront, PushedBack, PushBackPanics, PoppedFront, PoppedBack,
           PopPanics, Sorted, Written, Erased, Added, Removed, HashAt, MembersAt, SortOptions;
      NothingLogged();
      if |args| != 1 {
        return WrongArity("ttl");
      }
      var seconds := dict.TTL(args[0].text, now);
      reply := Count(seconds);
    }

    method CmdLpush(args: seq<Value>, now: Time) returns (reply: Value)
      requires Valid()
      modifies lists, lists.owner.Keys, aof`file
      ensures fresh(lists.owner.Keys - old(lists.owner.Keys))
      ensures Valid() && Performed(ParseLpush(args), now, false)
      ensures reply == PushReply("lpush", Abs().lists, args)
    {
      hide Image, Emit, Encode, Record, Loggable, AllLoggable, List.Valid, List.Abs, Texts, AsSet, PushAllFront,
           Put, EvictIfExpired, Expiry.Expire, ExpireAt, PushedFront, PushedBack, PushBackPanics, PoppedFront,
           PoppedBack, PopPanics, Sorted, Written, Erased, Added, Removed, HashAt, MembersAt, SortOptions;
      NothingLogged();
      if |args| < 2 {
        return WrongArity("lpush");
      }
      var key := args[0].text;
      var values := TextsOf(args[1..]);
      var n := lists.Lpush(key, values);
      if n > 0 {
        ListRecords(key, values);
        aof.Append(Record("LPUSH", [key] + values));
      }
      reply := Count(n);
    }

    method CmdRpush(args: seq<Value>, now: Time) returns (reply: Value, panicked: bool)
      requires Valid()
      modifies lists, lists.owner.Keys, aof`file
      ensures fresh(lists.owner.Keys - old(lists.owner.Keys))
      ensures Valid() && Performed(ParseRpush(args), now, panicked)
      ensures !panicked ==> reply == PushReply("rpush", Abs().lists, args)
    {
      hide Image, Emit, Encode, Record, Loggable, AllLoggable, List.Valid, List.Abs, Texts, AsSet, PushAllBack,
           Put, EvictIfExpired, Expiry.Expire, ExpireAt, PushedFront, PushedBack, PushBackPanics, PoppedFront,
           PoppedBack, PopPanics, Sorted, Written, Erased, Added, Removed, HashAt, MembersAt, SortOptions,
           Apply, Logged;
      NothingLogged();
      RpushDone(Abs(), ParseRpush(args), now);
      reply, panicked := WrongArity("rpush"), false;
      if |args| < 2 {
        return;
      }
      var key := args[0].text;
      var values := TextsOf(args[1..]);
      var n;
      n, panicked := lists.Rpush(key, values);
      if !panicked && n > 0 {
        ListRecords(key, values);
        aof.Append(Record("RPUSH", [key] + values));
      }
      reply := Count(n);
    }

    method CmdLpop(args: seq<Value>, now: Time) returns (reply: Value, panicked: bool)
      requires Valid()
      modifies lists, lists.owner.Keys
      ensures fresh(lists.owner.Keys - old(lists.owner.Keys))
      ensures Valid() && Performed(ParseLpop(args), now, panicked)
      ensures !panicked ==> reply == LpopReply(old(Abs().lists), args)
    {
      hide Image, Encode, Record, Loggable, AllLoggable, List.Valid, List.Abs, Texts, AsSet, PoppedFront,
           PopPanics, ParseInt, Put, EvictIfExpired, Expiry.Expire, ExpireAt, PushedFront, PushedBack,
           PushBackPanics, PoppedBack, Sorted, Written, Erased, Added, Removed, HashAt, MembersAt, SortOptions;
      NothingLogged();
      reply, panicked := WrongArity("lpop"), false;
      if |args| < 1 || |args| > 2 {
        return;
      }
      var count: int64 := 1;
      if |args| > 1 {
        var n := ParseInt(args[1].text);
        if n.None? {
          reply := NOT_INTEGER;
          return;
        }
        count := n.value;
      }
      var popped;
      popped, panicked := lists.Lpop(args[0].text, count);
      reply := BulksOf(popped);
    }

    method CmdRpop(args: seq<Value>, now: Time) returns (reply: Value, panicked: bool)
      requires Valid()
      modifies lists, lists.owner.Keys
      ensures fresh(lists.owner.Keys - old(lists.owner.Keys))
      ensures Valid() && Performed(ParseRpop(args), now, panicked)
      ensures !panicked ==> reply == RpopReply(old(Abs().lists), args)
    {
      hide Image, Encode, Record, Loggable, AllLoggable, List.Valid, List.Abs, Texts, AsSet, PoppedBack, PopPanics,
           ParseInt, Put, EvictIfExpired, Expiry.Expire, ExpireAt, PushedFront, PushedBack, PushBackPanics,
           PoppedFront, Sorted, Written, Erased, Added, Removed, HashAt, MembersAt, SortOptions;
      NothingLogged();
      reply, panicked := WrongArity("rpop"), false;
      if |args| < 1 || |args| > 2 {
        return;
      }
      var count: int64 := 1;
      if |args| > 1 {
        var n := ParseInt(args[1].text);
        if n.None? {
          reply := NOT_INTEGER;
          return;
        }
        count := n.value;
      }
      var popped;
      popped, panicked := lists.Rpop(args[0].text, count);
      reply := BulksOf(popped);
    }

    method CmdSort(args: seq<Value>, now: Time) returns (reply: Value)
      requires Valid()
      modifies lists, lists.owner.Keys, aof`file
      ensures fresh(lists.owner.Keys - old(lists.owner.Keys))
      ensures Valid() && Performed(ParseSort(args), now, false)
      ensures reply == SortReply(args)
    {
      hide List.Valid, List.Abs, SortOptions, Apply, Logged, Image, AllLoggable;
      if |args| < 1 {
        NoEffectPerformed(now);
        return WrongArity("sort");
      }
      var chosen := ReadOptions(args[1..]);
      if chosen.None? {
        NoEffectPerformed(now);
        return Err("ERR syntax error");
      }
      SortList(args[0].text, chosen.value.0, chosen.value.1, args[1..], now);
      reply := OK_REPLY;
    }

    method SortList(key: Bytes, asc: bool, alpha: bool, options: seq<Value>, now: Time)
      requires Valid() && SortOptions(options, true, false) == Some((asc, alpha))
      modifies lists, lists.owner.Keys, aof`file
      ensures fresh(lists.owner.Keys - old(lists.owner.Keys))
      ensures Valid() && Performed(Sort(key, asc, alpha, options), now, false)
    {
      hide Image, Encode, AllLoggable, List.Valid, List.Abs, Sorted, SortOptions;
      lists.Sort(key, asc, alpha);
      ImageOne(Sort(key, asc, alpha, options));
      aof.Append(Arr([Bulk("SORT"), Bulk(key)] + options));
    }

    method CmdHset(args: seq<Value>, now: Time) returns (reply: Value)
      requires Valid()
      modifies hashes, aof`file
      ensures Valid() && Performed(ParseHset(args), now, false)
      ensures reply == HsetReply(old(hashes.items), hashes.items, args)
    {
      hide Image, Emit, Encode, Record, Loggable, AllLoggable, List.Valid, List.Abs, Texts, AsSet, Written, HashAt,
           Put, EvictIfExpired, Expiry.Expire, ExpireAt, PushedFront, PushedBack, PushBackPanics, PoppedFront,
           PoppedBack, PopPanics, Sorted, Erased, Added, Removed, MembersAt, SortOptions,
           Apply, Logged;
      NothingLogged();
      HashDone(Abs(), ParseHset(args), now);
      if |args| < 3 || |args| % 2 == 0 {
        return WrongArity("hset");
      }
      var key := args[0].text;
      var fieldValues := TextsOf(args[1..]);
      var n := hashes.Hset(key, fieldValues);
      if n > 0 {
        HashRecords(key, fieldValues);
        aof.Append(Record("HSET", [key] + fieldValues));
      }
      reply := Count(n);
    }

    method CmdHdel(args: seq<Value>, now: Time) returns (reply: Value)
      requires Valid()
      modifies hashes, aof`file
      ensures Valid() && Performed(ParseHdel(args), now, false)
      ensures reply == HdelReply(old(hashes.items), hashes.items, args)
    {
      hide Image, Emit, Encode, Record, Loggable, AllLoggable, List.Valid, List.Abs, Texts, AsSet, Erased, HashAt,
           Put, EvictIfExpired, Expiry.Expire, ExpireAt, PushedFront, PushedBack, PushBackPanics, PoppedFront,
           PoppedBack, PopPanics, Sorted, Written, Added, Removed, MembersAt, SortOptions,
           Apply, Logged;
      NothingLogged();
      HashDone(Abs(), ParseHdel(args), now);
      if |args| < 2 {
        return WrongArity("hdel");
      }
      var key := args[0].text;
      var fields := TextsOf(args[1..]);
      var n := hashes.Hdel(key, fields);
      if n > 0 {
        HashRecords(key, fields);
        aof.Append(Record("HDEL", [key] + fields));
      }
      reply := Count(n);
    }

    method CmdSAdd(args: seq<Value>, now: Time) returns (reply: Value)
      requires Valid()
      modifies sets, aof`file
      ensures Valid() && Performed(ParseSadd(args), now, false)
      ensures reply == SaddReply(old(sets.items), sets.items, args)
    {
      hide Image, Emit, Encode, Record, Loggable, AllLoggable, List.Valid, List.Abs, Texts, AsSet, Added,
           MembersAt, Put, EvictIfExpired, Expiry.Expire, ExpireAt, PushedFront, PushedBack, PushBackPanics,
           PoppedFront, PoppedBack, PopPanics, Sorted, Written, Erased, Removed, HashAt, SortOptions;
      NothingLogged();
      if |args| < 2 {
        return WrongArity("sadd");
      }
      var key := args[0].text;
      var members := TextsOf(args[1..]);
      var n := sets.Sadd(key, members);
      if n > 0 {
        SetRecords(key, members);
        aof.Append(Record("SADD", [key] + members));
      }
      reply := Count(n);
    }

    method CmdSRem(args: seq<Value>, now: Time) returns (reply: Value)
      requires Valid()
      modifies sets, aof`file
      ensures Valid() && Performed(ParseSrem(args), now, false)
      ensures reply == SremReply(old(sets.items), sets.items, args)
    {
      hide Image, Emit, Encode, Record, Loggable, AllLoggable, List.Valid, List.Abs, Texts, AsSet, Removed,
           MembersAt, Put, EvictIfExpired, Expiry.Expire, ExpireAt, PushedFront, PushedBack, PushBackPanics,
           PoppedFront, PoppedBack, PopPanics, Sorted, Written, Erased, Added, HashAt, SortOptions;
      NothingLogged();
      if |args| < 2 {
        return WrongArity("srem");
      }
      var key := args[0].text;
      var members := TextsOf(args[1..]);
      var n := sets.Srem(key, members);
      if n > 0 {
        SetRecords(key, members);
        aof.Append(Record("SREM", [key] + members));
      }
      reply := Count(n);
    }

    method CmdSExpire(args: seq<Value>, now: Time) returns (reply: Value)
      requires Valid()
      modifies sets, aof`file
      ensures Valid() && Performed(ParseSExpire(args), now, false)
      ensures reply == ExpireReply("sexpire", old(sets.items), args)
    {
      hide Image, Encode, Record, Loggable, AllLoggable, List.Valid, List.Abs, Texts, AsSet, Expiry.Expire,
           FormatInt, ParseInt, Seconds, After, Put, EvictIfExpired, ExpireAt, PushedFront, PushedBack,
           PushBackPanics, PoppedFront, PoppedBack, PopPanics, Sorted, Written, Erased, Added, Removed, HashAt,
           MembersAt, SortOptions;
      NothingLogged();
      if |args| != 2 {
        return WrongArity("sexpire");
      }
      var key, seconds := args[0].text, ParseInt(args[1].text);
      if seconds.None? {
        return NOT_INTEGER;
      }
      var ok := sets.Expire(key, Seconds(seconds.value), now);
      var at := After(now, Seconds(seconds.value));
      if !ok {
        return Flag(false);
      }
      DeadlineRecord(key, at);
      aof.Append(Record("PEXPIREAT", [key, FormatInt(at)]));
      reply := Flag(true);
    }

    method CmdSMembers(args: seq<Value>, now: Time) returns (reply: Value)
      requires Valid()
      modifies sets
      ensures Valid() && Performed(ParseSRead(args, 1), now, false)
      ensures SmembersReply(old(sets.items), args, now, reply)
    {
      hide Image, Encode, Record, Loggable, AllLoggable, List.Valid, List.Abs, Texts, AsSet, EvictIfExpired, Put,
           Expiry.Expire, ExpireAt, PushedFront, PushedBack, PushBackPanics, PoppedFront, PoppedBack, PopPanics,
           Sorted, Written, Erased, Added, Removed, HashAt, MembersAt, SortOptions;
      NothingLogged();
      if |args| != 1 {
        return WrongArity("smembers");
      }
      var members := sets.Smembers(args[0].text, now);
      if members.None? {
        return NilArray;
      }
      var order := Elements(members.value);
      reply := BulksOf(order);
      assert Texts(reply.items) == order by { TextsOfBulks(order); }
    }

    method CmdSIsMember(args: seq<Value>, now: Time) returns (reply: Value)
      requires Valid()
      modifies sets
      ensures Valid() && Performed(ParseSRead(args, 2), now, false)
      ensures reply == SismemberReply(old(sets.items), args, now)
    {
      hide Image, Encode, Record, Loggable, AllLoggable, List.Valid, List.Abs, Texts, AsSet, EvictIfExpired, Put,
           Expiry.Expire, ExpireAt, PushedFront, PushedBack, PushBackPanics, PoppedFront, PoppedBack, PopPanics,
           Sorted, Written, Erased, Added, Removed, HashAt, MembersAt, SortOptions;
      NothingLogged();
      if |args| != 2 {
        return WrongArity("sismember");
      }
      var present := sets.Sismember(args[0].text, args[1].text, now);
      reply := Flag(present);
    }

    method CmdSCard(args: seq<Value>, now: Time) returns (reply: Value)
      requires Valid()
      modifies sets
      ensures Valid() && Performed(ParseSRead(args, 1), now, false)
      ensures reply == ScardReply(old(sets.items), args, now)
    {
      hide Image, Encode, Record, Loggable, AllLoggable, List.Valid, List.Abs, Texts, AsSet, EvictIfExpired, Put,
           Expiry.Expire, ExpireAt, PushedFront, PushedBack, PushBackPanics, PoppedFront, PoppedBack, PopPanics,
           Sorted, Written, Erased, Added, Removed, HashAt, MembersAt, SortOptions;
      NothingLogged();
      if |args| != 1 {
        return WrongArity("scard");
      }
      var size := sets.Scard(args[0].text, now);
      reply := Count(size);
    }

    method CmdSTTL(args: seq<Value>, now: Time) returns (reply: Value)
      requires Valid()
      modifies sets
      ensures Valid() && Performed(ParseSRead(args, 1), now, false)
      ensures reply == TtlReply("sttl", old(sets.items), args, now)
    {
      hide Image, Encode, Record, Loggable, AllLoggable, List.Valid, List.Abs, Texts, AsSet, EvictIfExpired, Put,
           Expiry.Expire, ExpireAt, PushedFront, PushedBack, PushBackPanics, PoppedFront, PoppedBack, PopPanics,
           Sorted, Written, Erased, Added, Removed, HashAt, MembersAt, SortOptions;
      NothingLogged();
      if |args| != 1 {
        return WrongArity("sttl");
      }
      var seconds := sets.TTL(args[0].text, now);
      reply := Count(seconds);
    }

    /** With no argument at all, none is refused and the first is read. */
    method CmdAuth(args: seq<Value>, now: Time) returns (reply: Value, panicked: bool)
      requires Valid()
      ensures Performed(ParseAuth(args), now, panicked)
      ensures !panicked ==> args != [] && reply == AuthReply(args)
    {
      hide Image, AllLoggable, List.Valid, List.Abs;
      NothingLogged();
      reply, panicked := WrongArity("auth"), false;
      if |args| > 1 {
        return;
      }
      if |args| == 0 {
        panicked := true;
        return;
      }
      reply := if args[0].text != PASSWORD then Err("ERR auth is not correct") else OK_REPLY;
    }

    /** The registry's dispatch: the handler under the name in upper case, if there is one. */
    method Replay(call: Call, now: Time) returns (panicked: bool)
      requires Valid()
      modifies dict, sets, lists, lists.owner.Keys, hashes, aof`file
      ensures Valid() && fresh(lists.owner.Keys - old(lists.owner.Keys))
      ensures Performed(Parse(call), now, panicked)
    {
      hide Image, Emit, AllLoggable, List.Valid, List.Abs, Commands.Lookup, Put, EvictIfExpired, Expiry.Expire,
           ExpireAt, PushedFront, PushedBack, PushBackPanics, PoppedFront, PoppedBack, PopPanics, Sorted, Written,
           Erased, Added, Removed, HashAt, MembersAt, SortOptions;
      hide ParseSet, ParseGet, ParseDel, ParseExpire, ParsePExpireAt, ParseTTL, ParseLpush, ParseRpush, ParseLpop,
           ParseRpop, ParseSort, ParseHset, ParseHdel, ParseSadd, ParseSrem, ParseSExpire, ParseSRead;
      hide Performed;
      panicked := false;
      var h := Commands.Lookup(call.name);
      if h.None? {
        NoEffectPerformed(now);
        return;
      }
      var reply;
      match h.value
      case CmdSet => reply := CmdSet(call.args, now);
      case CmdGet => reply := CmdGet(call.args, now);
      case CmdDel => reply := CmdDel(call.args, now);
      case CmdExpire => reply := CmdExpire(call.args, now);
      case CmdPExpireAt => reply := CmdPExpireAt(call.args, now);
      case CmdTTL => reply := CmdTTL(call.args, now);
      case CmdLpush => reply := CmdLpush(call.args, now);
      case CmdRpush => reply, panicked := CmdRpush(call.args, now);
      case CmdLpop => reply, panicked := CmdLpop(call.args, now);
      case CmdRpop => reply, panicked := CmdRpop(call.args, now);
      case CmdSort => reply := CmdSort(call.args, now);
      case CmdHset => reply := CmdHset(call.args, now);
      case CmdHdel => reply := CmdHdel(call.args, now);
      case CmdSAdd => reply := CmdSAdd(call.args, now);
      case CmdSRem => reply := CmdSRem(call.args, now);
      case CmdSExpire => reply := CmdSExpire(call.args, now);
      case CmdSMembers => reply := CmdSMembers(call.args, now);
      case CmdSCard => reply := CmdSCard(call.args, now);
      case CmdSTTL => reply := CmdSTTL(call.args, now);
      case CmdSIsMember => reply := CmdSIsMember(call.args, now);
      case CmdAuth => reply, panicked := CmdAuth(call.args, now);
    }

    twostate lemma NoEffectPerformed(now: Time)
      requires unchanged(dict) && unchanged(sets) && unchanged(hashes) && unchanged(aof) && Abs() == old(Abs())
      ensures Performed(NoEffect, now, false)
    {
      NothingLogged();
    }

    /** Reads the file from its start, dispatching each command, until it ends or is malformed.
        Nothing is appended meanwhile. */
    method LoadAOF(now: Time) returns (panicked: bool)
      requires Valid()
      modifies dict, sets, lists, lists.owner.Keys, hashes, aof
      ensures Valid() && fresh(lists.owner.Keys - old(lists.owner.Keys))
      ensures aof.file == old(aof.file) && aof.enabled == old(aof.enabled)
      ensures aof.replaying == (old(aof.replaying) && !aof.enabled)
      ensures !aof.enabled ==> !panicked && Abs() == old(Abs())
      ensures aof.enabled ==>
                var loaded := Load(aof.file); var r := ReplayFrom(old(Abs()), ParseAll(loaded.calls), now);
                panicked == (loaded.panicked || r.None?) && (!panicked ==> r == Some(Abs()))
    {
      hide Load, Decode, ReplayFrom, List.Valid, List.Abs, Apply, Logged, Image, AllLoggable, Parse, CallOf, Server.Abs;
      panicked := false;
      if !aof.enabled {
        return;
      }
      aof.replaying := true;
      var reader := new RespReader.Reader(aof.file);
      ghost var start, done := Abs(), [];
      ReplayNone(start, now);
      while true
        invariant Valid() && fresh(lists.owner.Keys - old(lists.owner.Keys)) && fresh(reader)
        invariant reader !in lists.owner
        invariant aof.file == old(aof.file) && aof.enabled && aof.replaying && !panicked
        invariant Load(aof.file) == Loaded(done + Load(reader.rest).calls, Load(reader.rest).panicked)
        invariant ReplayFrom(start, ParseAll(done), now) == Some(Abs())
        decreases |reader.rest|
      {
        ghost var rest := reader.rest;
        LoadStep(rest);
        var r := reader.Read();
        if r.Stop? {
          panicked := r.fault == Panic;
          assert done + [] == done;
          break;
        }
        var call := CallOf(r.value);
        if call.None? {
          assert CallSeq(r.value) + Load(reader.rest).calls == Load(reader.rest).calls;
          continue;
        }
        ReplayCall(start, done, call.value, Load(reader.rest).calls, now);
        panicked := Replay(call.value, now);
        if panicked {
          break;
        }
        done := done + [call.value];
      }
      aof.replaying := false;
    }

    /** Dumps every store and rewrites the file from the dumps. */
    method RewriteAOF(now: Time) returns (ghost order: Order)
      requires Valid()
      modifies aof`file
      ensures Valid() && Abs() == old(Abs())
      ensures Visits(order, SnapshotOf(Abs(), now)) && AllLoggable(RewriteLog(SnapshotOf(Abs(), now), order))
      ensures aof.file == if aof.enabled then Image(RewriteLog(SnapshotOf(Abs(), now), order)) else old(aof.file)
    {
      hide Visible, Dumped, List.Valid, List.Abs, RewriteLog, Visits, Image, AllLoggable;
      var d := dict.Dump(now);
      var s := sets.Dump(now);
      var l := lists.Dump();
      var h := hashes.Dump();
      order := aof.RewriteWithLists(Snapshot(d, s, l, h));
    }

    method LoadDict(m: Store<Bytes>, now: Time)
      modifies dict
      ensures dict.items == DictAfter(old(dict.items), m, m.Keys, now)
    {
      hide DictAfter, Put, ExpireAt;
      var todo := m.Keys;
      NothingDone(DB(dict.items, map[], map[], map[]), m, map[], map[], map[], now);
      AllDone(m.Keys);
      while todo != {}
        invariant todo <= m.Keys
        invariant dict.items == DictAfter(old(dict.items), m, m.Keys - todo, now)
      {
        var key :| key in todo;
        DictNext(old(dict.items), m, m.Keys - todo, key, now);
        DoneNext(m.Keys, todo, key);
        dict.Set(key, m[key].value, 0, now);
        if m[key].expiredAt.Some? {
          var ok := dict.ExpireAt(key, m[key].expiredAt.value, now);
        }
        todo := todo - {key};
      }
    }

    method LoadSets(m: Store<Members>, now: Time)
      modifies sets
      ensures sets.items == SetsLoaded(old(sets.items), m, m.Keys, now)
    {
      hide SetsLoaded, Added, ExpireAt, Enumerates, AsSet;
      var todo := m.Keys;
      NoneLoaded(sets.items, m, now);
      AllDone(m.Keys);
      while todo != {}
        invariant todo <= m.Keys
        invariant sets.items == SetsLoaded(old(sets.items), m, m.Keys - todo, now)
      {
        var key :| key in todo;
        var members := Elements(m[key].value);
        EnumeratesAll(members, m[key].value);
        LoadedNext(old(sets.items), m, m.Keys - todo, key, members, now);
        DoneNext(m.Keys, todo, key);
        if |m[key].value| > 0 {
          var n := sets.Sadd(key, members);
          if m[key].expiredAt.Some? {
            var ok := sets.ExpireAt(key, m[key].expiredAt.value, now);
          }
        }
        todo := todo - {key};
      }
    }

    method LoadLists(m: map<Bytes, seq<Bytes>>)
      requires Valid() && SoundLists(lists.Abs())
      modifies lists, lists.owner.Keys
      ensures Valid() && fresh(lists.owner.Keys - old(lists.owner.Keys))
      ensures lists.Abs() == ListsAfter(old(lists.Abs()), m, m.Keys)
    {
      hide ListsAfter, PushedBack, PushBackPanics, SoundLists, List.Valid, List.Abs;
      var todo := m.Keys;
      NothingDone(DB(map[], map[], lists.Abs(), map[]), map[], map[], m, map[], 0);
      AllDone(m.Keys);
      while todo != {}
        invariant todo <= m.Keys && Valid() && fresh(lists.owner.Keys - old(lists.owner.Keys))
        invariant lists.Abs() == ListsAfter(old(lists.Abs()), m, m.Keys - todo)
      {
        var key :| key in todo;
        ListsNext(old(lists.Abs()), m, m.Keys - todo, key);
        DoneNext(m.Keys, todo, key);
        if |m[key]| > 0 {
          var n, panicked := lists.Rpush(key, m[key]);
        }
        todo := todo - {key};
      }
    }

    method LoadHashes(m: HashStore)
      modifies hashes
      ensures hashes.items == HashesAfter(old(hashes.items), m, m.Keys)
    {
      hide HashesAfter, FieldsAfter, Written;
      var todo := m.Keys;
      NothingDone(DB(map[], map[], map[], hashes.items), map[], map[], map[], m, 0);
      AllDone(m.Keys);
      while todo != {}
        invariant todo <= m.Keys
        invariant hashes.items == HashesAfter(old(hashes.items), m, m.Keys - todo)
      {
        var key :| key in todo;
        HashesNext(old(hashes.items), m, m.Keys - todo, key);
        DoneNext(m.Keys, todo, key);
        ghost var before := hashes.items;
        var fields := m[key].Keys;
        AllDone(fields);
        NoFields(before, key, m[key]);
        AllFields(before, key, m[key]);
        while fields != {}
          invariant fields <= m[key].Keys
          invariant hashes.items == FieldsAfter(before, key, m[key], m[key].Keys - fields)
        {
          var field :| field in fields;
          FieldNext(before, key, m[key], m[key].Keys - fields, field);
          DoneNext(m[key].Keys, fields, field);
          var n := hashes.Hset(key, [field, m[key][field]]);
          fields := fields - {field};
        }
        todo := todo - {key};
      }
    }

    /** What a snapshot file puts into the stores at startup. */
    method LoadRDB(s: Snapshot, now: Time)
      requires Valid() && SoundLists(Abs().lists)
      modifies dict, sets, lists, lists.owner.Keys, hashes
      ensures Valid() && fresh(lists.owner.Keys - old(lists.owner.Keys))
      ensures Abs() == LoadedOn(old(Abs()), s, now)
    {
      hide List.Valid, List.Abs, SoundLists, DictAfter, SetsLoaded, ListsAfter, HashesAfter;
      LoadDict(s.dict, now);
      LoadSets(s.sets, now);
      LoadLists(s.lists);
      LoadHashes(s.hashes);
    }
  }

  /** Starting up: the snapshot file if there is one, then the log. */
  method Start(snapshot: Option<Snapshot>, file: Bytes, enabled: bool, now: Time)
    returns (server: Server, panicked: bool)
    ensures server.Valid() && fresh(server) && server.aof.file == file
    ensures SoundLists(EMPTY.lists)
    ensures var loaded := if snapshot.Some? then LoadedOn(EMPTY, snapshot.value, now) else EMPTY;
            var r := ReplayFrom(loaded, ParseAll(Load(file).calls), now);
            if enabled then panicked == (Load(file).panicked || r.None?) && (!panicked ==> r == Some(server.Abs()))
            else !panicked && server.Abs() == loaded
  {
    hide Load, ReplayFrom, LoadedOn, List.Valid, List.Abs, ParseAll;
    EmptySoundLists();
    server := new Server(file, enabled);
    if snapshot.Some? {
      server.LoadRDB(snapshot.value, now);
    }
    panicked := server.LoadAOF(now);
  }

  /** The texts of the arguments, gathered in a loop as the handlers do. */
  method TextsOf(args: seq<Value>) returns (texts: seq<Bytes>)
    ensures texts == Texts(args)
  {
    texts := [];
    for i := 0 to |args|
      invariant |texts| == i && forall j :: 0 <= j < i ==> texts[j] == args[j].text
    {
      texts := texts + [args[i].text];
    }
  }

  /** The array of bulk strings the handlers build up in a loop. */
  method BulksOf(texts: seq<Bytes>) returns (reply: Value)
    ensures reply == Arr(Bulks(texts))
  {
    var items: seq<Value> := [];
    for i := 0 to |texts|
      invariant |items| == i && forall j :: 0 <= j < i ==> items[j] == Bulk(texts[j])
    {
      items := items + [Bulk(texts[i])];
    }
    assert items == Bulks(texts);
    reply := Arr(items);
  }

  lemma TextsOfBulks(texts: seq<Bytes>)
    ensures Texts(Bulks(texts)) == texts
  {
  }

  method ReadOptions(options: seq<Value>) returns (chosen: Option<(bool, bool)>)
    ensures chosen == SortOptions(options, true, false)
  {
    hide ToUpper;
    var asc, alpha := true, false;
    for i := 0 to |options|
      invariant SortOptions(options[i..], asc, alpha) == SortOptions(options, true, false)
    {
      assert options[i..][1..] == options[i + 1..];
      var option := ToUpper(options[i].text);
      if option == "ASC" {
        asc := true;
      } else if option == "DESC" {
        asc := false;
      } else if option == "ALPHA" {
        alpha := true;
      } else {
        return None;
      }
    }
    return Some((asc, alpha));
  }

  lemma LoadStep(s: Bytes)
    ensures var r := Decode(s);
            && (r.Stop? ==> Load(s) == Loaded([], r.fault == Panic))
            && (r.Ok? ==> var rest := Load(s[r.used..]);
                          Load(s) == Loaded(CallSeq(r.value) + rest.calls, rest.panicked))
  {
    hide Decode;
  }

  lemma ReplayCall(db: DB, done: seq<Call>, c: Call, rest: seq<Call>, now: Time)
    requires ReplayFrom(db, ParseAll(done), now).Some?
    ensures done + ([c] + rest) == done + [c] + rest
    ensures ReplayFrom(db, ParseAll(done + [c]), now) == Apply(ReplayFrom(db, ParseAll(done), now).value, Parse(c), now)
    ensures Apply(ReplayFrom(db, ParseAll(done), now).value, Parse(c), now).None?
            ==> ReplayFrom(db, ParseAll(done + [c] + rest), now).None?
  {
    hide Apply, Parse, ReplayFrom;
    assert ParseAll(done + [c]) == ParseAll(done) + [Parse(c)];
    assert ParseAll(done + [c] + rest) == ParseAll(done + [c]) + ParseAll(rest);
    ReplayOne(db, ParseAll(done), Parse(c), now);
    ReplayConcat(db, ParseAll(done + [c]), ParseAll(rest), now);
  }

  lemma AllDone(all: set<Bytes>)
    ensures all - all == {} && all - {} == all
  {
  }

  lemma DoneNext(all: set<Bytes>, todo: set<Bytes>, key: Bytes)
    requires todo <= all && key in todo
    ensures all - (todo - {key}) == all - todo + {key}
  {
  }

  lemma NoneLoaded(base: Store<Members>, m: Store<Members>, now: Time)
    ensures SetsLoaded(base, m, {}, now) == base
  {
  }

  lemma EnumeratesAll(order: seq<Bytes>, s: set<Bytes>)
    requires Enumerates(order, s)
    ensures AsSet(order) == s
  {
  }

  lemma NothingLogged()
    ensures AllLoggable([]) && Image([]) == ""
  {
  }

  lemma SetRecord(key: Bytes, val: Bytes)
    ensures AllLoggable([Set(key, val, 0)]) && Image([Set(key, val, 0)]) == Encode(Record("SET", [key, val]))
  {
    hide Record;
    ImageOne(Set(key, val, 0));
  }

  lemma DelRecord(keys: seq<Bytes>)
    requires keys != []
    ensures AllLoggable([Del(keys)]) && Image([Del(keys)]) == Encode(Record("DEL", keys))
  {
    hide Record;
    ImageOne(Del(keys));
  }

  lemma RpushDone(db: DB, c: Command, now: Time)
    ensures c.NoEffect? ==> Apply(db, c, now) == Some(db) && Logged(db, c, now) == []
    ensures c.Rpush? && PushBackPanics(db.lists, c.key, c.values) ==> Apply(db, c, now) == None
    ensures c.Rpush? && !PushBackPanics(db.lists, c.key, c.values) ==>
              var after := PushedBack(db.lists, c.key, c.values);
              && Apply(db, c, now) == Some(db.(lists := after))
              && c.key in after && Logged(db, c, now) == if |after[c.key].elems| > 0 then [c] else []
  {
  }

  lemma HashDone(db: DB, c: Command, now: Time)
    ensures c.NoEffect? ==> Apply(db, c, now) == Some(db) && Logged(db, c, now) == []
    ensures c.Hset? ==>
              var after := Written(db.hashes, c.key, c.fieldValues);
              && Apply(db, c, now) == Some(db.(hashes := after))
              && Logged(db, c, now) == if |HashAt(after, c.key)| > |HashAt(db.hashes, c.key)| then [c] else []
    ensures c.Hdel? ==>
              var after := Erased(db.hashes, c.key, c.fields);
              && Apply(db, c, now) == Some(db.(hashes := after))
              && Logged(db, c, now) == if |HashAt(after, c.key)| < |HashAt(db.hashes, c.key)| then [c] else []
  {
  }

  lemma ListRecords(key: Bytes, ts: seq<Bytes>)
    requires ts != []
    ensures AllLoggable([Lpush(key, ts)]) && Image([Lpush(key, ts)]) == Encode(Record("LPUSH", [key] + ts))
    ensures AllLoggable([Rpush(key, ts)]) && Image([Rpush(key, ts)]) == Encode(Record("RPUSH", [key] + ts))
  {
    hide Record;
    ImageOne(Lpush(key, ts));
    ImageOne(Rpush(key, ts));
  }

  lemma HashRecords(key: Bytes, ts: seq<Bytes>)
    requires ts != []
    ensures |ts| % 2 == 0 ==> AllLoggable([Hset(key, ts)])
                              && Image([Hset(key, ts)]) == Encode(Record("HSET", [key] + ts))
    ensures AllLoggable([Hdel(key, ts)]) && Image([Hdel(key, ts)]) == Encode(Record("HDEL", [key] + ts))
  {
    hide Record;
    if |ts| % 2 == 0 {
      ImageOne(Hset(key, ts));
    }
    ImageOne(Hdel(key, ts));
  }

  lemma SetRecords(key: Bytes, ts: seq<Bytes>)
    requires ts != []
    ensures AllLoggable([Sadd(key, ts)]) && Image([Sadd(key, ts)]) == Encode(Record("SADD", [key] + ts))
    ensures AllLoggable([Srem(key, ts)]) && Image([Srem(key, ts)]) == Encode(Record("SREM", [key] + ts))
  {
    hide Record;
    ImageOne(Sadd(key, ts));
    ImageOne(Srem(key, ts));
  }

  lemma DeadlineRecord(key: Bytes, at: int64)
    ensures AllLoggable([PExpireAt(key, at)])
    ensures Image([PExpireAt(key, at)]) == Encode(Record("PEXPIREAT", [key, FormatInt(at)]))
  {
    hide Record;
    ImageOne(PExpireAt(key, at));
  }
}
