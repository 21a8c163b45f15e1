# Verification of the store and its persistence

A Dafny model of ValkeyDB, the Redis-like in-memory database written in Go, from the bytes of its
append-only file up to the stores a restarted server shows. `dafny verify dfyconfig.toml` checks
everything.

The model has three layers, each tied to the next by proof.

1. **Protocol.** The RESP encoder and decoder (`resp.dfy`, and `reader.dfy` for the loops over a
   stream). Decoding inverts encoding on exactly the normal values, leaves the rest of the stream
   alone, and treats every cut-off encoding as an incomplete read. `wire.dfy` states the format itself
   as a grammar with literal byte codes, which the encoder meets exactly.
2. **Stores.** The growing ring buffer (`deque.dfy`) and its sort (`sorting.dfy`), the list store
   over it (`list.dfy`), keys with deadlines (`expiry.dfy`, `sampling.dfy`, `dict.dfy`, `set.dfy`),
   hashes (`hashmap.dfy`), the split locking of the dict (`interleaving.dfy`), and publish/subscribe
   (`pubsub.dfy`, and `broadcast.dfy` for publications that overlap). Each store is a class with the program's fields, proved against a function of values.
3. **Log.** What a command does and what it leaves in the log (`command.dfy`); whole runs and their
   replay (`log.dfy`); loading a file that was cut anywhere (`load.dfy`); rewriting the log from a
   snapshot and loading a snapshot (`compaction.dfy`, `aof.dfy`); restarts after whole runs
   (`restart.dfy`); many clients at once, each changing a store in one step and appending in another
   (`concurrent.dfy`); and the handlers with their replies (`replies.dfy`), the replay loop and the
   startup sequence as methods on one server object (`server.dfy`). `laws.dfy` says in plain values
   what a client is told after each kind of request.

The results that join them: `Loading.CrashRecovery` (any cut of a run's file recovers a moment of the
run), `Loading.RestartExactly` (a whole file recovers what clients saw, if and only if no key was
lost to a raised deadline), `Restarting.CompactedRestart` and `Compaction.RewritePreservesExactly`
(the same for a rewritten file), `Restarting.SnapshotThenLog` (a snapshot and a file together),
`Concurrency.ConcurrentIsSerial` with `ConcurrentRestart` and `ConcurrentCrash` (all of this is about
commands made one at a time, and carries over to concurrent clients whose records reach the log, key
by key, in the order of the changes they record), and `Servers.Start` with `Servers.Server.Replay` (the server's own methods do what those statements are
about).

Time is an explicit instant in milliseconds, one for each command. Map iteration visits keys in an
arbitrary order, sampling draws arbitrary keys, and eviction may happen between any two commands.
Every runtime panic the modelled code can reach is an outcome of the model: `None` in `Apply`,
`ReplayFrom` and `Run`, `Panic` in the decoder, a `panicked` result in a method. Among them are
requests for more memory than an allocation can be asked for; where that limit lies depends on the
platform, and is an open constant (`MAX_BUFFER`, `MAX_ITEMS`, `MAX_POP`). Running out of memory below
the limit is not a panic, and not modelled.

## Where the code keeps less than its documentation says

The repository's README promises write-ahead logging "for durability" (README.md:44, README.md:281)
and automatic compaction (README.md:337). The model follows the code, and states exactly how far the
promise holds:

- Records are appended after the store has changed (internal/command/dict_command.go:41-76), so the
  log is not written ahead.
- LPOP, RPOP and an HSET that adds no field are not logged, and a set's deadline is not logged as
  one. `StepReproducedExactly` proves that these, when they change a list, hash or set, are the only
  steps that, made one at a time, have a log that fails to repeat what they did to sets, lists and
  hashes.
- A handler appends after it has let go of the store's lock (internal/command/dict_command.go:53-76,
  internal/persistence/aof.go:38-52), and every connection has its own goroutine
  (internal/server/server.go:184-190). Two clients' records can reach the log in the other order, and
  a replay then has the value that was overwritten (`SwappedSets`), or another key's deadline
  (`DeadlineStrays`). `ConcurrentIsSerial` proves that the order at each key is all that matters,
  and `SwapExactly` which two neighbouring records may be swapped.
- A client's PEXPIREAT is not logged, and a set's deadline is logged as the PEXPIREAT of the dict key
  of that name. `DictStepExactly` proves exactly when this shows in the dict, and that no other step
  does; `ClientDeadlineLost` and `SetDeadlineHitsDict` are concrete.
- EXPIRE and PEXPIREAT on an expired key that nobody has evicted revive it, and SADD adds to an
  expired set members nobody sees (`RevivedExactly`, `RevivedAtExactly`, `AddedUnseenExactly`); and a deadline that
  was raised can lose its key when the log is replayed later (`RunDict`, `LostSometimeExactly`,
  `RaisedDeadlineLost`).
- A rewritten log is faithful only for a snapshot with no set deadline and nothing empty
  (`RewritePreservesExactly`); nothing empty is ever reached, so after a run it is faithful if and only
  if no visible set has a deadline (`CompactedRestart`).
- The server loads the snapshot and then the log, so lists come back twice (`SnapshotThenLog`,
  `LoadThenReplayDoublesLists`).
- Sorting a full ring leaves its tail index out of range, and after a pop at the front a push at the
  back panics (`UnsortedFullNeverPanics`, `StuckAfterSortExactly`, `SortedFullPanics`).
- SORT on a list that mixes numbers and text may have no order to sort by. `SortsExactly` says which
  elements it sorts however they are arranged; 2, 10, 1a are not such (`MixedListHasNoOrder`).
- Expire and ExpireAt write back the item they captured, so a concurrent overwrite can be undone
  (`ExpireAtomicExactly`, `ExpireAtAtomicExactly`, `OverwriteLost`). Get and TTL delete a key by the
  deadline they captured, so a fresh value can go too (`EvictionAtomicExactly`, `FreshValueEvicted`).
- Publications that overlap can reach two subscribers of one channel in different orders
  (`OrdersDiffer`, `SubscribersAgree`).
- A lifetime is kept in 64 bits of nanoseconds: beyond some 292 years it wraps, and an EXPIRE can
  delete its key (`SecondsExactly`, `LifetimeWraps`).
- A pop asks for an array of as many items as the client names, and AUTH reads an argument that may
  not be there: either can panic (`Lpop`, `Rpop`, `CmdAuth`).

## Model

| member | source | states |
|---|---|---|
| `ByteStrings.ParseFormat` | internal/protocol/resp/resp.go:84-94 | Every 64-bit integer survives being written in decimal and parsed back, and its text never contains a line feed. |
| `Resp.RoundTrip` | internal/protocol/resp/resp.go:30-74 | For every normal value, arrays nested to any depth, decoding its encoding followed by any bytes gives the value and takes exactly the encoding. |
| `Resp.RoundTripExactly` | internal/protocol/resp/resp.go:30-74 | The normal values are exactly those that survive: no other value decodes to itself whatever follows it. |
| `Resp.DecodeNormal` | internal/protocol/resp/resp.go:56-138 | Whatever the decoder accepts, from any bytes, is a normal value. |
| `Resp.Local` | internal/protocol/resp/resp.go:56-146 | A verdict other than "stream ended" (value, syntax error or crash) depends only on the bytes taken: any stream that begins with them gets the same verdict and the same count. |
| `Resp.TruncatedIsShort` | internal/protocol/resp/resp.go:30-146 | Every proper prefix of an encoding is an incomplete read, never a value, a syntax error or a crash. |
| `Resp.PrefixFree` | internal/protocol/resp/resp.go:30-54 | No encoding is a prefix of another's, so the encoder is injective. |
| `Wire.EncodeSpellsExactly` | internal/protocol/resp/resp.go:30-54 | A byte string is spelled by the grammar (type bytes 43, 45, 58, 36, 42; decimal digits without a leading zero; 13 10 at line ends; -1 for nil) for a value if and only if it is the encoding of that value, for every value. |
| `Wire.FormatSpellsExactly` | internal/protocol/resp/resp.go:34-44 | The decimal text of a number is the one with no leading zero and, below zero, one minus sign. |
| `Wire.DecodeSpelled` | internal/protocol/resp/resp.go:56-146 | Any bytes that begin with the spelling of a normal value decode to it and take just the spelling. |
| `Wire.NormalIs` | internal/protocol/resp/resp.go:12-28 | Which values are normal, kind by kind and field by field. |
| `Wire.LineEnds` | internal/protocol/resp/resp.go:140-146 | A line ends at byte 10, one byte 13 before it is dropped, a line feed alone will do, and without one the read is incomplete. |
| `Wire.BulkLengths` | internal/protocol/resp/resp.go:96-114 | Length -1 is the nil text; below it, or beyond what can be allocated, the program crashes. |
| `Wire.BulkEnds` | internal/protocol/resp/resp.go:109-113 | The two bytes after a bulk text are taken whatever they are. |
| `Wire.ArrayLengths` | internal/protocol/resp/resp.go:116-138 | The same for arrays, and count 0 is the empty one. |
| `Wire.OtherPrefix` | internal/protocol/resp/resp.go:56-74 | Any other first byte is malformed after one byte. |
| `Wire.NumbersRead` | internal/protocol/resp/resp.go:84-94 | A number may have a plus or minus sign and leading zeros, and must be in the 64-bit range. |
| `Wire.NumbersRefused` | internal/protocol/resp/resp.go:84-94 | Anything but one optional sign and digits is no number. |
| `Wire.NumbersMalformed` | internal/protocol/resp/resp.go:84-138 | Where a number is due, a line that is none is malformed, not a crash. |
| `Wire.WrapsBy64` | internal/command/dict_command.go:49-52 | 64-bit arithmetic differs from the exact result by a multiple of 2^64. |
| `RespReader.Write` | internal/protocol/resp/resp.go:30-54 | The recursive encoder with its accumulating array loop produces the specified encoding. |
| `RespReader.Reader.ReadLine` | internal/protocol/resp/resp.go:140-146 | Takes the bytes through the next line feed, drops one CR, and consumes everything when there is none. |
| `RespReader.Reader.ReadBulkString` | internal/protocol/resp/resp.go:96-114 | Agrees with the specification on nil, short, malformed and panicking lengths (below -1, or more than can be allocated), and leaves the stream just past what it took. |
| `RespReader.Reader.ReadArray` | internal/protocol/resp/resp.go:116-138 | The same for arrays: the nil array, and counts that are negative or more than can be allocated. |
| `RespReader.Reader.ReadItems` | internal/protocol/resp/resp.go:129-137 | The element loop reads the specified elements and stops at the first fault with all bytes so far taken. |
| `RespReader.Reader.Read` | internal/protocol/resp/resp.go:56-74 | The stream decoder gives the specified verdict for every stream, terminates, and leaves exactly the bytes not taken; so all theorems on Decode hold of it. |
| `Sorting.SortSlicePermutes` | internal/datastructure/deque.go:101-121 | Under any comparator at all, cyclic ones included, sorting keeps the multiset of elements. |
| `Sorting.SortSliceOrdered` | internal/datastructure/deque.go:101-121 | A comparator (strict or not, as DESC needs) that decides an order between neighbours and past the place where an insertion stops puts the slice in that order; the order need not be transitive. |
| `Sorting.InsertionSort` | internal/datastructure/deque.go:101-121 | The in-place sort computes the specified order on the array. |
| `Sorting.SortedList` | internal/datastructure/list.go:139-165 | Sortable elements come out of SORT with no pair out of order and are the same elements, ascending or descending, by number or by text. |
| `Sorting.SortsExactly` | internal/datastructure/list.go:139-165 | SORT puts every arrangement of the elements in order if and only if, among them, "not smaller" is transitive (ascending) or "smaller" is (descending); otherwise three of them, put first, come out in the wrong order. |
| `Sorting.SortSliceKeepsOrder` | internal/datastructure/deque.go:101-121 | Whatever the comparator, elements once sorted never change their relative order as more are inserted. |
| `Sorting.ComparableSortable` | internal/datastructure/list.go:139-165 | Lists compared by number throughout or by text throughout are sortable both ways. |
| `Sorting.MixedListHasNoOrder` | internal/datastructure/list.go:139-165 | A list that is not sortable: the comparator is cyclic on 2, 10, 1a, and every arrangement of the three has a pair out of order. |
| `Sorting.LessBytesTotal` | internal/datastructure/list.go:139-165 | Text comparison is a strict total order: irreflexive, asymmetric, and deciding any two different texts. |
| `Sorting.LessIsPrecedes` | internal/datastructure/list.go:139-165 | One text is before another exactly if it is a proper beginning of it or has the smaller byte where they first differ. |
| `Sorting.ComparedAs` | internal/datastructure/list.go:139-165 | Two texts that parse compare as numbers, infinities at the ends and NaN with nothing; any other two, and all with ALPHA, as text. |
| `Deques.Deque.constructor` | internal/datastructure/deque.go:13-22 | A new ring stands for the empty sequence with capacity 4. |
| `Deques.Deque.Resize` | internal/datastructure/deque.go:44-56 | Doubles the capacity and keeps the sequence, wherever the ring was wrapped; its loop counts one copy an element. |
| `Deques.Deque.PushFront` | internal/datastructure/deque.go:58-65 | Is exactly cons on the sequence the slots stand for, growing when full; what it cost, as the copy loop counts it, is what the cost theorems add up. |
| `Deques.Deque.PushBack` | internal/datastructure/deque.go:67-74 | Is exactly snoc, and panics if and only if the tail stands past the end of a ring that has room. |
| `Deques.Deque.PopFront` | internal/datastructure/deque.go:76-86 | Returns and removes the first element; nothing on an empty ring. |
| `Deques.Deque.PopBack` | internal/datastructure/deque.go:88-99 | Returns and removes the last element, also from a ring whose tail is off the end, which it repairs. |
| `Deques.Deque.Index` | internal/datastructure/deque.go:32-34 | (head + i) % capacity is in range and holds element i. |
| `Deques.Deque.Sort` | internal/datastructure/deque.go:101-121 | Re-lays a wrapped ring from slot 0 in sorted order; the tail goes off the end exactly when the ring is full and not empty. |
| `Deques.RunPaid` | internal/datastructure/deque.go:44-74 | Every step of every run keeps capacity = 4 + elements copied = 4 * 2^resizes and the size below both; the copies are those the ring's own loop counts. |
| `Deques.AmortisedGrowth` | internal/datastructure/deque.go:13-74 | Over any run from a new ring the capacity is 4 * 2^resizes, is 4 or less than twice the peak size, and all resizes together copied capacity - 4 elements, fewer than two a push. |
| `Deques.UnsortedFullNeverPanics` | internal/datastructure/deque.go:58-121 | A run of pushes, pops and sorts in which no full ring is sorted never panics. |
| `Deques.SortedFullPanics` | internal/datastructure/deque.go:117-117 | The condition is needed: four pushes, a sort, a pop at the front, and a push at the back panics, under any comparator. |
| `Deques.StuckAfterSortExactly` | internal/datastructure/deque.go:67-121 | From any ring that is not stuck, a sort and then n pops at the front leave a ring whose next push at the back panics if and only if the ring was full and n > 0. |
| `Lists.PushAllFrontElems` | internal/datastructure/list.go:19-32 | LPUSH prepends the values in reverse. |
| `Lists.PushAllBackElems` | internal/datastructure/list.go:34-47 | RPUSH appends the values in order. |
| `Lists.PushPopFront` | internal/datastructure/list.go:19-70 | LPUSH of n values then LPOP of n returns them last first and restores the list, or its absence, and every other key (n at most what a pop can allocate, or it panics). |
| `Lists.PushPopBack` | internal/datastructure/list.go:34-93 | The same for RPUSH and RPOP at the other end. |
| `Lists.RangeHolds` | internal/datastructure/list.go:106-137 | For every pair of indices, one below zero counting back from the length, LRANGE holds element i, at its place in a contiguous stretch, exactly when i lies between the two ends. |
| `Lists.RangeIs` | internal/datastructure/list.go:106-137 | Positions a to b give those elements, whichever way each end is named; 0 to -1 is the whole list. |
| `Lists.RangeClamped` | internal/datastructure/list.go:115-127 | Ends beyond the list are drawn in, and a range that ends before it begins is empty. |
| `Lists.PopsTake` | internal/datastructure/list.go:49-93 | LPOP takes the first count elements and RPOP the last, last first, or all there are, and then the key goes. |
| `Lists.SortedKey` | internal/datastructure/list.go:139-165 | Sorting a key with sortable elements leaves them in the order asked for, the same elements, and every other list alone. |
| `Lists.SortedNumbers` | internal/datastructure/list.go:139-165 | If all are numbers, the numbers never fall (ascending) or never rise (descending). |
| `Lists.SortedTexts` | internal/datastructure/list.go:139-165 | With ALPHA no text comes after one that it precedes byte by byte (ascending), or before (descending). |
| `Lists.List.Lpush` | internal/datastructure/list.go:19-32 | The map of ring objects becomes the specified map; the new length is returned; no other key's ring or buffer changes. |
| `Lists.List.Rpush` | internal/datastructure/list.go:34-47 | The same, panicking exactly when the key's ring is stuck, and then changing nothing. |
| `Lists.List.Lpop` | internal/datastructure/list.go:49-70 | Returns the first min(count, length) elements and drops the key exactly when none are left; panics exactly when the key exists and the count is negative or more items than can be allocated, however short the list. |
| `Lists.List.Rpop` | internal/datastructure/list.go:72-93 | Returns the last min(count, length) elements, last first, with the same deletion and panic conditions. |
| `Lists.List.Llen` | internal/datastructure/list.go:95-104 | Returns the number of listed elements, 0 without the key. |
| `Lists.List.Lrange` | internal/datastructure/list.go:106-137 | Returns the clamped slice, and reports failure exactly on a missing or empty list. |
| `Lists.List.Sort` | internal/datastructure/list.go:139-165 | Sorts the key's ring with the chosen comparator and touches nothing else. |
| `Lists.List.Dump` | internal/datastructure/list.go:167-184 | Returns the sequences of all non-empty lists, whatever the visiting order. |
| `Expiry.EvictionInvisible` | internal/datastructure/dict.go:29-37 | Removing any expired keys changes no lookup, TTL or dump answer now or at any later instant. |
| `Expiry.RevivedExactly` | internal/datastructure/dict.go:75-93 | An eviction just before an EXPIRE makes no difference if and only if the key had not expired or the lifetime is not positive. |
| `Expiry.RevivedAtExactly` | internal/datastructure/dict.go:95-113 | The same for PEXPIREAT: the key had not expired or the new deadline is past. |
| `Expiry.AnswersAgree` | internal/datastructure/dict.go:49-59 | At one instant Get succeeds iff the key is in Dump iff TTL is not -2; a TTL never overstates the milliseconds left, and is short of them by a second or more exactly when 64-bit durations saturate. |
| `Expiry.ExpireIsExpireAt` | internal/command/dict_command.go:109-134 | EXPIRE and the PEXPIREAT logged for it act alike if and only if the key is absent, the lifetime is positive, or the computed instant is already past. |
| `Sampling.SampleRound` | internal/datastructure/dict.go:151-179 | For every choice of samples: at most `limit` draws and, if that is positive, at least one; every drawn key that has expired is evicted and no other key, and exactly those are counted. |
| `Sampling.DrawnGo` | internal/datastructure/dict.go:165-174 | If every key has expired, a round that draws any evicts some. |
| `Dicts.Dict.Set` | internal/datastructure/dict.go:39-47 | Writes the value with a deadline only for a positive lifetime, clearing any old one. |
| `Dicts.Dict.Get` | internal/datastructure/dict.go:49-59 | Returns the unexpired value if any and evicts at most that key, invisibly. |
| `Dicts.Dict.Delete` | internal/datastructure/dict.go:61-73 | Removes exactly the named keys and returns the drop in the number of keys, repeated arguments included. |
| `Dicts.Dict.Expire` | internal/datastructure/dict.go:75-93 | Succeeds iff the key is stored; deletes it for a lifetime that is not positive, else moves its deadline. |
| `Dicts.Dict.ExpireAt` | internal/datastructure/dict.go:95-113 | Succeeds iff the key is stored; deletes it when the instant has passed, else sets that deadline. |
| `Dicts.Dict.TTL` | internal/datastructure/dict.go:115-132 | Returns whole seconds left, -1 or -2 as specified, evicting at most the expired key asked about. |
| `Dicts.Dict.ActiveExpire` | internal/datastructure/dict.go:143-181 | Evicts only expired keys, at most rounds * sample size of them; goes on to another round exactly when something was checked and a quarter of it had expired, up to the round limit; a non-empty dict whose keys have all expired shrinks. |
| `Dicts.Dict.Dump` | internal/datastructure/dict.go:183-196 | Returns exactly the unexpired entries, whatever the visiting order. |
| `Sets.Set.Sadd` | internal/datastructure/set.go:37-54 | Adds the members keeping any deadline, and returns the rise in cardinality even with repeated arguments. |
| `Sets.Set.Srem` | internal/datastructure/set.go:56-77 | Removes the members, drops the key exactly when none are left, and returns the fall in cardinality. |
| `Sets.AddedUnseenExactly` | internal/datastructure/set.go:37-54 | An eviction just before an SADD makes no difference to the visible sets if and only if the key is absent or had not expired. |
| `Sets.AddMembers` | internal/datastructure/set.go:46-52 | The counting loop yields the union and counts each new member once. |
| `Sets.RemoveMembers` | internal/datastructure/set.go:65-71 | The counting loop yields the difference and counts each removed member once. |
| `Sets.Set.Smembers` | internal/datastructure/set.go:79-93 | Returns the members of an unexpired set, evicting an expired one. |
| `Sets.Set.Sismember` | internal/datastructure/set.go:95-106 | Whether the member is in the set, if it has not expired; evicts it if it has. |
| `Sets.Set.Scard` | internal/datastructure/set.go:108-118 | The number of members of an unexpired set; evicts an expired one. |
| `Sets.Set.TTL` | internal/datastructure/set.go:152-166 | As for the dict. |
| `Sets.Set.Expire` | internal/datastructure/set.go:120-134 | As for the dict. |
| `Sets.Set.ExpireAt` | internal/datastructure/set.go:136-150 | As for the dict. |
| `Sets.Set.Dump` | internal/datastructure/set.go:168-183 | Returns exactly the unexpired sets with their deadlines. |
| `Sets.Set.ActiveExpire` | internal/datastructure/set.go:193-227 | The same, with the extra stop on an empty store. |
| `HashMaps.LastWriteWins` | internal/datastructure/hashmap.go:16-39 | A field written several times in one HSET ends with the value of its last occurrence. |
| `HashMaps.OnlyFieldsWritten` | internal/datastructure/hashmap.go:16-39 | No field outside the argument list is written. |
| `HashMaps.HashMap.Hset` | internal/datastructure/hashmap.go:16-39 | Merges the pairs into the key's hash, changes nothing on an odd list, and returns the number of new fields however often they repeat. |
| `HashMaps.HashMap.Hdel` | internal/datastructure/hashmap.go:53-74 | Removes the fields, drops the key exactly when none are left, and returns the number removed. |
| `HashMaps.WriteFields` | internal/datastructure/hashmap.go:29-37 | The loop's count equals the growth of the hash. |
| `HashMaps.DeleteFields` | internal/datastructure/hashmap.go:63-68 | The loop's count equals the shrinkage of the hash. |
| `HashMaps.HashMap.Dump` | internal/datastructure/hashmap.go:115-128 | Copies every hash with all its fields. |
| `Commands.LookupName` | internal/command/registry.go:49-56 | Each of the 21 modelled names finds its own handler, so none of their registrations shadows another; the other registered names (LLEN, HGET, PING, KEYS and so on) have no effect here. |
| `Commands.ParsedShape` | internal/command/registry.go:53-64 | Any argument list a logging handler accepts is one a log record can spell, SORT's option words included. |
| `Commands.LoggedIsLoggable` | internal/command/list_command.go:41-85 | Everything a command appends can be read back as a command, whatever the request and the stores. |
| `Commands.ParseEmit` | internal/command/registry.go:53-64 | A record read back through lookup and argument parsing is exactly the command it spells: key, values, order, deadline and sort options. |
| `LogRefinement.ReplayConcat` | internal/persistence/aof.go:54-94 | Replaying two logs one after the other is replaying their concatenation, panics included. |
| `LogRefinement.EvictionsAre` | internal/datastructure/dict.go:143-181 | An eviction step removes the expired ones of any chosen keys and no others, and every possible eviction is such a step. |
| `LogRefinement.SoundStep` | internal/command/set_command.go:60-78 | From stores with no empty collection, no set deadline and no stuck ring, no step but a pop that removes something, a set deadline or a crash panics or leaves such a thing behind. |
| `LogRefinement.NoEmptyStep` | internal/command/set_command.go:60-78 | No command at all that does not panic, pops, set deadlines and evictions included, leaves an empty list, hash or set. |
| `LogRefinement.RunNoEmpty` | internal/command/registry.go:58-64 | So over every run of any commands, with any eviction in between, none is reachable. |
| `LogRefinement.RestStep` | internal/command/registry.go:58-64 | What a logged command does to sets, lists and hashes depends on neither the dict nor the clock. |
| `LogRefinement.AddNothing` | internal/command/set_command.go:40-58 | An SADD that counts 0 left the store exactly as it was, so skipping its record loses nothing. |
| `LogRefinement.RemoveNothing` | internal/command/set_command.go:60-78 | The same for SREM, given no empty set. |
| `LogRefinement.EraseNothing` | internal/command/hash_command.go:70-88 | The same for HDEL, given no empty hash. |
| `LogRefinement.StepReproduced` | internal/command/hash_command.go:37-88 | A durable command and the records it appended, run at any other time on a copy, leave equal sets, lists and hashes. |
| `LogRefinement.StepReproducedExactly` | internal/command/hash_command.go:37-55 | Step and log agree on sets, lists and hashes if and only if the step is durable: not a pop that removes something, a set deadline, or an HSET that only overwrites with new values. The dict's half is `DictStepExactly`. |
| `LogRefinement.DictStepExactly` | internal/command/dict_command.go:41-151 | Step and log, replayed at a later instant, show the same dict then if and only if the step is not a client PEXPIREAT, nor a SEXPIRE of an existing set, whose deadline makes a difference: the dict key is absent, has that deadline already, or both its deadline and the new one have passed. |
| `LogRefinement.ClientDeadlineLost` | internal/command/dict_command.go:136-151 | A concrete run: a client's PEXPIREAT ends a key at 10 s, and a replay at 20 s shows it. |
| `LogRefinement.SetDeadlineHitsDict` | internal/command/set_command.go:116-138 | A concrete run: a set's deadline deletes the dict key of the same name on replay, and the set that was over comes back for good. |
| `LogRefinement.RunRest` | internal/command/list_command.go:41-228 | For commands made one at a time: over every run of durable commands with any eviction in between, nothing panics, no empty collection is reachable, and replaying the log at any instant rebuilds sets, lists and hashes. |
| `LogRefinement.ReplayTrack` | internal/command/dict_command.go:136-151 | A replayed key set in the log is present exactly when none of the deadlines logged since its last SET or DEL has passed, with the last value and last deadline; a key the log leaves out is there only if it was before. |
| `LogRefinement.LiveTrack` | internal/command/dict_command.go:41-134 | For commands made one at a time: over every run a live key has its last value, and its last deadline unless it has expired; it can be missing only once a deadline given to it is reached. |
| `LogRefinement.RunDict` | internal/command/dict_command.go:41-151 | For commands made one at a time: over every run, with any eviction, replaying the log at any later instant, on an empty dict or over live keys, gives the visible keys of the live dict with their values and deadlines, less exactly the lost ones: those with a passed deadline since their last SET. |
| `LogRefinement.RunRebuiltExactly` | internal/command/dict_command.go:41-151 | For commands made one at a time: all four stores are rebuilt, as seen at that instant, if and only if no key is lost. |
| `LogRefinement.NoRaisedDeadline` | internal/command/dict_command.go:109-134 | For commands made one at a time: no key whose deadlines since its last SET never increase is lost. |
| `LogRefinement.LostSometimeExactly` | internal/command/dict_command.go:109-134 | For commands made one at a time: some replay after the run loses a live key if and only if its deadline is still to come and above another it was given since its last SET. |
| `LogRefinement.RaisedDeadlineLost` | internal/command/dict_command.go:109-134 | A concrete run: ten seconds, raised to a hundred at 5 s, visible at 50 s and deleted by a replay then. |
| `LogRefinement.CutLogIsAMoment` | internal/persistence/aof.go:38-94 | For commands made one at a time: any prefix of a run's log replays to the sets, lists and hashes of some moment of the run; that moment's log is the prefix, or the prefix has one SET more, whose deadline was cut off. |
| `LogRefinement.CutDict` | internal/command/dict_command.go:41-76 | For commands made one at a time: the dict replayed from a cut log shows what the moment's dict shows, less exactly the lost keys; only the key of a SET cut off from its deadline differs, and that one has the new value and never expires. |
| `Loading.Whole` | internal/persistence/aof.go:54-94 | The number of records wholly inside the first bytes is maximal: that many fit and one more does not. |
| `Loading.LoadTruncated` | internal/persistence/aof.go:54-94 | For well-formed records cut at any byte, loading dispatches exactly the calls of the records wholly kept, in order, and never crashes. |
| `Loading.LoadPast` | internal/persistence/aof.go:73-91 | A decoded value is dispatched exactly if it is a non-empty array beginning with a bulk or simple string, by that name with the rest as arguments, and passed over otherwise. |
| `Loading.LoadStops` | internal/persistence/aof.go:73-78 | Loading stops at the first bytes that do not decode, whatever follows, having dispatched what came before, and crashes exactly if the decoder does. |
| `Loading.ParseEmitAll` | internal/persistence/aof.go:54-94 | A log written out and read back is the same list of commands. |
| `Loading.RecoverTruncated` | internal/persistence/aof.go:54-94 | Recovering from any cut of a log's bytes equals replaying the commands wholly kept. |
| `Loading.CrashRecovery` | internal/persistence/aof.go:38-94 | For commands made one at a time, bytes to stores: cut a run's file at any byte, restart at any time, and the server has the sets, lists and hashes of some moment of the run, the one whose log survived (or lacks only a SET kept without its deadline); and its dict is that moment's as `CutDict` says. |
| `Loading.RestartExactly` | internal/server/server.go:138-143 | For commands made one at a time, bytes to stores: the restarted server shows what clients would have seen if and only if no key is lost. |
| `Compaction.DictPhase` | internal/persistence/aof.go:187-212 | Replaying the dict part on any stores, in any visiting order, overwrites the snapshot's keys and drops those past their deadline, and nothing else. |
| `Compaction.SetPhase` | internal/persistence/aof.go:214-240 | The set part adds the members, but a set's deadline lands on the dict key of the same name. |
| `Compaction.ListPhase` | internal/persistence/aof.go:242-255 | The list part appends to whatever lists are there. |
| `Compaction.HashPhase` | internal/persistence/aof.go:257-276 | The hash part, one HSET a field in any order, writes every field over those present. |
| `Compaction.RewriteRebuilds` | internal/persistence/aof.go:172-279 | Replaying a rewritten log on any stores gives the same result for every visiting order of keys, members and fields. |
| `Compaction.RewritePreservesExactly` | internal/persistence/aof.go:172-279 | Compaction preserves meaning at any later instant, for every visiting order, if and only if the snapshot has no set with a deadline and no empty collection (an expired empty set excepted). |
| `Restarting.CompactedRestart` | internal/server/server.go:162-169 | After a run of any commands, rewrite then restart later: from bytes to stores, every store is as clients would see it, even a popped list, even a key whose deadline had been raised, if and only if no set still visible at the rewrite had a deadline. |
| `Compaction.LoadPreservesExactly` | internal/server/server.go:88-136 | Loading a snapshot into empty stores gives back what it still shows, set deadlines included, if and only if it has no empty list, empty hash or unexpired empty set. |
| `Compaction.LoadThenReplayDoublesLists` | internal/server/server.go:82-83 | Loading a clean snapshot and then its rewritten log keeps dict, sets and hashes and doubles every list; so it keeps the lists only if there are none. |
| `Restarting.OverlaidRun` | internal/persistence/aof.go:54-94 | Replaying any log on sound stores instead of empty ones panics no more; sets and hashes hold what the log puts there and otherwise only what was there before, and lists hold both. |
| `Restarting.LoadWhole` | internal/persistence/aof.go:54-94 | Loading the whole file of a log gives exactly its commands and no crash. |
| `Restarting.SnapshotThenLog` | internal/server/server.go:48-143 | For commands made one at a time: a normal restart, bytes to stores: a snapshot taken after a durable run and the run's whole log on top give sets and hashes as they were, the dict as visible less exactly the lost keys, and every list with all its elements twice. |
| `Restarting.RestartUnnoticed` | internal/server/server.go:138-143 | For commands made one at a time: after a restart that loses no key, every read of a text or a set answers, at any later instant, as it would have without the restart. |
| `Concurrency.TouchedAlike` | internal/command/registry.go:58-64 | What a record does to a key of its store, and whether it panics, depends on what was at that key alone. |
| `Concurrency.ReplayOn` | internal/persistence/aof.go:54-94 | Replaying a log leaves at a key what replaying only the records that touch it leaves there. |
| `Concurrency.ReplayAlike` | internal/persistence/aof.go:54-94 | Two logs with the same records in the same order at every key, however interleaved between keys, replay alike on any stores at any time, panics included. |
| `Concurrency.AlwaysAccounted` | internal/command/dict_command.go:53-76 | In every interleaving of store changes and appends of any number of clients, if records that share a key are appended in the order of their changes, the log and the records still owed make up at every key the log of the same changes made one at a time. |
| `Concurrency.ConcurrentIsSerial` | internal/persistence/aof.go:38-52 | Such a log, once all is appended, replays on any stores at any time as the serial log does, and says the same of every dict key, so all that is proved of serial runs holds of it. |
| `Concurrency.ConcurrentRestart` | internal/server/server.go:138-143 | Bytes to stores, for such concurrent clients: the restarted server shows what clients would have seen if and only if no key is lost. |
| `Concurrency.ConcurrentCrash` | internal/persistence/aof.go:38-94 | Bytes to stores, for such concurrent clients, with the file cut anywhere and any records still owed: each set, list and hash is as at some moment of the run, though not all at the same one, and so is each dict key as `CutDict` says. |
| `Concurrency.SwappedSets` | internal/command/dict_command.go:53-76 | A concrete interleaving: two SETs of a key appended in the other order; the live value is the second, the replayed the first, though no step is undurable, nothing is owed and no key is lost. |
| `Concurrency.DeadlineStrays` | internal/command/dict_command.go:53-76 | A concrete interleaving: a SET between another client's SET and its PEXPIREAT takes over that deadline on replay and is deleted. |
| `Concurrency.SwapExactly` | internal/persistence/aof.go:54-94 | On sound stores two neighbouring records may be swapped without a trace if and only if they commute: they share no key of a store, or ask the same of it (equal values, agreeing fields, disjoint members, values in either order the same, opposite ends of a list, a deadline that is over). |
| `AppendOnlyFile.AOF.constructor` | internal/persistence/aof.go:20-36 | Opens a file that may hold records already; the log is not replaying. |
| `AppendOnlyFile.AOF.Append` | internal/persistence/aof.go:38-52 | Adds exactly the record's encoding at the end, and nothing when disabled or replaying. |
| `AppendOnlyFile.ImageAppend` | internal/persistence/aof.go:38-52 | The bytes of a log are the bytes of its parts in order, so appending records is appending bytes. |
| `AppendOnlyFile.WriteDict` | internal/persistence/aof.go:187-212 | The loop writes the bytes of the dict part, visiting each key once. |
| `AppendOnlyFile.WriteSets` | internal/persistence/aof.go:214-240 | The same for sets, members in the order met. |
| `AppendOnlyFile.WriteLists` | internal/persistence/aof.go:242-255 | The same for lists, skipping empty ones. |
| `AppendOnlyFile.WriteFields` | internal/persistence/aof.go:258-275 | The same for the fields of one hash. |
| `AppendOnlyFile.WriteHashes` | internal/persistence/aof.go:257-276 | The same for all hashes. |
| `AppendOnlyFile.AOF.RewriteWithLists` | internal/persistence/aof.go:172-279 | The file becomes the bytes of the rewritten log under some visiting order; nothing is assumed of that order. |
| `Servers.Server.constructor` | internal/server/server.go:48-86 | The server starts with empty stores that share nothing with each other or the log, and with the file as found. |
| `Servers.Server.CmdSet` | internal/command/dict_command.go:41-76 | For every argument list the stores become what the parsed command specifies, the file grows by exactly the bytes of the records it owes, and the reply is the specified one; an unparsable lifetime is ignored. |
| `Servers.Server.CmdGet` | internal/command/dict_command.go:78-88 | The same; the reply is the unexpired value or nil, only an eviction can happen, and nothing is logged. |
| `Servers.Server.CmdDel` | internal/command/dict_command.go:90-107 | The same; the record is appended even when no key existed, and the reply counts the keys removed. |
| `Servers.Server.CmdExpire` | internal/command/dict_command.go:109-134 | The same; the relative lifetime is logged as an absolute deadline, and only when the key was stored, which is what the reply says. |
| `Servers.Server.CmdPExpireAt` | internal/command/dict_command.go:136-151 | The same; nothing is logged. |
| `Servers.Server.CmdTTL` | internal/command/dict_command.go:153-160 | The same; the reply is the whole seconds left, -1 or -2, and only an eviction can happen. |
| `Servers.Server.CmdLpush` | internal/command/list_command.go:41-62 | The same; the values are logged in the order given, and the reply is the new length. |
| `Servers.Server.CmdRpush` | internal/command/list_command.go:64-85 | The same, panicking without a record exactly when the ring is stuck. |
| `Servers.Server.CmdLpop` | internal/command/list_command.go:87-112 | The same; the reply lists what was popped, nothing is logged; panics exactly on a negative or unallocatable count at an existing key. |
| `Servers.Server.CmdRpop` | internal/command/list_command.go:114-139 | The same at the other end. |
| `Servers.Server.CmdSort` | internal/command/list_command.go:188-228 | The same; the option words are logged as they came, and a bad one changes and logs nothing. |
| `Servers.ReadOptions` | internal/command/list_command.go:196-214 | The option loop accepts the words in any case, the last of a kind winning, and rejects any other word. |
| `Servers.Server.CmdHset` | internal/command/hash_command.go:37-55 | The same; logged exactly when a field was added, and the reply counts those. |
| `Servers.Server.CmdHdel` | internal/command/hash_command.go:70-88 | The same; logged exactly when a field was removed, and the reply counts those. |
| `Servers.Server.CmdSAdd` | internal/command/set_command.go:40-58 | The same; logged exactly when a member was added, and the reply counts those. |
| `Servers.Server.CmdSRem` | internal/command/set_command.go:60-78 | The same; logged exactly when a member was removed, and the reply counts those. |
| `Servers.Server.CmdSExpire` | internal/command/set_command.go:116-138 | The same; the set's deadline is logged as a dict key's. |
| `Servers.Server.CmdSMembers` | internal/command/set_command.go:80-94 | The reply lists each member of an unexpired set once, in any order, or is nil; only an eviction can happen, and nothing is logged. |
| `Servers.Server.CmdSIsMember` | internal/command/set_command.go:96-106 | The same; the reply says whether the member is there to be seen. |
| `Servers.Server.CmdSCard` | internal/command/set_command.go:108-114 | The same; the reply counts the members to be seen. |
| `Servers.Server.CmdSTTL` | internal/command/set_command.go:140-146 | The same; the reply is the whole seconds left, -1 or -2. |
| `Servers.Server.CmdAuth` | internal/command/system_command.go:36-55 | Panics exactly when called with no argument, from a client or from the file; changes and logs nothing. |
| `Replies.ReadsAgree` | internal/command/dict_command.go:78-160 | Stores that show the same dict and sets at an instant give every read of a text or a set the same reply, so no such reply tells an evicted key from an expired one. |
| `Replies.ExpireTellsExactly` | internal/command/dict_command.go:109-134 | EXPIRE's reply does tell them apart, and differs exactly on an expired key nobody has evicted. |
| `Laws.AnyCase` | internal/command/registry.go:49-56 | A name finds its handler with any of its letters in lower case. |
| `Laws.DictNames` | internal/command/dict_command.go:31-39 | The names of the dict commands and AUTH, letter by letter. |
| `Laws.ListNames` | internal/command/list_command.go:31-39 | Those of the list commands. |
| `Laws.OtherNames` | internal/command/set_command.go:30-38 | Those of the set and hash commands. |
| `Laws.SetRequests` | internal/command/dict_command.go:41-53 | SET k v is for good; a third argument gives a lifetime in seconds if it is a positive number and nothing otherwise. |
| `Laws.KeyRequests` | internal/command/dict_command.go:78-160 | How GET, DEL, EXPIRE, PEXPIREAT, TTL and SEXPIRE requests are read. |
| `Laws.PushRequests` | internal/command/list_command.go:41-85 | How LPUSH and RPUSH requests are read, values in order. |
| `Laws.PopRequests` | internal/command/list_command.go:87-139 | LPOP and RPOP take one unless a count follows. |
| `Laws.OptionsMean` | internal/command/list_command.go:196-214 | SORT refuses any word but ASC, DESC and ALPHA; the last of ASC and DESC decides, ascending by default; ALPHA anywhere compares as text. |
| `Laws.SortRequests` | internal/command/list_command.go:188-214 | A SORT request is read by those rules. |
| `Laws.HashRequests` | internal/command/hash_command.go:37-88 | HSET takes whole pairs and refuses anything else; HDEL takes fields. |
| `Laws.SetStoreRequests` | internal/command/set_command.go:40-146 | How the set requests are read. |
| `Laws.AuthRequests` | internal/command/system_command.go:36-55 | AUTH without an argument crashes, with one it touches nothing. |
| `Laws.AuthTells` | internal/command/system_command.go:36-55 | AUTH answers OK to the configured password and an error to any other. |
| `Laws.WrongNumber` | internal/command/list_command.go:41-139 | With the wrong number of arguments every handler changes and logs nothing. |
| `Laws.Refusals` | internal/command/dict_command.go:78-134 | The words of the refusals. |
| `Laws.SecondsExactly` | internal/command/dict_command.go:109-119 | A lifetime of n seconds is n seconds if and only if |n| is at most 9223372036, some 292 years; beyond, it wraps by 2^64 nanoseconds. |
| `Laws.LifetimeWraps` | internal/command/dict_command.go:109-119 | EXPIRE with one second more deletes the key. |
| `Laws.ReadsTell` | internal/command/dict_command.go:78-160 | GET answers the stored text up to and at its deadline, nil after; TTL the whole seconds left, -1 without a deadline, -2 without the key. |
| `Laws.GetAfterSet` | internal/command/dict_command.go:41-88 | After SET k v, GET k answers v for good or for exactly the n seconds given, TTL the seconds left of them, and GET of any other key what it did. |
| `Laws.GetAfterDel` | internal/command/dict_command.go:78-107 | After DEL, GET answers nil for the named keys and as before for others; the reply counts the keys that were there, repeated ones once. |
| `Laws.GetAfterExpire` | internal/command/dict_command.go:78-134 | After EXPIRE k n, GET k answers as before for n seconds and nil after, or nil at once if n is not positive; the reply says if the key was stored. |
| `Laws.GetAfterPExpireAt` | internal/command/dict_command.go:78-151 | The same for PEXPIREAT up to the instant given. |
| `Laws.GetOverRuns` | internal/command/dict_command.go:41-151 | Over every run, GET answers the text the key was last set to or nil: surely the text if no deadline since has been reached, surely nil once the last is past or the key was deleted. |
| `Laws.MembersAdded` | internal/command/set_command.go:40-58 | After SADD the set has the named members and its old ones and the deadline it had; the reply counts the new ones; other sets are untouched. |
| `Laws.MembersRemoved` | internal/command/set_command.go:60-78 | After SREM the named members are out, the others and the deadline stay, the key goes with its last member, and the reply counts those removed. |
| `Laws.SetReadsTell` | internal/command/set_command.go:80-146 | SISMEMBER, SCARD, SMEMBERS and STTL tell what is stored, each member once, up to and at the deadline. |
| `Laws.FieldsWritten` | internal/command/hash_command.go:37-55 | After HSET the written fields hold what was written last, the others what they did; the reply counts the new ones; other hashes are untouched. |
| `Laws.FieldsErased` | internal/command/hash_command.go:70-88 | After HDEL the named fields are gone, the others stay, the key goes with its last field, and the reply counts those removed. |
| `Laws.ListsGrow` | internal/command/list_command.go:41-85 | LPUSH puts the values before the list, last first, RPUSH after it in order; both reply the new length. |
| `Laws.FrontTaken` | internal/command/list_command.go:87-112 | LPOP answers and takes the first elements, as many as there are up to the count. |
| `Laws.BackTaken` | internal/command/list_command.go:114-139 | RPOP the last, last first. |
| `Laws.PopsPanicExactly` | internal/command/list_command.go:87-139 | A pop crashes exactly if the key is there and the count is below zero or above what can be allocated. |
| `Laws.SortOrders` | internal/command/list_command.go:188-228 | SORT leaves sortable elements in the order its words ask for, the same elements, and other lists alone. |
| `Servers.Server.Replay` | internal/command/registry.go:58-64 | Dispatching any call, known or not, performs exactly the command it parses to. |
| `Servers.Server.LoadAOF` | internal/persistence/aof.go:54-94 | The replay loop ends with the stores that replaying all decoded calls gives, stops at the first fault, panics exactly when decoding or a command does, and leaves the file as it was. |
| `Servers.Server.RewriteAOF` | internal/server/server.go:162-169 | The file becomes a rewritten log of the stores as visible now; the stores are untouched. |
| `Servers.Server.LoadDict` | internal/server/server.go:99-104 | Loading a snapshot's dict over any dict gives the closed form, deadlines already past dropped. |
| `Servers.Server.LoadSets` | internal/server/server.go:106-117 | Loading its sets gives members and, unlike the log, their deadlines. |
| `Servers.Server.LoadLists` | internal/server/server.go:119-127 | Loading its lists appends each to what is there and never panics on sound lists. |
| `Servers.Server.LoadHashes` | internal/server/server.go:129-133 | Loading its hashes field by field writes every field. |
| `Servers.Server.LoadRDB` | internal/server/server.go:88-136 | The four loops together give the loaded stores of the theorems. |
| `Servers.Start` | internal/server/server.go:48-86 | Startup is the snapshot, then the log on top of it, for any file bytes: its outcome and every panic are as specified. |
| `Interleaving.AlwaysGrounded` | internal/datastructure/dict.go:22-113 | In every interleaving of the locked sections of any number of threads, every value stored, captured or returned for a key was set for that key before. |
| `Interleaving.GroundedStep` | internal/datastructure/dict.go:39-113 | Each single locked section keeps that. |
| `Interleaving.StepsAre` | internal/datastructure/dict.go:39-73 | The one-section steps are the dict's own operations, and sweeping is any eviction. |
| `Interleaving.GetAlone` | internal/datastructure/dict.go:49-59 | A Get that no one interrupts returns and evicts as in one piece. |
| `Interleaving.ExpireAlone` | internal/datastructure/dict.go:75-113 | So with Expire and ExpireAt. |
| `Interleaving.GoneStays` | internal/datastructure/dict.go:49-113 | In every interleaving, a key absent and not captured by an Expire or ExpireAt under way stays absent until it is set. |
| `Interleaving.CarriedIsCaptured` | internal/datastructure/dict.go:22-113 | In every interleaving, whoever is between its two sections carries an item that the dict held at an earlier step, the thread's first section, and has not moved since. |
| `Interleaving.ReappearsOnlyBy` | internal/datastructure/dict.go:75-113 | In every interleaving, an absent key becomes present only by Set, or by an Expire or ExpireAt that captured it at an earlier step, and then with the value the dict held at that step. |
| `Interleaving.ReturnsOnlyUnexpired` | internal/datastructure/dict.go:49-59 | In every interleaving, each value Get returned is what a Get in one piece would have returned from the dict at its first section, even by the clock of its later check: it was stored then, and its deadline had not passed at the check. |
| `Interleaving.ExpireAtomicExactly` | internal/datastructure/dict.go:75-93 | The two sections of Expire act as one if and only if the key still holds the captured value or is to be deleted. |
| `Interleaving.ExpireAtAtomicExactly` | internal/datastructure/dict.go:95-113 | The same for ExpireAt: the key still holds the captured value, or the instant has passed. |
| `Interleaving.EvictionAtomicExactly` | internal/datastructure/dict.go:33-59 | A delayed eviction is a correct one if and only if the key is absent or has expired as it is now. |
| `Interleaving.OverwriteLost` | internal/datastructure/dict.go:75-93 | A concrete interleaving in which a Set between the two sections is undone. |
| `Interleaving.FreshValueEvicted` | internal/datastructure/dict.go:33-59 | A concrete interleaving in which a Get deletes an unexpired value set after it looked. |
| `PubSub.SubscribedSound` | internal/datastructure/pubsub.go:20-27 | Subscribing keeps all bounds, order, counts and listings. |
| `PubSub.UnsubscribedSound` | internal/datastructure/pubsub.go:29-43 | So does unsubscribing: no empty topic and no closed channel stays listed. |
| `PubSub.PublishedSound` | internal/datastructure/pubsub.go:45-71 | So does publishing. |
| `PubSub.ReceivedSound` | internal/datastructure/pubsub.go:20-71 | So does a subscriber taking a message. |
| `PubSub.Run` | internal/datastructure/pubsub.go:20-71 | Every run reaches a sound state: topics list exactly the open channels, each once. |
| `PubSub.RunConserves` | internal/datastructure/pubsub.go:20-71 | Over every run each buffer holds at most 100, what a subscriber got and has buffered is a subsequence, in order, of what it was offered, and the counts returned by Publish add up to exactly that over all subscribers ever made. |
| `PubSub.OfferedExactly` | internal/datastructure/pubsub.go:45-71 | Over every run of whole publications, a subscription is offered exactly the messages published to its topic between its beginning and its end, in order; for publications that overlap see `Broadcasts`. |
| `PubSub.OfferAllExactly` | internal/datastructure/pubsub.go:57-70 | One publication offers the message to each listener once and to nobody else, and counts those with room. |
| `PubSub.PublicationReaches` | internal/datastructure/pubsub.go:45-71 | A publication puts the array "message", topic, text into the channel of every open subscription to the topic holding fewer than 100, and nothing anywhere else. |
| `PubSub.ReceiptTakes` | internal/datastructure/pubsub.go:20-27 | A subscriber takes messages first in, first out. |
| `PubSub.SubscriptionBegins` | internal/datastructure/pubsub.go:20-27 | A new subscription is open, empty and last in its topic's list; the others are untouched. |
| `PubSub.SubscriptionEnds` | internal/datastructure/pubsub.go:29-43 | An ended one is closed with what it holds and off the list, which goes if empty; the others are untouched. |
| `PubSub.ClosedForGood` | internal/datastructure/pubsub.go:29-71 | Once closed, a channel stays closed and is never sent to again, whatever follows. |
| `PubSub.ClosedStep` | internal/datastructure/pubsub.go:29-43 | Unsubscribing a closed channel again changes nothing: it is not closed twice. |
| `PubSub.Pubsub.Subscribe` | internal/datastructure/pubsub.go:20-27 | The object's lists and channels follow the specified step. |
| `PubSub.Pubsub.Unsubscribe` | internal/datastructure/pubsub.go:29-43 | The search loop removes the one listing and closes an open channel; a channel not listed changes nothing. |
| `PubSub.Pubsub.Publish` | internal/datastructure/pubsub.go:45-71 | The send loop never meets a closed channel, drops the message for full buffers, and returns what the state counts. |
| `Broadcasts.AlwaysFair` | internal/datastructure/pubsub.go:45-71 | In every interleaving of the single sends of any publications with receives, with subscriptions changing only between publications, buffers stay bounded, order and counts are conserved, no closed channel is sent to, and each publication that has passed a listener was offered to it exactly once. |
| `Broadcasts.AlwaysInStep` | internal/datastructure/pubsub.go:57-70 | If each subscriber is sent publications in the order they began, what it was offered is exactly those that have reached it, in that order. |
| `Broadcasts.SubscribersAgree` | internal/datastructure/pubsub.go:57-70 | Then two subscribers of the same publications were offered the same messages in the same order. |
| `Broadcasts.OrdersDiffer` | internal/datastructure/pubsub.go:45-71 | Otherwise they need not: a concrete interleaving of two publications reaches two subscribers in opposite orders. |
| `Broadcasts.PublishAlone` | internal/datastructure/pubsub.go:45-71 | A publication whose sends no one interrupts is the whole publication of `PubSub`. |
| `Broadcasts.SendAlone` | internal/datastructure/pubsub.go:57-70 | Each of its sends takes it one listener further. |

## Left out

- Sorting.InsertionSort: is the algorithm of sort.Slice on short slices only; see Sorting.SortSlice.
- Sorting.SortSliceOrdered: is about that algorithm, at every length; see Sorting.SortSlice.
- Sorting.SortedList: is about that algorithm, at every length; see Sorting.SortSlice.
- Sorting.SortSliceKeepsOrder: is about that algorithm, at every length; see Sorting.SortSlice.
- Sorting.SortsExactly: its "only if" half is about that algorithm, at every length.
- Sorting.SortSlice: is the insertion sort Go's sort.Slice runs on short slices, used here at every length; for longer ones the library's result may differ among ties, and on lists with a cyclic comparator.
- Sorting.Smaller: leaves strconv.ParseFloat open, as an arbitrary partial function to numbers, infinities and NaN.
- ByteStrings.ToUpper: upper-cases ASCII letters only, so a command name or SORT option that becomes ASCII by Unicode folding is not recognised.
- Resp.Decode: does not model running out of memory below the allocation limits, nor reads failing for other reasons than the end of the stream.
- Loading.Fits: texts and counts in a log must be within the allocation limits, or reading the log back panics.
- LogRefinement.RunRest: takes commands one at a time; `Concurrency.ConcurrentIsSerial` says when concurrent ones are as good.
- LogRefinement.LiveTrack: takes commands one at a time, likewise.
- LogRefinement.NoRaisedDeadline: takes commands one at a time, likewise.
- LogRefinement.LostSometimeExactly: takes commands one at a time, likewise.
- LogRefinement.CutLogIsAMoment: takes commands one at a time; for concurrent ones `Concurrency.ConcurrentCrash` holds key by key.
- LogRefinement.CutDict: takes commands one at a time, likewise.
- Loading.CrashRecovery: takes commands one at a time, likewise.
- Loading.RestartExactly: takes commands one at a time; for concurrent ones see `Concurrency.ConcurrentRestart`.
- Restarting.SnapshotThenLog: takes commands one at a time; `Concurrency.ConcurrentIsSerial` carries it over.
- Restarting.RestartUnnoticed: takes commands one at a time, likewise.
- Concurrency.Next: takes a command's change of its store as one step; the two locked sections of Expire, ExpireAt, Get and TTL are apart in `Interleaving` alone, for the dict without its log.
- Concurrency.SwapExactly: leaves out SORT against another record of the same list, whose effect turns on the comparator.
- AppendOnlyFile.AOF.Append: writes to the current file, also after a rewrite; see AppendOnlyFile.AOF.RewriteWithLists.
- LogRefinement.RunRebuiltExactly: is about runs of commands made one at a time each of whose steps the log does justice to; that it does not otherwise is proved step by step (`StepReproducedExactly`, `DictStepExactly`), since a later command may make up for a lost one.
- Expiry.After: deadlines are whole milliseconds, so a deadline and a clock differing by less than one are not told apart, and the truncation to milliseconds when a deadline is logged has nothing to cut; instants lie within some 146 million years of 1970, and the zero time as a deadline is not a value of its own.
- LogRefinement.Run: gives a command, and a whole replay, one instant; a clock that moves during one is not modelled.
- LogRefinement.RunDict: is about instants after the run's last event; at that very millisecond a key deleted by its deadline could still count as visible in the replay.
- Restarting.CompactedRestart: takes the four dumps at one moment; the server takes them one after the other while commands run, and the records appended meanwhile go to the file that the rewrite replaces.
- AppendOnlyFile.AOF.RewriteWithLists: makes a fresh file; that the open descriptor still names the old file after the rename, and so loses later records (internal/persistence/aof.go:38-52, internal/persistence/aof.go:278), is not modelled.
- Interleaving.Next: takes each locked section as one step; unlocked reads of shared memory (internal/datastructure/dict.go:144, internal/datastructure/set.go:89) are data races outside it. The set store's interleavings, of the same shape, are left out.
- Sets.Set.Dump: returns the members as values; that the program hands out its live member maps for some reads is not captured.
- Deques.Deque.PopFront: overwrites the vacated slot with an arbitrary value where the program writes the zero value; nothing reads it.
- PubSub.Pubsub.Publish: channel receives are steps of the run; the one shared subscription of all connections (internal/command/pubsub_command.go) is left out.
- LLEN, LRANGE, HGET, HGETALL, HEXISTS, HLEN, PING, KEYS, INFO and MONITOR as commands: no effect on stores or log, and no panic; of their store methods, those of lists are modelled.
- BGSAVE, which dumps the stores into a snapshot file, and the SUBSCRIBE, UNSUBSCRIBE and PUBLISH handlers, which render the store methods' results: neither touches the modelled stores or the log.
- The replies to a malformed request and to an unknown command (internal/server/server.go:329-342).
- Sockets, connection handling, authentication, configuration, logging and shutdown.
- File opening, fsync and I/O errors of the log; the gob encoding of snapshot files (internal/persistence/rdb.go), which enter as snapshot values.
- AOF.Rewrite (internal/persistence/aof.go:104-170): not used by the server.
- A handler that finds no log object (nil AOF): the server always has one.
