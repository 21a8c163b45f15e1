/** Publish and subscribe over bounded buffers. */
module PubSub {
  import opened ByteStrings
  import opened Resp

  const BUFFER := 100

  // One subscription for all time: its channel, and what it was sent and has received.
  datatype Sub = Sub(topic: Bytes, buffer: seq<Value>, closed: bool, received: seq<Value>, offered: seq<Value>)
  {
    // All that was ever put into the channel, in order.
    function Delivered(): seq<Value> { received + buffer }
  }

  // Subscriptions are numbered in the order they were made; `counted` adds up what PUBLISH
  // has returned.
  datatype State = State(channels: map<Bytes, seq<nat>>, subs: seq<Sub>, counted: nat)

  function Listeners(channels: map<Bytes, seq<nat>>, topic: Bytes): seq<nat> {
    if topic in channels then channels[topic] else []
  }

  /** The message as subscribers see it. */
  function Message(topic: Bytes, text: Bytes): Value {
    Arr([Bulk("message"), Bulk(topic), Bulk(text)])
  }

  // ---------- Steps ----------

  function Subscribed(s: State, topic: Bytes): State {
    s.(channels := s.channels[topic := Listeners(s.channels, topic) + [|s.subs|]],
       subs := s.subs + [Sub(topic, [], false, [], [])])
  }

  function IndexOf(ids: seq<nat>, id: nat): (i: nat)
    ensures i <= |ids|
    ensures i < |ids| ==> ids[i] == id
    ensures forall j :: 0 <= j < i ==> ids[j] != id
  {
    if ids == [] || ids[0] == id then 0 else 1 + IndexOf(ids[1..], id)
  }

  function Without(channels: map<Bytes, seq<nat>>, topic: Bytes, i: nat): map<Bytes, seq<nat>>
    requires topic in channels && i < |channels[topic]|
  {
    var rest := channels[topic][..i] + channels[topic][i + 1..];
    if rest == [] then channels - {topic} else channels[topic := rest]
  }

  function Unsubscribed(s: State, topic: Bytes, id: nat): State {
    var i := IndexOf(Listeners(s.channels, topic), id);
    if i == |Listeners(s.channels, topic)| || id >= |s.subs| then s
    else s.(channels := Without(s.channels, topic, i), subs := s.subs[id := s.subs[id].(closed := true)])
  }

  /** A send that does not wait: with a full buffer the message is dropped. */
  function Offer(sub: Sub, m: Value): Sub {
    if |sub.buffer| < BUFFER then sub.(buffer := sub.buffer + [m], offered := sub.offered + [m])
    else sub.(offered := sub.offered + [m])
  }

  function Accepts(sub: Sub): nat {
    if |sub.buffer| < BUFFER then 1 else 0
  }

  /** Offers the message to each listener in turn; the new subscriptions and how many took it. */
  function OfferAll(subs: seq<Sub>, ids: seq<nat>, m: Value): (r: (seq<Sub>, nat))
    requires forall i :: 0 <= i < |ids| ==> ids[i] < |subs|
    ensures |r.0| == |subs|
    decreases |ids|
  {
    if ids == [] then (subs, 0)
    else
      var (before, n) := OfferAll(subs, ids[..|ids| - 1], m);
      var id := ids[|ids| - 1];
      (before[id := Offer(before[id], m)], n + Accepts(before[id]))
  }

  function Published(s: State, topic: Bytes, text: Bytes): State
    requires Valid(s)
  {
    var (subs, n) := OfferAll(s.subs, Listeners(s.channels, topic), Message(topic, text));
    s.(subs := subs, counted := s.counted + n)
  }

  /** A subscriber takes the next message from its channel. */
  function Received(s: State, id: nat): State {
    if id >= |s.subs| || s.subs[id].buffer == [] then s
    else
      var sub := s.subs[id];
      s.(subs := s.subs[id := sub.(buffer := sub.buffer[1..], received := sub.received + [sub.buffer[0]])])
  }

  // ---------- What every step keeps ----------

  /** The first is what remains of the second when some elements are left out. */
  predicate Subsequence(a: seq<Value>, b: seq<Value>)
    decreases |b|
  {
    if a == [] then true
    else if b == [] then false
    else
      || (a[|a| - 1] == b[|b| - 1] && Subsequence(a[..|a| - 1], b[..|b| - 1]))
      || Subsequence(a, b[..|b| - 1])
  }

  function Total(subs: seq<Sub>): nat
    decreases |subs|
  {
    if subs == [] then 0 else Total(subs[..|subs| - 1]) + |subs[|subs| - 1].Delivered()|
  }

  /** A topic lists exactly its open channels, each once, and no topic is left without any. */
  predicate Valid(s: State) {
    && (forall c :: c in s.channels ==> s.channels[c] != [])
    && (forall id :: 0 <= id < |s.subs| && !s.subs[id].closed ==> id in Listeners(s.channels, s.subs[id].topic))
    && (forall c, i :: c in s.channels && 0 <= i < |s.channels[c]| ==> Listening(s.subs, s.channels[c][i], c))
    && (forall c, i, j :: c in s.channels && 0 <= i < j < |s.channels[c]| ==> s.channels[c][i] != s.channels[c][j])
  }

  predicate Listening(subs: seq<Sub>, id: nat, topic: Bytes) {
    id < |subs| && !subs[id].closed && subs[id].topic == topic
  }

  predicate InOrder(sub: Sub) {
    |sub.buffer| <= BUFFER && Subsequence(sub.Delivered(), sub.offered)
  }

  ghost predicate Sound(s: State) {
    && Valid(s)
    && (forall i :: 0 <= i < |s.subs| ==> InOrder(s.subs[i]))
    && Total(s.subs) == s.counted
  }

  lemma {:induction false} TotalUpdate(subs: seq<Sub>, id: nat, sub: Sub)
    requires id < |subs|
    ensures Total(subs[id := sub]) == Total(subs) - |subs[id].Delivered()| + |sub.Delivered()|
    ensures |subs[id].Delivered()| <= Total(subs)
    decreases |subs|
  {
    var n := |subs| - 1;
    if id < n {
      assert subs[id := sub][..n] == subs[..n][id := sub];
      TotalUpdate(subs[..n], id, sub);
    } else {
      assert subs[id := sub][..n] == subs[..n];
    }
  }

  lemma OfferInOrder(sub: Sub, m: Value)
    requires InOrder(sub)
    ensures InOrder(Offer(sub, m))
    ensures |Offer(sub, m).Delivered()| == |sub.Delivered()| + Accepts(sub)
    ensures Offer(sub, m).closed == sub.closed && Offer(sub, m).topic == sub.topic
  {
    var d, o := sub.Delivered(), sub.offered;
    assert (o + [m])[..|o|] == o && (d + [m])[..|d|] == d;
    assert sub.received + (sub.buffer + [m]) == d + [m];
  }

  lemma {:induction false} OfferAllSound(subs: seq<Sub>, ids: seq<nat>, m: Value)
    requires forall i :: 0 <= i < |ids| ==> ids[i] < |subs|
    requires forall i :: 0 <= i < |subs| ==> InOrder(subs[i])
    ensures var (after, n) := OfferAll(subs, ids, m);
            && Total(after) == Total(subs) + n
            && forall i :: 0 <= i < |subs| ==> InOrder(after[i]) && after[i].closed == subs[i].closed && after[i].topic == subs[i].topic
    decreases |ids|
  {
    hide InOrder, Offer, Accepts;
    if ids != [] {
      OfferAllSound(subs, ids[..|ids| - 1], m);
      var (before, n) := OfferAll(subs, ids[..|ids| - 1], m);
      var id := ids[|ids| - 1];
      OfferInOrder(before[id], m);
      TotalUpdate(before, id, Offer(before[id], m));
    }
  }

  lemma SubscribedSound(s: State, topic: Bytes)
    requires Sound(s)
    ensures Sound(Subscribed(s, topic))
  {
    hide Valid, Listeners;
    var t := Subscribed(s, topic);
    SubscribedValid(s, topic);
    assert t.subs[..|s.subs|] == s.subs;
  }

  lemma SubscribedValid(s: State, topic: Bytes)
    requires Valid(s)
    ensures Valid(Subscribed(s, topic))
  {
    var t := Subscribed(s, topic);
    var ids := Listeners(s.channels, topic);
    assert t.channels[topic] == ids + [|s.subs|];
    assert ids != [] ==> topic in s.channels;
  }

  lemma UnsubscribedValid(s: State, topic: Bytes, id: nat)
    requires Valid(s)
    ensures Valid(Unsubscribed(s, topic, id))
  {
    hide IndexOf;
    var ids := Listeners(s.channels, topic);
    var i := IndexOf(ids, id);
    if i < |ids| {
      assert ids == s.channels[topic] && Listening(s.subs, ids[i], topic);
      DropAt(ids, i);
    }
  }

  lemma DropAt(ids: seq<nat>, i: nat)
    requires i < |ids| && forall j, k :: 0 <= j < k < |ids| ==> ids[j] != ids[k]
    ensures var rest := ids[..i] + ids[i + 1..];
            && (forall x :: x in rest <==> x in ids && x != ids[i])
            && (forall j :: 0 <= j < |rest| ==> rest[j] in ids && rest[j] != ids[i])
            && (forall j, k :: 0 <= j < k < |rest| ==> rest[j] != rest[k])
  {
    var rest := ids[..i] + ids[i + 1..];
    assert forall j :: 0 <= j < |rest| ==> rest[j] == ids[if j < i then j else j + 1];
    forall x | x in ids && x != ids[i] ensures x in rest {
      var j :| 0 <= j < |ids| && ids[j] == x;
      assert rest[if j < i then j else j - 1] == x;
    }
  }

  lemma UnsubscribedSound(s: State, topic: Bytes, id: nat)
    requires Sound(s)
    ensures Sound(Unsubscribed(s, topic, id))
  {
    hide Without, IndexOf, Listeners, Total, Subsequence;
    UnsubscribedValid(s, topic, id);
    if id < |s.subs| {
      TotalUpdate(s.subs, id, s.subs[id].(closed := true));
    }
  }

  lemma PublishedSound(s: State, topic: Bytes, text: Bytes)
    requires Sound(s)
    ensures Sound(Published(s, topic, text))
  {
    OfferAllSound(s.subs, Listeners(s.channels, topic), Message(topic, text));
  }

  lemma ReceivedSound(s: State, id: nat)
    requires Sound(s)
    ensures Sound(Received(s, id))
  {
    if id < |s.subs| && s.subs[id].buffer != [] {
      var sub := s.subs[id];
      var after := Received(s, id).subs[id];
      assert after.Delivered() == sub.Delivered();
      TotalUpdate(s.subs, id, after);
    }
  }

  // ---------- Runs ----------

  datatype Event =
    | Subscribe(topic: Bytes)
    | Unsubscribe(topic: Bytes, id: nat)
    | Publish(topic: Bytes, text: Bytes)
    | Receive(id: nat)

  function Run(es: seq<Event>): (s: State)
    ensures Sound(s)
    decreases |es|
  {
    if es == [] then State(map[], [], 0)
    else
      var s := Run(es[..|es| - 1]);
      match es[|es| - 1]
      case Subscribe(topic) => SubscribedSound(s, topic); Subscribed(s, topic)
      case Unsubscribe(topic, id) => UnsubscribedSound(s, topic, id); Unsubscribed(s, topic, id)
      case Publish(topic, text) => PublishedSound(s, topic, text); Published(s, topic, text)
      case Receive(id) => ReceivedSound(s, id); Received(s, id)
  }

  /** Over every run: no buffer outgrows its bound, what a subscriber got and still has coming is
      a subsequence, in order, of what was published to it, and the counts PUBLISH returned add
      up to exactly what subscribers, past and present, have received or have buffered. */
  lemma RunConserves(es: seq<Event>)
    ensures var s := Run(es);
            && (forall i :: 0 <= i < |s.subs| ==> |s.subs[i].buffer| <= BUFFER
                                                  && Subsequence(s.subs[i].Delivered(), s.subs[i].offered))
            && Total(s.subs) == s.counted
            && forall c :: c in s.channels ==> s.channels[c] != []
  {
    assert Sound(Run(es));
  }

  // The listeners that have room for one more message.
  ghost function Roomy(subs: seq<Sub>, ids: seq<nat>): set<nat>
    requires forall i :: 0 <= i < |ids| ==> ids[i] < |subs|
  {
    set i | i in ids && |subs[i].buffer| < BUFFER
  }

  lemma RoomyNext(subs: seq<Sub>, ids: seq<nat>, id: nat)
    requires forall i :: 0 <= i < |ids| ==> ids[i] < |subs|
    requires id < |subs| && id !in ids
    ensures |Roomy(subs, ids + [id])| == |Roomy(subs, ids)| + Accepts(subs[id])
  {
    assert Roomy(subs, ids + [id]) == if |subs[id].buffer| < BUFFER then Roomy(subs, ids) + {id} else Roomy(subs, ids);
  }

  /** A publication reaches each listener once and nobody else, and counts those with room. */
  lemma {:induction false} OfferAllExactly(subs: seq<Sub>, ids: seq<nat>, m: Value)
    requires forall i :: 0 <= i < |ids| ==> ids[i] < |subs|
    requires forall i, j :: 0 <= i < j < |ids| ==> ids[i] != ids[j]
    ensures var (after, n) := OfferAll(subs, ids, m);
            && (forall i :: 0 <= i < |subs| ==> after[i] == if i in ids then Offer(subs[i], m) else subs[i])
            && n == |Roomy(subs, ids)|
    decreases |ids|
  {
    hide Offer, Accepts;
    if ids != [] {
      var front, id := ids[..|ids| - 1], ids[|ids| - 1];
      OfferAllExactly(subs, front, m);
      assert ids == front + [id] && id !in front;
      RoomyNext(subs, front, id);
    }
  }

  /** What was published to the subscription's topic from its beginning to its end. */
  function Addressed(es: seq<Event>, id: nat): seq<Value>
    decreases |es|
  {
    if es == [] then []
    else
      var s, e := Run(es[..|es| - 1]), es[|es| - 1];
      Addressed(es[..|es| - 1], id) +
      if e.Publish? && id < |s.subs| && !s.subs[id].closed && s.subs[id].topic == e.topic
      then [Message(e.topic, e.text)] else []
  }

  /** Over every run, a subscription is offered exactly that: every message to its topic while it
      is open, in order, and no other. */
  lemma {:induction false} OfferedExactly(es: seq<Event>, id: nat)
    ensures if id < |Run(es).subs| then Run(es).subs[id].offered == Addressed(es, id) else Addressed(es, id) == []
    decreases |es|
  {
    hide Sound, Run;
    if es == [] {
      NoneYet();
    } else {
      OfferedExactly(es[..|es| - 1], id);
      OfferedStep(es, id);
    }
  }

  lemma NoneYet()
    ensures Run([]).subs == []
  {
  }

  lemma OfferedStep(es: seq<Event>, id: nat)
    requires es != []
    ensures var s, t, e := Run(es[..|es| - 1]), Run(es), es[|es| - 1];
            && |s.subs| <= |t.subs|
            && (|s.subs| <= id < |t.subs| ==> t.subs[id].offered == [])
            && (id < |s.subs| ==>
                  t.subs[id].offered == s.subs[id].offered +
                    if e.Publish? && !s.subs[id].closed && s.subs[id].topic == e.topic then [Message(e.topic, e.text)] else [])
  {
    hide Sound, InOrder, Total, Subsequence, IndexOf, Without, OfferAll, Message;
    var s, e := Run(es[..|es| - 1]), es[|es| - 1];
    SoundIsValid(s);
    if e.Publish? {
      OfferAllExactly(s.subs, Listeners(s.channels, e.topic), Message(e.topic, e.text));
    }
  }

  /** Once closed, a channel is never sent to again, nor closed again: whatever follows, its
      subscriber is offered nothing more and gets only what is buffered. */
  lemma {:induction false} ClosedForGood(es: seq<Event>, cut: nat, id: nat)
    requires cut <= |es| && id < |Run(es[..cut]).subs| && Run(es[..cut]).subs[id].closed
    ensures id < |Run(es).subs|
    ensures var earlier, now := Run(es[..cut]).subs[id], Run(es).subs[id];
            now.closed && now.offered == earlier.offered && now.Delivered() == earlier.Delivered()
    decreases |es|
  {
    hide Run;
    if cut < |es| {
      var front := es[..|es| - 1];
      assert front[..cut] == es[..cut];
      ClosedForGood(front, cut, id);
      ClosedStep(es, id);
    } else {
      assert es[..cut] == es;
    }
  }

  lemma ClosedStep(es: seq<Event>, id: nat)
    requires es != [] && id < |Run(es[..|es| - 1]).subs| && Run(es[..|es| - 1]).subs[id].closed
    ensures id < |Run(es).subs|
    ensures var before, after := Run(es[..|es| - 1]).subs[id], Run(es).subs[id];
            after.closed && after.offered == before.offered && after.Delivered() == before.Delivered()
    ensures var s := Run(es[..|es| - 1]);
            es[|es| - 1].Unsubscribe? && es[|es| - 1].id == id ==> Run(es) == s
  {
    hide Sound, InOrder, Total, Subsequence;
    var s, e := Run(es[..|es| - 1]), es[|es| - 1];
    assert Valid(s) by { SoundIsValid(s); }
    match e
    case Publish(topic, text) =>
      OfferAllExactly(s.subs, Listeners(s.channels, topic), Message(topic, text));
    case Receive(other) =>
      if other == id && s.subs[id].buffer != [] {
        assert Received(s, id).subs[id].Delivered() == s.subs[id].Delivered();
      }
    case _ =>
  }

  lemma SoundIsValid(s: State)
    requires Sound(s)
    ensures Valid(s)
  {
  }

  // ---------- What a subscriber sees ----------

  /** A publication puts one array of three texts, "message", the topic and the text, into the channel
      of every open subscription to the topic that holds fewer than a hundred, and nothing anywhere
      else. */
  lemma PublicationReaches(s: State, topic: Bytes, text: Bytes, id: nat)
    requires Sound(s) && id < |s.subs|
    ensures id < |Published(s, topic, text).subs|
    ensures var sub, after := s.subs[id], Published(s, topic, text).subs[id];
            var m := Value(Array, "", 0, [Value(BulkString, "message", 0, [], false),
                                          Value(BulkString, topic, 0, [], false),
                                          Value(BulkString, text, 0, [], false)], false);
            && after.received == sub.received && after.closed == sub.closed && after.topic == sub.topic
            && after.buffer == (if !sub.closed && sub.topic == topic && |sub.buffer| < 100 then sub.buffer + [m] else sub.buffer)
  {
    hide Sound;
    SoundIsValid(s);
    OfferAllExactly(s.subs, Listeners(s.channels, topic), Message(topic, text));
  }

  /** A new subscription is open, empty and listed last under its topic; the others stay as they are. */
  lemma SubscriptionBegins(s: State, topic: Bytes)
    ensures var after, id := Subscribed(s, topic), |s.subs|;
            && after.subs[..id] == s.subs && |after.subs| == id + 1
            && after.subs[id].topic == topic && !after.subs[id].closed
            && after.subs[id].buffer == after.subs[id].received == after.subs[id].offered == []
            && Listeners(after.channels, topic) == Listeners(s.channels, topic) + [id]
            && forall other :: other != topic ==> Listeners(after.channels, other) == Listeners(s.channels, other)
  {
  }

  /** Ending a subscription closes its channel, keeping what is in it, and takes it off the list of its
      topic; the others stay as they are. */
  lemma SubscriptionEnds(s: State, topic: Bytes, id: nat)
    requires Valid(s) && id in Listeners(s.channels, topic)
    ensures var after := Unsubscribed(s, topic, id);
            && id < |s.subs| == |after.subs|
            && after.subs == s.subs[id := s.subs[id].(closed := true)]
            && (forall x :: x in Listeners(after.channels, topic) <==> x in Listeners(s.channels, topic) && x != id)
            && (Listeners(after.channels, topic) == [] ==> topic !in after.channels)
            && forall other :: other != topic ==> Listeners(after.channels, other) == Listeners(s.channels, other)
  {
    hide IndexOf;
    var ids := Listeners(s.channels, topic);
    var i := IndexOf(ids, id);
    var j :| 0 <= j < |ids| && ids[j] == id;
    assert i < |ids| && Listening(s.subs, ids[i], topic);
    DropAt(ids, i);
  }

  /** A subscriber takes the messages in the order they came. */
  lemma ReceiptTakes(s: State, id: nat)
    requires id < |s.subs| && s.subs[id].buffer != []
    ensures id < |Received(s, id).subs|
    ensures var sub, after := s.subs[id], Received(s, id).subs[id];
            after.received == sub.received + [sub.buffer[0]] && sub.buffer == [sub.buffer[0]] + after.buffer
  {
  }

  // ---------- The program's own object ----------

  datatype Chan = Chan(buffer: seq<Value>, closed: bool)

  predicate Mirrors(chans: seq<Chan>, subs: seq<Sub>) {
    |chans| == |subs| && forall i :: 0 <= i < |chans| ==> chans[i] == Chan(subs[i].buffer, subs[i].closed)
  }

  class Pubsub {
    var channels: map<Bytes, seq<nat>>
    var chans: seq<Chan>  // every channel made, by number
    ghost var state: State

    ghost predicate Intact()
      reads this
    {
      channels == state.channels && Sound(state) && Mirrors(chans, state.subs)
    }

    constructor ()
      ensures Intact() && state == State(map[], [], 0)
    {
      channels, chans := map[], [];
      state := State(map[], [], 0);
    }

    method Subscribe(channel: Bytes) returns (ch: nat)
      requires Intact()
      modifies this
      ensures Intact() && state == Subscribed(old(state), channel)
      ensures ch == |old(state).subs|
    {
      hide Sound;
      ch := |chans|;
      chans := chans + [Chan([], false)];
      channels := channels[channel := Listeners(channels, channel) + [ch]];
      SubscribedSound(state, channel);
      state := Subscribed(state, channel);
    }

    /** Closing a closed channel would panic; it cannot happen. */
    method Unsubscribe(channel: Bytes, ch: nat)
      requires Intact()
      modifies this
      ensures Intact() && state == Unsubscribed(old(state), channel, ch)
    {
      hide Sound, IndexOf, Without;
      var ids, i := Listeners(channels, channel), 0;
      SoundIsValid(state);
      UnsubscribedSound(state, channel, ch);
      while i < |ids| && ids[i] != ch
        invariant 0 <= i <= |ids| && forall j :: 0 <= j < i ==> ids[j] != ch
      {
        i := i + 1;
      }
      IndexOfIs(ids, ch, i);
      if i < |ids| {
        assert ids[i] < |chans| && !chans[ids[i]].closed;
        channels := Without(channels, channel, i);
        chans := chans[ch := chans[ch].(closed := true)];
      }
      state := Unsubscribed(state, channel, ch);
    }

    /** Sending on a closed channel would panic; it cannot happen. */
    method Publish(channel: Bytes, message: Bytes) returns (count: nat)
      requires Intact()
      modifies this
      ensures Intact() && state == Published(old(state), channel, message)
      ensures state.counted == old(state).counted + count
    {
      hide Sound, Valid, OfferAll;
      SoundIsValid(state);
      PublishedSound(state, channel, message);
      count := 0;
      var ids, msg := Listeners(channels, channel), Message(channel, message);
      ListenersOpen(state, channel);
      OfferNone(state.subs, msg);
      for k := 0 to |ids|
        invariant channels == state.channels && state == old(state)
        invariant Mirrors(chans, OfferAll(state.subs, ids[..k], msg).0)
        invariant forall i :: 0 <= i < |chans| ==> chans[i].closed == state.subs[i].closed
        invariant count == OfferAll(state.subs, ids[..k], msg).1
      {
        OfferNext(state.subs, ids, k, msg);
        var ch := ids[k];
        assert !chans[ch].closed;
        if |chans[ch].buffer| < BUFFER {
          chans := chans[ch := chans[ch].(buffer := chans[ch].buffer + [msg])];
          count := count + 1;
        }
      }
      assert ids[..|ids|] == ids;
      state := Published(state, channel, message);
    }

    method Receive(ch: nat) returns (msg: Option<Value>)
      requires Intact()
      modifies this
      ensures Intact() && state == Received(old(state), ch)
      ensures ch < |old(state).subs| && old(state).subs[ch].buffer != []
              ==> msg == Some(old(state).subs[ch].buffer[0])
    {
      hide Sound;
      ReceivedSound(state, ch);
      state := Received(state, ch);
      if ch >= |chans| || chans[ch].buffer == [] {
        return None;
      }
      msg := Some(chans[ch].buffer[0]);
      chans := chans[ch := chans[ch].(buffer := chans[ch].buffer[1..])];
    }
  }

  lemma IndexOfIs(ids: seq<nat>, id: nat, i: nat)
    requires i <= |ids| && (forall j :: 0 <= j < i ==> ids[j] != id) && (i < |ids| ==> ids[i] == id)
    ensures IndexOf(ids, id) == i
  {
  }

  lemma ListenersOpen(s: State, topic: Bytes)
    requires Valid(s)
    ensures var ids := Listeners(s.channels, topic);
            forall i :: 0 <= i < |ids| ==> ids[i] < |s.subs| && !s.subs[ids[i]].closed
  {
  }

  lemma OfferNone(subs: seq<Sub>, m: Value)
    ensures OfferAll(subs, [], m) == (subs, 0)
  {
  }

  lemma OfferNext(subs: seq<Sub>, ids: seq<nat>, k: nat, m: Value)
    requires k < |ids| && forall i :: 0 <= i < |ids| ==> ids[i] < |subs|
    ensures var (before, n) := OfferAll(subs, ids[..k], m);
            OfferAll(subs, ids[..k + 1], m) == (before[ids[k] := Offer(before[ids[k]], m)], n + Accepts(before[ids[k]]))
  {
    assert ids[..k + 1][..k] == ids[..k];
  }
}
