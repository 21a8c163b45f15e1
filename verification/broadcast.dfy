/** Publications that overlap. PUBLISH holds only a read lock, so the sends of several publications
    and the receives of subscribers come in any order; subscribing and ending a subscription wait
    for all of them. Here each send is one step. */
module Broadcasts {
  import opened ByteStrings
  import opened Resp
  import opened PubSub

  // A publication: the listeners it found, and those it has still to send to.
  datatype Flight = Flight(msg: Value, listeners: seq<nat>, todo: seq<nat>)

  // The subscriptions, and every publication in the order they began.
  datatype Air = Air(state: State, flights: seq<Flight>)

  datatype Label =
    | Begin(topic: Bytes, text: Bytes)
    | Send(i: nat)  // the next send of publication i
    | Quiet(e: PubSub.Event)

  predicate Landed(flights: seq<Flight>) {
    forall i :: 0 <= i < |flights| ==> flights[i].todo == []
  }

  function Sent(s: State, id: nat, m: Value): State
    requires id < |s.subs|
  {
    s.(subs := s.subs[id := Offer(s.subs[id], m)], counted := s.counted + Accepts(s.subs[id]))
  }

  /** One step; None if it has to wait. */
  function Next(a: Air, l: Label): Option<Air> {
    match l
    case Begin(topic, text) =>
      var ids := Listeners(a.state.channels, topic);
      Some(a.(flights := a.flights + [Flight(Message(topic, text), ids, ids)]))
    case Send(i) =>
      if i >= |a.flights| || a.flights[i].todo == [] || a.flights[i].todo[0] >= |a.state.subs| then None
      else
        var f := a.flights[i];
        Some(Air(Sent(a.state, f.todo[0], f.msg), a.flights[i := f.(todo := f.todo[1..])]))
    case Quiet(Receive(id)) => Some(a.(state := Received(a.state, id)))
    case Quiet(Subscribe(topic)) => if Landed(a.flights) then Some(a.(state := Subscribed(a.state, topic))) else None
    case Quiet(Unsubscribe(topic, id)) =>
      if Landed(a.flights) then Some(a.(state := Unsubscribed(a.state, topic, id))) else None
    case Quiet(Publish(_, _)) => None
  }

  function RunAll(ls: seq<Label>): Option<Air>
    decreases |ls|
  {
    if ls == [] then Some(Air(State(map[], [], 0), []))
    else
      match RunAll(ls[..|ls| - 1])
      case None => None
      case Some(a) => Next(a, ls[|ls| - 1])
  }

  // ---------- What every step keeps ----------

  predicate Distinct(ids: seq<nat>) {
    forall i, j :: 0 <= i < j < |ids| ==> ids[i] != ids[j]
  }

  /** The listeners of a publication exist, and it has sent to each at most once so far; those it
      has still to send to are open. */
  predicate Aloft(f: Flight, s: State) {
    && Distinct(f.todo)
    && (forall i :: 0 <= i < |f.listeners| ==> f.listeners[i] < |s.subs|)
    && (forall i :: 0 <= i < |f.todo| ==> f.todo[i] in f.listeners && f.todo[i] < |s.subs| && !s.subs[f.todo[i]].closed)
  }

  /** The messages of the publications that have reached the subscription, in the order the
      publications began. */
  function Heard(flights: seq<Flight>, id: nat): seq<Value>
    decreases |flights|
  {
    if flights == [] then []
    else
      var f := flights[|flights| - 1];
      Heard(flights[..|flights| - 1], id) + if id in f.listeners && id !in f.todo then [f.msg] else []
  }

  ghost predicate Fair(a: Air) {
    && Sound(a.state)
    && (forall i :: 0 <= i < |a.flights| ==> Aloft(a.flights[i], a.state))
    && (forall id :: 0 <= id < |a.state.subs| ==> multiset(a.state.subs[id].offered) == multiset(Heard(a.flights, id)))
  }

  lemma SentSound(s: State, id: nat, m: Value)
    requires Sound(s) && id < |s.subs|
    ensures Sound(Sent(s, id, m))
  {
    hide Subsequence, Total, Offer;
    OfferInOrder(s.subs[id], m);
    TotalUpdate(s.subs, id, Offer(s.subs[id], m));
    assert Valid(Sent(s, id, m));
  }

  lemma {:induction false} HeardNothing(flights: seq<Flight>, id: nat)
    requires forall i :: 0 <= i < |flights| ==> id !in flights[i].listeners
    ensures Heard(flights, id) == []
    decreases |flights|
  {
    if flights != [] {
      HeardNothing(flights[..|flights| - 1], id);
    }
  }

  lemma HeardBegun(flights: seq<Flight>, f: Flight, id: nat)
    requires f.todo == f.listeners
    ensures Heard(flights + [f], id) == Heard(flights, id)
  {
    assert (flights + [f])[..|flights|] == flights;
  }

  function Onward(f: Flight): Flight
    requires f.todo != []
  {
    f.(todo := f.todo[1..])
  }

  function Echo(f: Flight, id: nat): seq<Value> {
    if id in f.listeners && id !in f.todo then [f.msg] else []
  }

  lemma HeardLast(flights: seq<Flight>, i: nat, f: Flight, id: nat)
    requires i < |flights|
    ensures var n := |flights| - 1;
            Heard(flights[i := f], id) ==
              if i == n then Heard(flights[..n], id) + Echo(f, id)
              else Heard(flights[..n][i := f], id) + Echo(flights[n], id)
  {
    var n := |flights| - 1;
    if i == n {
      assert flights[i := f][..n] == flights[..n];
    } else {
      assert flights[i := f][..n] == flights[..n][i := f];
    }
  }

  lemma EchoSent(f: Flight, id: nat)
    requires f.todo != [] && Distinct(f.todo) && f.todo[0] in f.listeners
    ensures id == f.todo[0] ==> Echo(f, id) == [] && Echo(Onward(f), id) == [f.msg]
    ensures id != f.todo[0] ==> Echo(Onward(f), id) == Echo(f, id)
  {
    assert f.todo == [f.todo[0]] + f.todo[1..];
  }

  /** A send is heard by the one it is for. */
  lemma {:induction false} HeardSent(flights: seq<Flight>, i: nat, id: nat)
    requires i < |flights| && flights[i].todo != [] && Distinct(flights[i].todo) && flights[i].todo[0] in flights[i].listeners
    ensures var f := flights[i]; var after := Heard(flights[i := Onward(f)], id);
            && (id != f.todo[0] ==> after == Heard(flights, id))
            && (id == f.todo[0] ==> multiset(after) == multiset(Heard(flights, id)) + multiset{f.msg})
    decreases |flights|
  {
    hide Echo, Onward, Heard;
    var f, n := flights[i], |flights| - 1;
    HeardLast(flights, i, Onward(f), id);
    HeardLast(flights, n, flights[n], id);
    assert flights[n := flights[n]] == flights;
    EchoSent(f, id);
    var front := Heard(flights[..n], id);
    if i == n {
      assert front + [] == front;
      Appended(front, [f.msg]);
    } else {
      HeardSent(flights[..n], i, id);
      Appended(front, Echo(flights[n], id));
      Appended(Heard(flights[..n][i := Onward(f)], id), Echo(flights[n], id));
    }
  }

  lemma Appended(a: seq<Value>, b: seq<Value>)
    ensures multiset(a + b) == multiset(a) + multiset(b)
  {
  }

  /** And it is heard last, if later publications have yet to reach them. */
  lemma {:induction false} HeardInTurn(flights: seq<Flight>, i: nat, id: nat)
    requires i < |flights| && flights[i].todo != [] && Distinct(flights[i].todo) && flights[i].todo[0] in flights[i].listeners
    requires id == flights[i].todo[0]
    requires forall j :: i < j < |flights| && id in flights[j].listeners ==> id in flights[j].todo
    ensures Heard(flights[i := Onward(flights[i])], id) == Heard(flights, id) + [flights[i].msg]
    decreases |flights|
  {
    hide Onward, Heard;
    var f, n := flights[i], |flights| - 1;
    HeardLast(flights, i, Onward(f), id);
    HeardLast(flights, n, flights[n], id);
    assert flights[n := flights[n]] == flights;
    EchoSent(f, id);
    if i == n {
      assert Heard(flights[..n], id) + [] == Heard(flights[..n], id);
    } else {
      HeardInTurn(flights[..n], i, id);
      assert Echo(flights[n], id) == [];
    }
  }

  lemma SendFair(a: Air, i: nat)
    requires Fair(a) && Next(a, Send(i)).Some?
    ensures Fair(Next(a, Send(i)).value)
  {
    hide Sound, Heard, Offer, Accepts;
    var after, f := Next(a, Send(i)).value, a.flights[i];
    var id := f.todo[0];
    assert Aloft(f, a.state);
    SentSound(a.state, id, f.msg);
    OfferKeeps(a.state.subs[id], f.msg);
    forall j | 0 <= j < |after.flights| ensures Aloft(after.flights[j], after.state) {
      assert Aloft(a.flights[j], a.state);
    }
    forall k | 0 <= k < |after.state.subs|
      ensures multiset(after.state.subs[k].offered) == multiset(Heard(after.flights, k))
    {
      HeardSent(a.flights, i, k);
    }
  }

  lemma OfferKeeps(sub: Sub, m: Value)
    ensures Offer(sub, m).offered == sub.offered + [m] && Offer(sub, m).closed == sub.closed
  {
  }

  lemma BeginFair(a: Air, topic: Bytes, text: Bytes)
    requires Fair(a)
    ensures Fair(Next(a, Begin(topic, text)).value)
  {
    hide Sound, Heard, Message;
    SoundIsValid(a.state);
    ListenersOpen(a.state, topic);
    var after, ids := Next(a, Begin(topic, text)).value, Listeners(a.state.channels, topic);
    assert topic in a.state.channels ==> Distinct(a.state.channels[topic]);
    forall id ensures Heard(after.flights, id) == Heard(a.flights, id) {
      HeardBegun(a.flights, Flight(Message(topic, text), ids, ids), id);
    }
  }

  lemma QuietFair(a: Air, e: PubSub.Event)
    requires Fair(a) && Next(a, Quiet(e)).Some?
    ensures Fair(Next(a, Quiet(e)).value)
  {
    hide Sound, Heard, Total, Subsequence, Without, IndexOf;
    match e
    case Receive(id) => ReceivedSound(a.state, id);
    case Subscribe(topic) =>
      SubscribedSound(a.state, topic);
      HeardNothing(a.flights, |a.state.subs|);
    case Unsubscribe(topic, id) => UnsubscribedSound(a.state, topic, id);
    case Publish(_, _) =>
  }

  /** Over every interleaving of the sends of any publications with receives: no buffer outgrows its
      bound, what a subscriber got and has coming is a subsequence of what it was offered, the
      counts add up, a closed channel is never sent to, and each publication that has passed a
      listener was offered to it exactly once. */
  lemma {:induction false} AlwaysFair(ls: seq<Label>)
    requires RunAll(ls).Some?
    ensures Fair(RunAll(ls).value)
    decreases |ls|
  {
    hide Next, Fair;
    if ls == [] {
      StartFair();
    } else {
      var front, l := ls[..|ls| - 1], ls[|ls| - 1];
      AlwaysFair(front);
      var a := RunAll(front).value;
      match l
      case Begin(topic, text) => BeginFair(a, topic, text);
      case Send(i) => SendFair(a, i);
      case Quiet(e) => QuietFair(a, e);
    }
  }

  lemma StartFair()
    ensures Fair(Air(State(map[], [], 0), []))
  {
  }

  // ---------- One publication alone ----------

  /** The subscriptions once a message has been sent to the first k of the listeners. */
  function SentSome(s: State, ids: seq<nat>, m: Value, k: nat): State
    requires k <= |ids| && forall i :: 0 <= i < |ids| ==> ids[i] < |s.subs|
  {
    var (subs, n) := OfferAll(s.subs, ids[..k], m);
    s.(subs := subs, counted := s.counted + n)
  }

  lemma SendAlone(s: State, ids: seq<nat>, m: Value, k: nat, a: Air, i: nat)
    requires k < |ids| && forall j :: 0 <= j < |ids| ==> ids[j] < |s.subs|
    requires i < |a.flights| && a.flights[i] == Flight(m, ids, ids[k..]) && a.state == SentSome(s, ids, m, k)
    ensures var next := Next(a, Send(i));
            && next.Some? && next.value.state == SentSome(s, ids, m, k + 1)
            && next.value.flights[i] == Flight(m, ids, ids[k + 1..])
  {
    hide Offer, Accepts;
    OfferNext(s.subs, ids, k, m);
    assert ids[k..][1..] == ids[k + 1..];
  }

  /** A publication whose sends no one interrupts is the one of `Published`. */
  lemma PublishAlone(s: State, topic: Bytes, text: Bytes)
    requires Valid(s)
    ensures var ids := Listeners(s.channels, topic);
            && (forall i :: 0 <= i < |ids| ==> ids[i] < |s.subs|)
            && SentSome(s, ids, Message(topic, text), 0) == s
            && SentSome(s, ids, Message(topic, text), |ids|) == Published(s, topic, text)
  {
    ListenersOpen(s, topic);
    var ids := Listeners(s.channels, topic);
    OfferNone(s.subs, Message(topic, text));
    assert ids[..0] == [] && ids[..|ids|] == ids;
  }

  // ---------- When subscribers agree ----------

  /** The subscriber next in line waits for no publication that began earlier. */
  predicate InTurn(a: Air, i: nat) {
    i < |a.flights| && a.flights[i].todo != [] ==>
      forall j :: 0 <= j < i ==> a.flights[i].todo[0] !in a.flights[j].todo
  }

  /** Each subscriber is sent publications in the order they began. */
  ghost predicate SentInTurn(ls: seq<Label>) {
    forall n {:trigger ls[n]} :: 0 <= n < |ls| && ls[n].Send? && RunAll(ls[..n]).Some?
      ==> InTurn(RunAll(ls[..n]).value, ls[n].i)
  }

  ghost predicate InStep(a: Air) {
    && (forall id :: 0 <= id < |a.state.subs| ==> a.state.subs[id].offered == Heard(a.flights, id))
    && (forall j, k, id {:trigger id in a.flights[j].todo, id in a.flights[k].listeners} ::
          0 <= j < k < |a.flights| && id in a.flights[j].todo && id in a.flights[k].listeners ==> id in a.flights[k].todo)
  }

  lemma SendInStep(a: Air, i: nat)
    requires Fair(a) && InStep(a) && InTurn(a, i) && Next(a, Send(i)).Some?
    ensures InStep(Next(a, Send(i)).value)
  {
    hide Sound, Heard, Offer, Accepts;
    var after, f := Next(a, Send(i)).value, a.flights[i];
    assert Aloft(f, a.state);
    var sent := f.todo[0];
    assert f.todo == [sent] + f.todo[1..];
    OfferKeeps(a.state.subs[sent], f.msg);
    assert sent in a.flights[i].todo;
    HeardInTurn(a.flights, i, sent);
    forall k | 0 <= k < |after.state.subs| ensures after.state.subs[k].offered == Heard(after.flights, k) {
      HeardSent(a.flights, i, k);
    }
    forall j, k, id {:trigger id in after.flights[j].todo, id in after.flights[k].listeners}
      | 0 <= j < k < |after.flights| && id in after.flights[j].todo && id in after.flights[k].listeners
      ensures id in after.flights[k].todo
    {
      assert id in a.flights[j].todo && id in a.flights[k].listeners;
    }
  }

  lemma BeginInStep(a: Air, topic: Bytes, text: Bytes)
    requires InStep(a)
    ensures InStep(Next(a, Begin(topic, text)).value)
  {
    hide Heard, Message;
    var after, ids := Next(a, Begin(topic, text)).value, Listeners(a.state.channels, topic);
    forall id ensures Heard(after.flights, id) == Heard(a.flights, id) {
      HeardBegun(a.flights, Flight(Message(topic, text), ids, ids), id);
    }
  }

  lemma QuietInStep(a: Air, e: PubSub.Event)
    requires Fair(a) && InStep(a) && Next(a, Quiet(e)).Some?
    ensures InStep(Next(a, Quiet(e)).value)
  {
    hide Sound, Heard, Without, IndexOf;
    if e.Subscribe? {
      HeardNothing(a.flights, |a.state.subs|);
    }
  }

  /** Then what each subscriber was offered is exactly the publications that have reached it, in the
      order they began. */
  lemma {:induction false} AlwaysInStep(ls: seq<Label>)
    requires SentInTurn(ls) && RunAll(ls).Some?
    ensures InStep(RunAll(ls).value)
    decreases |ls|
  {
    hide Next, Fair, InStep, InTurn;
    if ls == [] {
      StartInStep();
    } else {
      var front, l := ls[..|ls| - 1], ls[|ls| - 1];
      forall n | 0 <= n < |front| ensures front[..n] == ls[..n] && front[n] == ls[n] {
      }
      AlwaysInStep(front);
      AlwaysFair(front);
      var a := RunAll(front).value;
      match l
      case Begin(topic, text) => BeginInStep(a, topic, text);
      case Send(i) => SendInStep(a, i);
      case Quiet(e) => QuietInStep(a, e);
    }
  }

  lemma StartInStep()
    ensures InStep(Air(State(map[], [], 0), []))
  {
  }

  /** So two subscribers that listened to the same publications were offered the same messages in the
      same order, once all sends are over. */
  lemma SubscribersAgree(ls: seq<Label>, id: nat, other: nat)
    requires SentInTurn(ls) && RunAll(ls).Some? && Landed(RunAll(ls).value.flights)
    requires var a := RunAll(ls).value;
             && id < |a.state.subs| && other < |a.state.subs|
             && forall i :: 0 <= i < |a.flights| ==> (id in a.flights[i].listeners <==> other in a.flights[i].listeners)
    ensures RunAll(ls).value.state.subs[id].offered == RunAll(ls).value.state.subs[other].offered
  {
    hide RunAll, SentInTurn, Heard;
    AlwaysInStep(ls);
    HeardAlike(RunAll(ls).value.flights, id, other);
  }

  lemma {:induction false} HeardAlike(flights: seq<Flight>, id: nat, other: nat)
    requires Landed(flights)
    requires forall i :: 0 <= i < |flights| ==> (id in flights[i].listeners <==> other in flights[i].listeners)
    ensures Heard(flights, id) == Heard(flights, other)
    decreases |flights|
  {
    if flights != [] {
      HeardAlike(flights[..|flights| - 1], id, other);
    }
  }

  /** Without that order two subscribers of one topic can see two publications in different orders. */
  lemma OrdersDiffer(topic: Bytes, first: Bytes, second: Bytes)
    ensures var ls := [Quiet(Subscribe(topic)), Quiet(Subscribe(topic)), Begin(topic, first), Begin(topic, second),
                       Send(0), Send(1), Send(1), Send(0)];
            && RunAll(ls).Some? && |RunAll(ls).value.state.subs| == 2 && Landed(RunAll(ls).value.flights)
            && RunAll(ls).value.state.subs[0].offered == [Message(topic, first), Message(topic, second)]
            && RunAll(ls).value.state.subs[1].offered == [Message(topic, second), Message(topic, first)]
  {
    hide Message, Next, Has, RunAll;
    var ls := [Quiet(Subscribe(topic)), Quiet(Subscribe(topic)), Begin(topic, first), Begin(topic, second),
               Send(0), Send(1), Send(1), Send(0)];
    var m, n := Message(topic, first), Message(topic, second);
    var c := map[topic := [0, 1]];
    var f0, g0 := Flight(m, [0, 1], [0, 1]), Flight(n, [0, 1], [0, 1]);
    var f1, g1 := Flight(m, [0, 1], [1]), Flight(n, [0, 1], [1]);
    var f2, g2 := Flight(m, [0, 1], []), Flight(n, [0, 1], []);
    var u0, u2 := Has(topic, []), Has(topic, [m, n]);
    TwoListening(ls, topic);
    TwoAloft(ls, topic, first, second);
    FirstServed(ls, topic, m, n);
    Twos<nat>(0, 1, 0, 1);
    Twos(n, m, n, m);
    var a6 := Air(State(c, [u2, u0], 2), [f1, g1]);
    SendHas(a6, 1, topic, []);
    Twos(f1, g1, f2, g2);
    Twos(u2, u0, u2, Has(topic, [n]));
    var a7 := Air(State(c, [u2, Has(topic, [n])], 3), [f1, g2]);
    StepAll(ls, 6, a6, a7);
    SendHas(a7, 0, topic, [n]);
    Twos(f1, g2, f2, g2);
    Twos(u2, Has(topic, [n]), u2, Has(topic, [n, m]));
    StepAll(ls, 7, a7, Air(State(c, [u2, Has(topic, [n, m])], 4), [f2, g2]));
    assert ls[..8] == ls;
    HasOffered(topic, [m, n]);
    HasOffered(topic, [n, m]);
  }

  lemma TwoAloft(ls: seq<Label>, topic: Bytes, first: Bytes, second: Bytes)
    requires |ls| >= 4 && ls[2] == Begin(topic, first) && ls[3] == Begin(topic, second)
    requires RunAll(ls[..2]) == Some(Air(State(map[topic := [0, 1]], [Has(topic, []), Has(topic, [])], 0), []))
    ensures RunAll(ls[..4]) ==
              Some(Air(State(map[topic := [0, 1]], [Has(topic, []), Has(topic, [])], 0),
                       [Flight(Message(topic, first), [0, 1], [0, 1]), Flight(Message(topic, second), [0, 1], [0, 1])]))
  {
    hide Message, Next, Has, RunAll;
    var a2 := RunAll(ls[..2]).value;
    var f0, g0 := Flight(Message(topic, first), [0, 1], [0, 1]), Flight(Message(topic, second), [0, 1], [0, 1]);
    BeginIs(a2, topic, first);
    Twos(f0, g0, f0, g0);
    var a3 := a2.(flights := [f0]);
    StepAll(ls, 2, a2, a3);
    BeginIs(a3, topic, second);
    StepAll(ls, 3, a3, a3.(flights := [f0, g0]));
  }

  lemma FirstServed(ls: seq<Label>, topic: Bytes, m: Value, n: Value)
    requires |ls| >= 6 && ls[4] == Send(0) && ls[5] == Send(1)
    requires RunAll(ls[..4]) == Some(Air(State(map[topic := [0, 1]], [Has(topic, []), Has(topic, [])], 0),
                                         [Flight(m, [0, 1], [0, 1]), Flight(n, [0, 1], [0, 1])]))
    ensures RunAll(ls[..6]) == Some(Air(State(map[topic := [0, 1]], [Has(topic, [m, n]), Has(topic, [])], 2),
                                        [Flight(m, [0, 1], [1]), Flight(n, [0, 1], [1])]))
  {
    hide Next, Has, RunAll;
    var a4 := RunAll(ls[..4]).value;
    var f0, g0 := Flight(m, [0, 1], [0, 1]), Flight(n, [0, 1], [0, 1]);
    var f1, g1 := Flight(m, [0, 1], [1]), Flight(n, [0, 1], [1]);
    var u0, u1, u2 := Has(topic, []), Has(topic, [m]), Has(topic, [m, n]);
    Twos<nat>(0, 1, 0, 1);
    Twos(m, n, m, n);
    SendHas(a4, 0, topic, []);
    Twos(f0, g0, f1, g1);
    Twos(u0, u0, u1, u0);
    var a5 := Air(State(map[topic := [0, 1]], [u1, u0], 1), [f1, g0]);
    StepAll(ls, 4, a4, a5);
    SendHas(a5, 1, topic, [m]);
    Twos(f1, g0, f1, g1);
    Twos(u1, u0, u2, u0);
    StepAll(ls, 5, a5, Air(State(map[topic := [0, 1]], [u2, u0], 2), [f1, g1]));
  }

  lemma HasOffered(topic: Bytes, ms: seq<Value>)
    ensures Has(topic, ms).offered == ms
  {
  }

  lemma TwoListening(ls: seq<Label>, topic: Bytes)
    requires |ls| >= 2 && ls[0] == ls[1] == Quiet(Subscribe(topic))
    ensures RunAll(ls[..2]) == Some(Air(State(map[topic := [0, 1]], [Has(topic, []), Has(topic, [])], 0), []))
  {
    var u := Has(topic, []);
    var a0, a1 := Air(State(map[], [], 0), []), Air(State(map[topic := [0]], [u], 0), []);
    Twos<nat>(0, 1, 0, 1);
    Twos(u, u, u, u);
    assert ls[..0] == [];
    StepAll(ls, 0, a0, a1);
    assert a1.state.channels[topic := [0, 1]] == map[topic := [0, 1]];
    StepAll(ls, 1, a1, Air(State(map[topic := [0, 1]], [u, u], 0), []));
  }

  lemma BeginIs(a: Air, topic: Bytes, text: Bytes)
    requires topic in a.state.channels
    ensures var ids := a.state.channels[topic];
            Next(a, Begin(topic, text)) == Some(a.(flights := a.flights + [Flight(Message(topic, text), ids, ids)]))
  {
  }

  lemma SendHas(a: Air, i: nat, topic: Bytes, ms: seq<Value>)
    requires i < |a.flights| && a.flights[i].todo != [] && a.flights[i].todo[0] < |a.state.subs|
    requires a.state.subs[a.flights[i].todo[0]] == Has(topic, ms) && |ms| < BUFFER
    ensures var f := a.flights[i];
            Next(a, Send(i)) ==
              Some(Air(State(a.state.channels, a.state.subs[f.todo[0] := Has(topic, ms + [f.msg])], a.state.counted + 1),
                       a.flights[i := Flight(f.msg, f.listeners, f.todo[1..])]))
  {
  }

  lemma Twos<T>(x: T, y: T, x': T, y': T)
    ensures [] + [x] == [x] && [x] + [y] == [x, y] && [x, y][1..] == [y] && [y][1..] == []
    ensures [x, y][0 := x'] == [x', y] && [x, y][1 := y'] == [x, y']
  {
  }

  // A subscription that has been offered these messages and received none.
  function Has(topic: Bytes, ms: seq<Value>): Sub {
    Sub(topic, ms, false, [], ms)
  }

  lemma StepAll(ls: seq<Label>, n: nat, a: Air, b: Air)
    requires n < |ls| && RunAll(ls[..n]) == Some(a) && Next(a, ls[n]) == Some(b)
    ensures RunAll(ls[..n + 1]) == Some(b)
  {
    hide Next;
    assert ls[..n + 1][..n] == ls[..n];
  }
}
