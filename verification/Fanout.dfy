/** Notification fan-out: bounded queues per subscriber, filled from the samples of a message. */
module Fanout {
  import opened Outcomes
  import opened Bytes
  import opened Notifications

  type Payload = seq<byte>

  const CAPACITY := 32

  /** A bounded channel: what its receiver has not taken yet, and whether the receiver still exists. */
  datatype Channel = Channel(queued: seq<Payload>, open: bool)

  datatype Verdict = Sent | Full | Closed

  function TrySend(c: Channel, p: Payload): (Channel, Verdict) {
    if !c.open then (c, Closed)
    else if |c.queued| >= CAPACITY then (c, Full)
    else (c.(queued := c.queued + [p]), Sent)
  }

  // ---- What can happen to the subscribers --------------------------------------------------

  /** Which channel each handle feeds, and every channel made so far. */
  datatype State = State(routes: map<u32, nat>, channels: seq<Channel>) {
    predicate Valid() {
      && (forall h :: h in routes ==> routes[h] < |channels|)
      && (forall i :: 0 <= i < |channels| ==> |channels[i].queued| <= CAPACITY)
    }
  }

  datatype Event =
    | Arrive(sample: Sample)
    | Subscribe(handle: u32)
    | Delete(handle: u32)
    | Recv(channel: nat)
    | DropReceiver(channel: nat)

  function Apply(s: State, e: Event): (s': State)
    requires s.Valid()
    ensures s'.Valid() && |s.channels| <= |s'.channels|
  {
    match e
    case Arrive(sample) =>
      if sample.handle !in s.routes then s else
      var i := s.routes[sample.handle];
      s.(channels := s.channels[i := TrySend(s.channels[i], sample.data).0])
    case Subscribe(h) =>
      State(s.routes[h := |s.channels|], s.channels + [Channel([], true)])
    case Delete(h) =>
      s.(routes := s.routes - {h})
    case Recv(i) =>
      if i >= |s.channels| || s.channels[i].queued == [] || !s.channels[i].open then s else
      s.(channels := s.channels[i := s.channels[i].(queued := s.channels[i].queued[1..])])
    case DropReceiver(i) =>
      if i >= |s.channels| then s else
      s.(channels := s.channels[i := s.channels[i].(open := false)])
  }

  function Run(s: State, events: seq<Event>): (s': State)
    requires s.Valid()
    ensures s'.Valid() && |s.channels| <= |s'.channels|
    decreases |events|
  {
    if events == [] then s else Run(Apply(s, events[0]), events[1..])
  }

  // ---- What one subscriber sees of it ------------------------------------------------------

  datatype Local = Offer(payload: Payload) | Take | Close

  function Step(c: Channel, l: Local): Channel {
    match l
    case Offer(p) => TrySend(c, p).0
    case Take => if c.queued == [] || !c.open then c else c.(queued := c.queued[1..])
    case Close => c.(open := false)
  }

  function RunChannel(c: Channel, ls: seq<Local>): Channel
    decreases |ls|
  {
    if ls == [] then c else RunChannel(Step(c, ls[0]), ls[1..])
  }

  /** Only subscribing and deleting change where samples go; no receiver can. */
  function Reroute(routes: map<u32, nat>, made: nat, e: Event): map<u32, nat> {
    match e
    case Subscribe(h) => routes[h := made]
    case Delete(h) => routes - {h}
    case _ => routes
  }

  function Made(made: nat, e: Event): nat {
    if e.Subscribe? then made + 1 else made
  }

  /** The part of a run that concerns channel `id`: the samples routed to it, and its own receiver. */
  function Share(routes: map<u32, nat>, made: nat, events: seq<Event>, id: nat): seq<Local>
    decreases |events|
  {
    if events == [] then [] else
    var own: seq<Local> :=
      match events[0]
      case Arrive(sample) =>
        if sample.handle in routes && routes[sample.handle] == id then [Offer(sample.data)] else []
      case Recv(i) => if i == id then [Take] else []
      case DropReceiver(i) => if i == id then [Close] else []
      case _ => [];
    own + Share(Reroute(routes, made, events[0]), Made(made, events[0]), events[1..], id)
  }

  lemma RunChannelAppend(c: Channel, l: seq<Local>, ls: seq<Local>)
    requires |l| <= 1
    ensures RunChannel(c, l + ls) == if l == [] then RunChannel(c, ls) else RunChannel(Step(c, l[0]), ls)
  {
    if l == [] {
      assert l + ls == ls;
    } else {
      assert (l + ls)[1..] == ls;
    }
  }

  /**
    * Non-interference: what becomes of a channel depends only on its own share of the run.  Another
    * subscriber that drains slowly, or goes away, changes nothing about what this one is given.
    */
  lemma {:induction false} OthersDoNotInterfere(s: State, events: seq<Event>, id: nat)
    requires s.Valid() && id < |s.channels|
    ensures Run(s, events).channels[id] == RunChannel(s.channels[id], Share(s.routes, |s.channels|, events, id))
    decreases |events|
  {
    hide TrySend;
    if events != [] {
      var e, s' := events[0], Apply(s, events[0]);
      OthersDoNotInterfere(s', events[1..], id);
      var more := Share(s'.routes, |s'.channels|, events[1..], id);
      assert s'.routes == Reroute(s.routes, |s.channels|, e) && |s'.channels| == Made(|s.channels|, e);
      match e
      case Arrive(sample) =>
        if sample.handle in s.routes && s.routes[sample.handle] == id {
          RunChannelAppend(s.channels[id], [Offer(sample.data)], more);
        } else {
          RunChannelAppend(s.channels[id], [], more);
        }
      case Subscribe(h) => RunChannelAppend(s.channels[id], [], more);
      case Delete(h) => RunChannelAppend(s.channels[id], [], more);
      case Recv(i) => RunChannelAppend(s.channels[id], if i == id then [Take] else [], more);
      case DropReceiver(i) => RunChannelAppend(s.channels[id], if i == id then [Close] else [], more);
    }
  }

  // ---- What a subscriber is given ----------------------------------------------------------

  function Offered(ls: seq<Local>): seq<Payload> {
    if ls == [] then [] else (if ls[0].Offer? then [ls[0].payload] else []) + Offered(ls[1..])
  }

  function Accepted(c: Channel, ls: seq<Local>): seq<Payload>
    decreases |ls|
  {
    if ls == [] then [] else
    (if ls[0].Offer? && TrySend(c, ls[0].payload).1 == Sent then [ls[0].payload] else [])
    + Accepted(Step(c, ls[0]), ls[1..])
  }

  /** What the receiver has taken, in order. */
  function Taken(c: Channel, ls: seq<Local>): seq<Payload>
    decreases |ls|
  {
    if ls == [] then [] else
    (if ls[0].Take? && c.queued != [] && c.open then [c.queued[0]] else []) + Taken(Step(c, ls[0]), ls[1..])
  }

  /** The channel is open and not full whenever something is offered. */
  predicate RoomAtOffers(c: Channel, ls: seq<Local>)
    decreases |ls|
  {
    ls == [] || ((ls[0].Offer? ==> c.open && |c.queued| < CAPACITY) && RoomAtOffers(Step(c, ls[0]), ls[1..]))
  }

  /** `a` is `b` with some elements left out. */
  predicate Subsequence(a: seq<Payload>, b: seq<Payload>) {
    a == [] || (b != [] && ((a[0] == b[0] && Subsequence(a[1..], b[1..])) || Subsequence(a, b[1..])))
  }

  lemma {:induction false} SubsequenceLength(a: seq<Payload>, b: seq<Payload>)
    requires Subsequence(a, b)
    ensures |a| <= |b|
    ensures |a| == |b| ==> a == b
  {
    if a != [] {
      if a[0] == b[0] && Subsequence(a[1..], b[1..]) {
        SubsequenceLength(a[1..], b[1..]);
        assert a == [a[0]] + a[1..] && b == [b[0]] + b[1..];
      } else {
        SubsequenceLength(a, b[1..]);
      }
    }
  }

  /** What a subscriber accepts is what it was offered, in order, with some samples left out. */
  lemma {:induction false} AcceptedInOrder(c: Channel, ls: seq<Local>)
    ensures Subsequence(Accepted(c, ls), Offered(ls))
    decreases |ls|
  {
    if ls != [] {
      AcceptedInOrder(Step(c, ls[0]), ls[1..]);
      var a, b := Accepted(Step(c, ls[0]), ls[1..]), Offered(ls[1..]);
      if ls[0].Offer? {
        assert ([ls[0].payload] + b)[1..] == b && ([ls[0].payload] + a)[1..] == a && [] + a == a;
      } else {
        assert [] + a == a && [] + b == b;
      }
    }
  }

  /** Nothing is left out exactly when the open channel has room at every offer. */
  lemma {:induction false} LostOnlyWhenFull(c: Channel, ls: seq<Local>)
    ensures Accepted(c, ls) == Offered(ls) <==> RoomAtOffers(c, ls)
    decreases |ls|
  {
    if ls != [] {
      var c' := Step(c, ls[0]);
      LostOnlyWhenFull(c', ls[1..]);
      AcceptedInOrder(c', ls[1..]);
      SubsequenceLength(Accepted(c', ls[1..]), Offered(ls[1..]));
      var a, b := Accepted(c', ls[1..]), Offered(ls[1..]);
      if ls[0].Offer? {
        if Accepted(c, ls) == Offered(ls) {
          assert |Offered(ls)| == 1 + |b|;
          assert ([ls[0].payload] + a)[1..] == a && ([ls[0].payload] + b)[1..] == b;
        }
      } else {
        assert [] + a == a && [] + b == b;
      }
    }
  }

  /** Conservation: what was queued and what was accepted is what was taken and what is still queued, in order. */
  lemma {:induction false} NothingIsInventedOrReordered(c: Channel, ls: seq<Local>)
    ensures c.queued + Accepted(c, ls) == Taken(c, ls) + RunChannel(c, ls).queued
    decreases |ls|
  {
    if ls != [] {
      var c' := Step(c, ls[0]);
      NothingIsInventedOrReordered(c', ls[1..]);
      var a, t, q := Accepted(c', ls[1..]), Taken(c', ls[1..]), RunChannel(c', ls[1..]).queued;
      match ls[0]
      case Offer(p) =>
        assert c.queued + ([p] + a) == c.queued + [p] + a;
        assert [] + a == a && [] + t == t;
      case Take =>
        if c.queued != [] && c.open {
          assert c.queued == [c.queued[0]] + c'.queued;
          assert [c.queued[0]] + (t + q) == [c.queued[0]] + t + q;
          assert [c.queued[0]] + (c'.queued + a) == c.queued + a;
        }
        assert [] + a == a && [] + t == t;
      case Close =>
        assert [] + a == a && [] + t == t;
    }
  }

  /** When the receiver is gone, nothing is accepted or taken any more, whatever else happens. */
  lemma {:induction false} ClosedForGood(c: Channel, ls: seq<Local>)
    ensures var closed := Step(c, Close);
            && !closed.open && closed.queued == c.queued
            && RunChannel(closed, ls) == closed && Accepted(closed, ls) == [] && Taken(closed, ls) == []
    decreases |ls|
  {
    if ls != [] {
      ClosedForGood(c, ls[1..]);
    }
  }

  // ---- The subscriber table ----------------------------------------------------------------

  function Arrivals(samples: seq<Sample>): (events: seq<Event>)
    ensures |events| == |samples|
    ensures forall i :: 0 <= i < |samples| ==> events[i] == Arrive(samples[i])
  {
    if samples == [] then [] else [Arrive(samples[0])] + Arrivals(samples[1..])
  }

  /** The handles, in order of their samples, whose channel has lost its receiver. */
  function Orphans(s: State, samples: seq<Sample>): seq<u32>
    requires s.Valid()
    decreases |samples|
  {
    if samples == [] then [] else
    var h := samples[0].handle;
    (if h in s.routes && !s.channels[s.routes[h]].open then [h] else [])
        + Orphans(Apply(s, Arrive(samples[0])), samples[1..])
  }

  /** Deliveries change neither where handles lead nor which receivers are there. */
  lemma ArriveKeeps(s: State, sample: Sample)
    requires s.Valid()
    ensures var s' := Apply(s, Arrive(sample));
            && s'.routes == s.routes && |s'.channels| == |s.channels|
            && forall i :: 0 <= i < |s.channels| ==> s'.channels[i].open == s.channels[i].open
  {
  }

  /** Some sample bears the handle, and it leads to a channel whose receiver is gone. */
  predicate Orphaned(s: State, samples: seq<Sample>, handle: u32)
    requires s.Valid()
  {
    && (exists i :: 0 <= i < |samples| && samples[i].handle == handle)
    && handle in s.routes && !s.channels[s.routes[handle]].open
  }

  lemma OrphansExactly(s: State, samples: seq<Sample>)
    requires s.Valid()
    ensures forall h :: h in Orphans(s, samples) <==> Orphaned(s, samples, h)
  {
    forall h
      ensures h in Orphans(s, samples) <==> Orphaned(s, samples, h)
    {
      OrphansIff(s, samples, h);
    }
  }

  /** A handle is reported exactly when a sample bears it and it leads to a channel without receiver. */
  lemma {:induction false} OrphansIff(s: State, samples: seq<Sample>, handle: u32)
    requires s.Valid()
    ensures handle in Orphans(s, samples) <==> Orphaned(s, samples, handle)
    decreases |samples|
  {
    hide Apply;
    if samples != [] {
      ArriveKeeps(s, samples[0]);
      OrphansIff(Apply(s, Arrive(samples[0])), samples[1..], handle);
      assert forall i :: 0 <= i < |samples[1..]| ==> samples[1..][i] == samples[i + 1];
      assert forall i :: 1 <= i < |samples| ==> samples[i] == samples[1..][i - 1];
    }
  }

  /** A queue whose receiver takes nothing keeps the first 32 payloads it is offered, and no more. */
  lemma {:induction false} FirstThirtyTwo(c: Channel, ls: seq<Local>)
    requires c.open && |c.queued| <= 32 && forall i :: 0 <= i < |ls| ==> ls[i].Offer?
    ensures |Offered(ls)| == |ls|
    ensures RunChannel(c, ls)
         == c.(queued := c.queued + if |c.queued| + |ls| <= 32 then Offered(ls) else Offered(ls)[..32 - |c.queued|])
    decreases |ls|
  {
    if ls != [] {
      var c' := Step(c, ls[0]);
      FirstThirtyTwo(c', ls[1..]);
      var later := Offered(ls[1..]);
      assert Offered(ls) == [ls[0].payload] + later;
      if |c.queued| < 32 {
        assert c'.queued == c.queued + [ls[0].payload];
        assert c.queued + [ls[0].payload] + later == c.queued + ([ls[0].payload] + later);
        assert 32 < |c.queued| + |ls| ==> c.queued + [ls[0].payload] + later[..31 - |c.queued|]
                                          == c.queued + ([ls[0].payload] + later)[..32 - |c.queued|];
      }
    }
  }

  lemma NoDelivery(s: State)
    requires s.Valid()
    ensures Run(s, Arrivals([])) == s
  {
  }

  lemma DeliverFirst(s: State, samples: seq<Sample>)
    requires s.Valid() && samples != []
    ensures Run(s, Arrivals(samples)) == Run(Apply(s, Arrive(samples[0])), Arrivals(samples[1..]))
  {
    assert Arrivals(samples)[1..] == Arrivals(samples[1..]);
  }

  class Subscribers {
    var routes: map<u32, nat>
    var channels: seq<Channel>

    function View(): State
      reads this
    {
      State(routes, channels)
    }

    constructor ()
      ensures View() == State(map[], []) && View().Valid()
    {
      routes := map[];
      channels := [];
    }

    /** A new channel takes over the handle; the receiver of an old one sees it end. */
    method Add(handle: u32) returns (id: nat)
      requires View().Valid()
      modifies this
      ensures View() == Apply(old(View()), Subscribe(handle))
      ensures id == |old(channels)| && routes == old(routes)[handle := id]
      ensures channels == old(channels) + [Channel([], true)]
    {
      id := |channels|;
      channels := channels + [Channel([], true)];
      routes := routes[handle := id];
    }

    method Remove(handle: u32)
      requires View().Valid()
      modifies this
      ensures View() == Apply(old(View()), Delete(handle))
      ensures routes == old(routes) - {handle} && channels == old(channels)
    {
      routes := routes - {handle};
    }

    /** The receiving end of a channel: the oldest queued payload, if any. */
    method Receive(id: nat) returns (r: Option<Payload>)
      requires View().Valid() && id < |channels| && channels[id].open
      modifies this
      ensures View() == Apply(old(View()), Recv(id))
      ensures r == if old(channels)[id].queued == [] then None else Some(old(channels)[id].queued[0])
    {
      var queued := channels[id].queued;
      if queued == [] {
        return None;
      }
      channels := channels[id := channels[id].(queued := queued[1..])];
      r := Some(queued[0]);
    }

    /** Hands every sample of a message to the channel of its handle, never waiting for a receiver. */
    method FanOut(notification: Notification) returns (dropped: seq<u32>)
      requires View().Valid() && notification.Valid()
      modifies this
      ensures View() == Run(old(View()), Arrivals(Flatten(notification.Stamps())))
      ensures dropped == Orphans(old(View()), Flatten(notification.Stamps()))
      ensures forall h :: h in dropped <==> Orphaned(old(View()), Flatten(notification.Stamps()), h)
    {
      hide Apply, Flatten, Run, Arrivals, Owed, Orphaned;
      OrphansExactly(View(), Flatten(notification.Stamps()));
      dropped := [];
      var iter := new SampleIter(notification);
      ghost var all := Run(View(), Arrivals(iter.Remaining()));
      ghost var orphans := Orphans(View(), iter.Remaining());
      while true
        invariant iter.Valid() && View().Valid()
        invariant Run(View(), Arrivals(iter.Remaining())) == all
        invariant dropped + Orphans(View(), iter.Remaining()) == orphans
        decreases |iter.Remaining()|
      {
        ghost var owed := iter.Remaining();
        var next := iter.Next();
        if next.None? {
          assert Run(View(), Arrivals([])) == View() by { NoDelivery(View()); }
          return;
        }
        DeliverFirst(View(), owed);
        assert owed[1..] == iter.Remaining();
        var orphan := Deliver(next.value);
        ghost var later := Orphans(View(), iter.Remaining());
        assert dropped + (orphan + later) == dropped + orphan + later;
        dropped := dropped + orphan;
      }
    }

    /** One sample: skipped, queued, dropped because the queue is full, or found without a receiver. */
    method Deliver(sample: Sample) returns (orphan: seq<u32>)
      requires View().Valid()
      modifies this
      ensures View() == Apply(old(View()), Arrive(sample))
      ensures orphan == if sample.handle in old(routes) && !old(channels)[old(routes)[sample.handle]].open
                        then [sample.handle] else []
    {
      if sample.handle !in routes {
        return [];
      }
      var id := routes[sample.handle];
      var (channel, verdict) := TrySend(channels[id], sample.data);
      channels := channels[id := channel];
      orphan := if verdict == Closed then [sample.handle] else [];
    }
  }
}
