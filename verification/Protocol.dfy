/**
  * The request, reply and teardown protocol.  Any number of requests, subscriptions and teardown
  * attempts interleave with the reader, one shared access a step; `closed` is set outside the two
  * locks but tested inside them.
  */
module Protocol {
  import opened Outcomes
  import opened Bytes
  import opened SharedState
  import P = Pending
  import S = Subscriptions

  const MAX_CONSECUTIVE_TIMEOUTS := 3

  /** How far the teardown that came first has got.  Later attempts end at their test of `closed`. */
  datatype Teardown =
    | Idle
    | Won(reason: Error)
    | Failing(reason: Error)
    | Clearing(reason: Error)
    | Finished(reason: Error)
  {
    /** The pending map has been emptied. */
    predicate Drained() {
      Failing? || Clearing? || Finished?
    }

    function Rank(): nat {
      match this
      case Idle => 0
      case Won(_) => 1
      case Failing(_) => 2
      case Clearing(_) => 3
      case Finished(_) => 4
    }
  }

  datatype State = State(
    closed: Option<Error>,
    attempts: multiset<Error>,
    teardown: Teardown,
    requests: P.Requests,
    subscribers: S.Subscribers,
    timeouts: u32)

  function Init(): State {
    var requests := P.Requests([], None, map[], None, {}, map[], {});
    State(None, multiset{}, Idle, requests, S.Subscribers([], None, map[]), 0)
  }

  /** Why a request stops waiting. */
  datatype Why = GotMessage | NoReplyInTime | WriteFailed | Cancelled | SenderLost

  datatype Action =
    | Do(op: P.Op)
    | Leave(n: nat, why: Why)
    | BeginTeardown(reason: Error)
    | SetClosed(reason: Error)
    | Drain
    | FailOne(n: nat)
    | DrainDone
    | ClearSubscribers
    | Subscribing(sop: S.Op)

  /** The steps of requests and reader that neither the teardown nor the end of a wait takes. */
  predicate Plain(s: State, op: P.Op) {
    !op.Leave? && !op.Drain? && !op.Fail? && (op.Test? ==> op.closed == s.closed.Some?)
  }

  predicate Enabled(s: State, a: Action) {
    match a
    case Do(op) => Plain(s, op) && P.Enabled(s.requests, op)
    case Leave(n, why) =>
      && P.Enabled(s.requests, P.Leave(n))
      && (why == GotMessage ==> n in s.requests.sent)
      && (why == SenderLost ==> n in s.requests.dropped)
    case BeginTeardown(_) => true
    case SetClosed(reason) => reason in s.attempts
    case Drain => s.teardown.Won? && P.Enabled(s.requests, P.Drain)
    case FailOne(n) => s.teardown.Failing? && P.Enabled(s.requests, P.Fail(n, s.teardown.reason))
    case DrainDone => s.teardown.Failing? && s.requests.failing == {}
    case ClearSubscribers => s.teardown.Clearing? && S.Enabled(s.subscribers, S.Clear)
    case Subscribing(sop) =>
      !sop.Clear? && (sop.Test? ==> sop.closed == s.closed.Some?) && S.Enabled(s.subscribers, sop)
  }

  /** A reply timeout counts up; from the third in a row on, the request attempts a teardown. */
  function CountTimeout(s: State): State {
    var unanswered := (s.timeouts + 1) % U32_LIMIT;
    var attempted := unanswered >= MAX_CONSECUTIVE_TIMEOUTS;
    s.(timeouts := unanswered,
       attempts := if attempted then s.attempts + multiset{Io} else s.attempts)
  }

  /** What the end of a wait does to the rest of the client. */
  function Conclude(s: State, n: nat, why: Why): State
    requires why == GotMessage ==> n in s.requests.sent
  {
    match why
    case GotMessage => if s.requests.sent[n].Answered? then s.(timeouts := 0) else s
    case NoReplyInTime => CountTimeout(s)
    case WriteFailed => s.(attempts := s.attempts + multiset{Io})
    case Cancelled => s
    case SenderLost => s
  }

  function Apply(s: State, a: Action): State
    requires Enabled(s, a)
  {
    match a
    case Do(op) => s.(requests := P.Apply(s.requests, op))
    case Leave(n, why) => Conclude(s, n, why).(requests := P.Apply(s.requests, P.Leave(n)))
    case BeginTeardown(reason) => s.(attempts := s.attempts + multiset{reason})
    case SetClosed(reason) =>
      if s.closed.Some? then s.(attempts := s.attempts - multiset{reason})
      else s.(attempts := s.attempts - multiset{reason}, closed := Some(reason), teardown := Won(reason))
    case Drain => s.(requests := P.Apply(s.requests, P.Drain), teardown := Failing(s.teardown.reason))
    case FailOne(n) => s.(requests := P.Apply(s.requests, P.Fail(n, s.teardown.reason)))
    case DrainDone => s.(teardown := Clearing(s.teardown.reason))
    case ClearSubscribers =>
      s.(subscribers := S.Apply(s.subscribers, S.Clear), teardown := Finished(s.teardown.reason))
    case Subscribing(sop) => s.(subscribers := S.Apply(s.subscribers, sop))
  }

  // ---- Runs --------------------------------------------------------------------------------

  predicate Feasible(s: State, run: seq<Action>)
    decreases |run|
  {
    run == [] || (Enabled(s, run[0]) && Feasible(Apply(s, run[0]), run[1..]))
  }

  function Execute(s: State, run: seq<Action>): State
    requires Feasible(s, run)
    decreases |run|
  {
    if run == [] then s else Execute(Apply(s, run[0]), run[1..])
  }

  // ---- What every step keeps ---------------------------------------------------------------

  /** `closed` and the one teardown agree, and every error a request gets is its reason. */
  predicate ReasonInv(s: State) {
    && (s.closed == None <==> s.teardown == Idle)
    && (s.closed.Some? ==> s.teardown.reason == s.closed.value)
    && (forall n :: n in s.requests.sent && s.requests.sent[n].Failed? ==> s.closed == Some(s.requests.sent[n].reason))
  }

  /** Once drained, the pending map is empty, and nobody is past the test that lets it insert. */
  predicate DrainedInv(s: State) {
    && (s.teardown.Drained() ==> P.Shut(s.requests))
    && (!s.teardown.Failing? ==> s.requests.failing == {})
  }

  /** Once finished, the same holds of the subscriber map. */
  predicate ClearedInv(s: State) {
    s.teardown.Finished? ==>
      && s.subscribers.table == map[]
      && (s.subscribers.lock.Some? ==> S.At(s.subscribers, s.subscribers.lock.value, S.Locked))
  }

  ghost predicate Inv(s: State) {
    P.Inv(s.requests) && S.LockInv(s.subscribers) && ReasonInv(s) && DrainedInv(s) && ClearedInv(s)
  }

  lemma PartsStep(s: State, a: Action)
    requires P.Inv(s.requests) && S.LockInv(s.subscribers) && Enabled(s, a)
    ensures P.Inv(Apply(s, a).requests) && S.LockInv(Apply(s, a).subscribers)
  {
    hide P.Inv, S.LockInv, P.Apply, S.Apply, P.Enabled, S.Enabled;
    match a
    case Do(op) => P.Step(s.requests, op);
    case Leave(n, _) => P.Step(s.requests, P.Leave(n));
    case Drain => P.Step(s.requests, P.Drain);
    case FailOne(n) => P.Step(s.requests, P.Fail(n, s.teardown.reason));
    case ClearSubscribers => S.LockStep(s.subscribers, S.Clear);
    case Subscribing(sop) => S.LockStep(s.subscribers, sop);
    case _ =>
  }

  lemma SentStep(r: P.Requests, op: P.Op, reason: Error)
    requires P.Enabled(r, op)
    requires forall n :: n in r.sent && r.sent[n].Failed? ==> r.sent[n].reason == reason
    requires op.Fail? ==> op.reason == reason
    ensures forall n :: n in P.Apply(r, op).sent && P.Apply(r, op).sent[n].Failed? ==>
            P.Apply(r, op).sent[n].reason == reason
    ensures !op.Fail? ==> forall n :: n in P.Apply(r, op).sent && P.Apply(r, op).sent[n].Failed? ==>
            n in r.sent && r.sent[n].Failed?
  {
  }

  lemma ReasonStep(s: State, a: Action)
    requires ReasonInv(s) && Enabled(s, a)
    ensures ReasonInv(Apply(s, a))
  {
    hide P.Apply, S.Apply, P.Enabled, S.Enabled;
    var reason := if s.closed.Some? then s.closed.value else Other;
    match a
    case Do(op) => SentStep(s.requests, op, reason);
    case Leave(n, _) => SentStep(s.requests, P.Leave(n), reason);
    case Drain => SentStep(s.requests, P.Drain, reason);
    case FailOne(n) => SentStep(s.requests, P.Fail(n, s.teardown.reason), reason);
    case _ =>
  }

  lemma DrainedStep(s: State, a: Action)
    requires P.LockInv(s.requests) && ReasonInv(s) && DrainedInv(s) && Enabled(s, a)
    ensures DrainedInv(Apply(s, a))
  {
    hide P.Apply, P.Enabled, P.Shut, S.Apply, S.Enabled;
    match a
    case Do(op) =>
      if s.teardown.Drained() {
        P.ShutStep(s.requests, op);
      }
      OnlyDrainTakes(s.requests, op);
    case Leave(n, _) =>
      if s.teardown.Drained() {
        P.ShutStep(s.requests, P.Leave(n));
      }
      OnlyDrainTakes(s.requests, P.Leave(n));
    case Drain => P.DrainShuts(s.requests);
    case FailOne(n) => P.ShutStep(s.requests, P.Fail(n, s.teardown.reason));
    case _ =>
  }

  lemma OnlyDrainTakes(r: P.Requests, op: P.Op)
    requires P.Enabled(r, op) && !op.Drain? && !op.Fail?
    ensures P.Apply(r, op).failing == r.failing
  {
  }

  lemma ClearedStep(s: State, a: Action)
    requires S.LockInv(s.subscribers) && ReasonInv(s) && ClearedInv(s) && Enabled(s, a)
    ensures ClearedInv(Apply(s, a))
  {
    hide P.Apply, P.Enabled;
  }

  lemma Step(s: State, a: Action)
    requires Inv(s) && Enabled(s, a)
    ensures Inv(Apply(s, a))
  {
    hide Apply, P.Inv, S.LockInv, ReasonInv, DrainedInv, ClearedInv;
    assert P.LockInv(s.requests) by { LockOf(s.requests); }
    PartsStep(s, a);
    ReasonStep(s, a);
    DrainedStep(s, a);
    ClearedStep(s, a);
  }

  lemma LockOf(r: P.Requests)
    requires P.Inv(r)
    ensures P.LockInv(r)
  {
  }

  lemma {:induction false} Reachable(s: State, run: seq<Action>)
    requires Inv(s) && Feasible(s, run)
    ensures Inv(Execute(s, run))
    decreases |run|
  {
    hide Apply, Inv;
    if run != [] {
      Step(s, run[0]);
      Reachable(Apply(s, run[0]), run[1..]);
    }
  }

  lemma InitInv()
    ensures Inv(Init())
  {
  }

  // ---- No request is lost ------------------------------------------------------------------

  /**
    * In every interleaving, the sender of every registered request is in exactly one place: the
    * pending map, the reader's hand, the teardown's hand, completed, or dropped.  A sender that
    * completed with an error carries the reason the connection was closed for, and one that
    * completed with a reply carries its own request's invoke ID.
    */
  lemma NoRequestIsLost(run: seq<Action>)
    requires Feasible(Init(), run)
    ensures var s := Execute(Init(), run);
            && (forall n: nat :: P.Places(s.requests, n) == P.One(P.HasSender(s.requests, n)))
            && (forall n :: n in s.requests.sent ==>
                  match s.requests.sent[n]
                  case Failed(reason) => s.closed == Some(reason)
                  case Answered(id) => id == P.Id(n))
  {
    hide P.Places, P.HasSender;
    InitInv();
    Reachable(Init(), run);
  }

  lemma {:induction false} OneWay(s: State, run: seq<Action>)
    requires Inv(s) && Feasible(s, run)
    ensures var s' := Execute(s, run);
            && s.teardown.Rank() <= s'.teardown.Rank()
            && (s.closed.Some? ==> s'.closed == s.closed)
    decreases |run|
  {
    hide Apply, Inv;
    if run != [] {
      OneWayStep(s, run[0]);
      Step(s, run[0]);
      OneWay(Apply(s, run[0]), run[1..]);
    }
  }

  lemma OneWayStep(s: State, a: Action)
    requires Inv(s) && Enabled(s, a)
    ensures s.teardown.Rank() <= Apply(s, a).teardown.Rank()
    ensures s.closed.Some? ==> Apply(s, a).closed == s.closed
  {
    hide P.Inv, P.Enabled, P.Apply, S.Enabled, S.Apply, S.LockInv, DrainedInv, ClearedInv;
  }

  /**
    * `closed` is set once and never changes.  From the moment the first teardown has drained the
    * pending map it stays empty for good, although registrations go on testing `closed` at any
    * time before and after; and once that teardown has finished, so does the subscriber map.
    */
  lemma ClosedForGood(before: seq<Action>, after: seq<Action>)
    requires Feasible(Init(), before) && Feasible(Execute(Init(), before), after)
    ensures var s := Execute(Init(), before);
            var s' := Execute(s, after);
            && (s.closed.Some? ==> s'.closed == s.closed)
            && (s.teardown.Drained() ==> s'.requests.commands == map[])
            && (s.teardown.Finished? ==> s'.teardown.Finished? && s'.subscribers.table == map[])
  {
    hide P.Inv, S.LockInv, Apply;
    var s := Execute(Init(), before);
    InitInv();
    Reachable(Init(), before);
    Reachable(s, after);
    OneWay(s, after);
  }

  /**
    * When the first teardown is past its failing loop, nobody waits in vain: every request that
    * still waits has a message in its channel or one in the reader's hand, or lost its sender.
    */
  lemma NobodyWaitsInVain(run: seq<Action>, n: nat)
    requires Feasible(Init(), run)
    requires var s := Execute(Init(), run);
             (s.teardown.Clearing? || s.teardown.Finished?) && P.At(s.requests, n, P.Waiting)
    ensures var s := Execute(Init(), run);
            n in s.requests.sent || P.InReader(s.requests, n) || n in s.requests.dropped
  {
    hide Apply, P.Id;
    var s := Execute(Init(), run);
    InitInv();
    Reachable(Init(), run);
    P.SenderPlaces(s.requests, n);
  }

  // ---- Wrapped invoke IDs ------------------------------------------------------------------

  /** Live requests stay young all along the run. */
  predicate StaysYoung(s: State, run: seq<Action>)
    requires Feasible(s, run)
    decreases |run|
  {
    P.Young(s.requests) && (run != [] ==> StaysYoung(Apply(s, run[0]), run[1..]))
  }

  lemma OwnStep(s: State, a: Action)
    requires Inv(s) && P.OwnInv(s.requests) && Enabled(s, a)
    requires P.Young(s.requests) && P.Young(Apply(s, a).requests)
    ensures P.OwnInv(Apply(s, a).requests)
  {
    hide P.Apply, P.Enabled, P.Young, P.OwnInv, P.LockInv, P.AnswerInv, P.PlacesInv, P.FiledInv;
    hide S.Apply, S.Enabled, S.LockInv, ReasonInv, DrainedInv, ClearedInv;
    match a
    case Do(op) => P.OwnStep(s.requests, op);
    case Leave(n, _) => P.OwnStep(s.requests, P.Leave(n));
    case Drain => P.OwnStep(s.requests, P.Drain);
    case FailOne(n) => P.OwnStep(s.requests, P.Fail(n, s.teardown.reason));
    case _ =>
  }

  lemma {:induction false} OwnReachable(s: State, run: seq<Action>)
    requires Inv(s) && P.OwnInv(s.requests) && Feasible(s, run) && StaysYoung(s, run)
    ensures P.OwnInv(Execute(s, run).requests) && P.Young(Execute(s, run).requests)
    decreases |run|
  {
    hide Apply, Inv, P.OwnInv, P.Young;
    if run != [] {
      assert P.Young(Apply(s, run[0]).requests);
      OwnStep(s, run[0]);
      Step(s, run[0]);
      OwnReachable(Apply(s, run[0]), run[1..]);
    }
  }

  /**
    * With fewer than 2^32 requests made during the life of any one, a request's sender is dropped
    * only by its own guard, so no waiting request ever finds its channel closed; and a reply to
    * request `k`, however late, is matched to `k` exactly when it is no older than that.
    */
  lemma RepliesAreIsolated(run: seq<Action>, k: nat)
    requires Feasible(Init(), run) && StaysYoung(Init(), run)
    ensures var s := Execute(Init(), run);
            && (forall n :: n in s.requests.dropped ==> P.At(s.requests, n, P.Gone))
            && !Enabled(s, Leave(k, SenderLost))
            && (k < |s.requests.phases| && P.Id(k) in s.requests.commands ==>
                  (s.requests.commands[P.Id(k)] == k <==> |s.requests.phases| - k <= U32_LIMIT))
  {
    hide Apply, P.Id, P.PlacesInv, P.Young;
    var s := Execute(Init(), run);
    InitInv();
    Reachable(Init(), run);
    OwnReachable(Init(), run);
    if k < |s.requests.phases| && P.Id(k) in s.requests.commands {
      P.ReplyIsolation(s.requests, k);
    }
  }

  // ---- A reply that is too late ------------------------------------------------------------

  lemma {:induction false} StaysYoungAppend(s: State, a: seq<Action>, b: seq<Action>)
    requires Feasible(s, a) && StaysYoung(s, a) && Feasible(Execute(s, a), b) && StaysYoung(Execute(s, a), b)
    ensures Feasible(s, a + b) && Execute(s, a + b) == Execute(Execute(s, a), b) && StaysYoung(s, a + b)
    decreases |a|
  {
    hide Apply, Enabled, P.Young;
    if a == [] {
      assert a + b == b;
    } else {
      assert (a + b)[0] == a[0] && (a + b)[1..] == a[1..] + b;
      StaysYoungAppend(Apply(s, a[0]), a[1..], b);
    }
  }

  predicate NobodyLive(r: P.Requests) {
    forall n :: 0 <= n < |r.phases| ==> !r.phases[n].Live()
  }

  /** Any number of invoke IDs can be taken, one after the other. */
  lemma {:induction false} AllocateMany(s: State, count: nat) returns (run: seq<Action>)
    requires NobodyLive(s.requests)
    ensures Feasible(s, run) && StaysYoung(s, run)
    ensures Execute(s, run) == s.(requests := s.requests.(phases := s.requests.phases + seq(count, _ => P.Allocated)))
    decreases count
  {
    run := [];
    if count == 0 {
      assert s.requests.phases + seq(0, _ => P.Allocated) == s.requests.phases;
    } else {
      var s' := Apply(s, Do(P.Allocate));
      var more := AllocateMany(s', count - 1);
      run := [Do(P.Allocate)] + more;
      assert run[1..] == more;
      assert s.requests.phases + [P.Allocated] + seq(count - 1, _ => P.Allocated)
          == s.requests.phases + seq(count, _ => P.Allocated);
    }
  }

  lemma YoungStep(s: State, a: Action, rest: seq<Action>)
    requires Enabled(s, a) && P.Young(s.requests)
    requires Feasible(Apply(s, a), rest) && StaysYoung(Apply(s, a), rest)
    ensures Feasible(s, [a] + rest) && StaysYoung(s, [a] + rest)
    ensures Execute(s, [a] + rest) == Execute(Apply(s, a), rest)
  {
    hide Apply, Enabled, P.Young;
    assert ([a] + rest)[1..] == rest;
  }

  lemma NoSteps(s: State)
    ensures Feasible(s, []) && Execute(s, []) == s && (P.Young(s.requests) ==> StaysYoung(s, []))
  {
    hide P.Young;
  }

  /** A request takes the lock, sees that nothing is closed, is filed, and waits. */
  function RegisterSteps(n: nat): seq<Action> {
    [Do(P.Lock(n))] + ([Do(P.Test(n, false))] + ([Do(P.Insert(n))] + ([Do(P.Unlock(n))] + [])))
  }

  function Filed(s: State, n: nat): State
    requires n < |s.requests.phases|
  {
    var r := s.requests;
    s.(requests := r.(phases := r.phases[n := P.Waiting], commands := r.commands[P.Id(n) := n],
                      dropped := r.dropped + P.Lost(r, P.Id(n))))
  }

  lemma RegisterNext(s: State, n: nat)
    requires P.At(s.requests, n, P.Allocated) && s.requests.lock == None && s.closed == None
    requires NobodyLive(s.requests) && |s.requests.phases| - n <= U32_LIMIT
    ensures Feasible(s, RegisterSteps(n)) && StaysYoung(s, RegisterSteps(n))
    ensures Execute(s, RegisterSteps(n)) == Filed(s, n)
  {
    hide P.Id, Feasible, StaysYoung, Execute;
    var s1 := Apply(s, Do(P.Lock(n)));
    var s2 := Apply(s1, Do(P.Test(n, false)));
    var s3 := Apply(s2, Do(P.Insert(n)));
    var s4 := Apply(s3, Do(P.Unlock(n)));
    assert s4.requests.phases == s.requests.phases[n := P.Waiting];
    assert s4 == Filed(s, n);
    NoSteps(s4);
    YoungStep(s3, Do(P.Unlock(n)), []);
    YoungStep(s2, Do(P.Insert(n)), [Do(P.Unlock(n))] + []);
    YoungStep(s1, Do(P.Test(n, false)), [Do(P.Insert(n))] + ([Do(P.Unlock(n))] + []));
    YoungStep(s, Do(P.Lock(n)), [Do(P.Test(n, false))] + ([Do(P.Insert(n))] + ([Do(P.Unlock(n))] + [])));
  }

  /** The first request is registered, times out, and is gone. */
  lemma FirstTimesOut() returns (run: seq<Action>)
    ensures Feasible(Init(), run) && StaysYoung(Init(), run)
    ensures var s := Execute(Init(), run);
            && s.requests.phases == [P.Gone] && s.requests.lock == None && s.closed == None
            && s.requests.commands == map[] && s.requests.reader == None
  {
    hide P.Id, P.Lost, Feasible, StaysYoung, Execute;
    var allocate := AllocateMany(Init(), 1);
    var s1 := Execute(Init(), allocate);
    assert s1.requests.phases == [P.Allocated];
    RegisterNext(s1, 0);
    StaysYoungAppend(Init(), allocate, RegisterSteps(0));
    var s2 := Filed(s1, 0);
    var s3 := Apply(s2, Leave(0, NoReplyInTime));
    var s4 := Apply(s3, Do(P.DropGuard(0)));
    NoSteps(s4);
    YoungStep(s3, Do(P.DropGuard(0)), []);
    YoungStep(s2, Leave(0, NoReplyInTime), [Do(P.DropGuard(0))] + []);
    StaysYoungAppend(Init(), allocate + RegisterSteps(0), [Leave(0, NoReplyInTime)] + ([Do(P.DropGuard(0))] + []));
    run := allocate + RegisterSteps(0) + ([Leave(0, NoReplyInTime)] + ([Do(P.DropGuard(0))] + []));
    assert s4.requests.phases == [P.Gone];
  }

  /**
    * Exactly 2^32 requests later, the first request's reply still comes.  Live requests have been young
    * all along, but its invoke ID has been taken over: the reader takes the later request's sender for it.
    */
  lemma LateReplyReachesAnother() returns (run: seq<Action>)
    ensures Feasible(Init(), run) && StaysYoung(Init(), run)
    ensures var s := Execute(Init(), run);
            && P.At(s.requests, 0, P.Gone) && P.At(s.requests, U32_LIMIT, P.Waiting)
            && Enabled(s, Do(P.ReaderTake(P.Id(0))))
            && Apply(s, Do(P.ReaderTake(P.Id(0)))).requests.reader == Some(P.Hand(P.Id(0), U32_LIMIT))
  {
    hide Feasible, StaysYoung, Execute, P.Lost;
    var first := FirstTimesOut();
    var s1 := Execute(Init(), first);
    var many := AllocateMany(s1, U32_LIMIT);
    var s2 := Execute(s1, many);
    StaysYoungAppend(Init(), first, many);
    assert s2.requests.phases == [P.Gone] + seq(U32_LIMIT, _ => P.Allocated);
    assert s2.requests.phases[U32_LIMIT] == P.Allocated && |s2.requests.phases| == U32_LIMIT + 1;
    RegisterNext(s2, U32_LIMIT);
    StaysYoungAppend(Init(), first + many, RegisterSteps(U32_LIMIT));
    run := first + many + RegisterSteps(U32_LIMIT);
    assert P.Id(U32_LIMIT) == P.Id(0);
  }

  // ---- The timeout rule --------------------------------------------------------------------

  /** The events that bear on the timeout rule. */
  datatype Event = TimedOut | Replied

  /** What happens in a run, as the ends of its waits and the messages that were there for them tell. */
  function EventsOf(s: State, run: seq<Action>): seq<Event>
    requires Feasible(s, run)
    decreases |run|
  {
    if run == [] then [] else EventOf(s, run[0]) + EventsOf(Apply(s, run[0]), run[1..])
  }

  function EventOf(s: State, a: Action): seq<Event> {
    match a
    case Leave(n, NoReplyInTime) => [TimedOut]
    case Leave(n, GotMessage) => if n in s.requests.sent && s.requests.sent[n].Answered? then [Replied] else []
    case _ => []
  }

  /** Timeouts since the last reply. */
  function Streak(events: seq<Event>): nat {
    if events == [] || events[|events| - 1] == Replied then 0 else 1 + Streak(events[..|events| - 1])
  }

  lemma StreakNext(events: seq<Event>)
    ensures Streak(events + [TimedOut]) == Streak(events) + 1 && Streak(events + [Replied]) == 0
    ensures events + [] == events
  {
    assert (events + [TimedOut])[..|events|] == events;
  }

  lemma CountOn(k: nat)
    ensures (k % 0x1_0000_0000 + 1) % 0x1_0000_0000 == (k + 1) % 0x1_0000_0000
  {
  }

  lemma CounterStep(s: State, a: Action, before: seq<Event>)
    requires s.timeouts == Streak(before) % 0x1_0000_0000 && Enabled(s, a)
    ensures Apply(s, a).timeouts == Streak(before + EventOf(s, a)) % 0x1_0000_0000
  {
    hide P.Apply, P.Enabled, S.Apply, S.Enabled, Streak;
    StreakNext(before);
    CountOn(Streak(before));
  }

  lemma {:induction false} CounterIsStreak(s: State, run: seq<Action>, before: seq<Event>)
    requires s.timeouts == Streak(before) % 0x1_0000_0000 && Feasible(s, run)
    ensures Execute(s, run).timeouts == Streak(before + EventsOf(s, run)) % 0x1_0000_0000
    decreases |run|
  {
    hide Apply, EventOf, Streak;
    if run == [] {
      assert before + [] == before;
    } else {
      var event, later := EventOf(s, run[0]), EventsOf(Apply(s, run[0]), run[1..]);
      CounterStep(s, run[0], before);
      CounterIsStreak(Apply(s, run[0]), run[1..], before + event);
      assert before + event + later == before + (event + later);
    }
  }

  /**
    * In every run the counter is the number of timeouts since the last reply that a request took out of its
    * channel, and a request that times out attempts a teardown exactly when that makes it three or more
    * (up to the counter's wrap at 2^32 timeouts).
    */
  lemma TimeoutRule(run: seq<Action>, n: nat)
    requires Feasible(Init(), run)
    ensures var s, streak := Execute(Init(), run), Streak(EventsOf(Init(), run));
            && s.timeouts == streak % 0x1_0000_0000
            && (Enabled(s, Leave(n, NoReplyInTime)) ==>
                  Apply(s, Leave(n, NoReplyInTime)).attempts
                  == s.attempts + (if (streak + 1) % 0x1_0000_0000 >= 3 then multiset{Io} else multiset{}))
  {
    hide P.Apply, P.Enabled, Execute, Streak, EventsOf;
    assert Streak([]) == 0 by { NoStreak(); }
    CounterIsStreak(Init(), run, []);
    assert [] + EventsOf(Init(), run) == EventsOf(Init(), run);
    CountOn(Streak(EventsOf(Init(), run)));
  }

  lemma NoStreak()
    ensures Streak([]) == 0
  {
  }

  /**
    * What the end of a wait does, for every way a wait can end: a reply resets the counter, an error that
    * came in its place does not; a timeout counts; a failed write attempts a teardown whatever the counter
    * says, and a cancelled wait or a lost sender does neither.
    */
  lemma EndOfWait(s: State, n: nat, why: Why)
    requires Enabled(s, Leave(n, why))
    ensures var s' := Apply(s, Leave(n, why));
            && s'.timeouts == (match why
                               case GotMessage => if s.requests.sent[n].Answered? then 0 else s.timeouts
                               case NoReplyInTime => (s.timeouts + 1) % 0x1_0000_0000
                               case _ => s.timeouts)
            && s'.attempts == s.attempts + (match why
                                            case NoReplyInTime => if 3 <= s'.timeouts then multiset{Io} else multiset{}
                                            case WriteFailed => multiset{Io}
                                            case _ => multiset{})
            && P.At(s'.requests, n, P.Leaving) && ViewOf(s') == ViewOf(s)
            && s'.teardown == s.teardown && s'.requests.dropped == s.requests.dropped
  {
  }

  /** Nothing but the end of a wait touches the counter, and nothing else than these makes attempts. */
  lemma OnlyWaitsCount(s: State, a: Action)
    requires Enabled(s, a) && !a.Leave?
    ensures Apply(s, a).timeouts == s.timeouts
    ensures Apply(s, a).attempts
         == (match a
             case BeginTeardown(reason) => s.attempts + multiset{reason}
             case SetClosed(reason) => s.attempts - multiset{reason}
             case _ => s.attempts)
  {
    hide P.Apply, P.Enabled, S.Apply, S.Enabled;
  }

  // ---- A teardown can always finish --------------------------------------------------------

  /** The steps of whoever holds a lock, and of the teardown itself. */
  predicate Finishing(a: Action) {
    match a
    case Do(op) => op.Test? || op.Insert? || op.Unlock?
    case Subscribing(sop) => sop.Test? || sop.Insert? || sop.Unlock?
    case Drain => true
    case FailOne(_) => true
    case DrainDone => true
    case ClearSubscribers => true
    case _ => false
  }

  lemma {:induction false} ExecuteAppend(s: State, a: seq<Action>, b: seq<Action>)
    requires Feasible(s, a) && Feasible(Execute(s, a), b)
    ensures Feasible(s, a + b) && Execute(s, a + b) == Execute(Execute(s, a), b)
    decreases |a|
  {
    hide Apply, Enabled;
    if a == [] {
      assert a + b == b;
    } else {
      assert (a + b)[0] == a[0] && (a + b)[1..] == a[1..] + b;
      ExecuteAppend(Apply(s, a[0]), a[1..], b);
    }
  }

  /** Steps left for the holder of the command lock. */
  function CommandWork(r: P.Requests): nat {
    if r.lock.Some? && r.lock.value < |r.phases| then
      match r.phases[r.lock.value]
      case Locked => 3 case Open => 2 case Inserted => 1 case _ => 0
    else 0
  }

  function SubscriberWork(r: S.Subscribers): nat {
    if r.lock.Some? && r.lock.value < |r.entries| then
      match r.entries[r.lock.value].phase
      case Locked => 3 case Open => 2 case Inserted => 1 case _ => 0
    else 0
  }

  /** Steps left for the lock holders and the teardown. */
  function Work(s: State): nat {
    CommandWork(s.requests) + SubscriberWork(s.subscribers) + |s.requests.failing|
  }

  function HolderStep(s: State): P.Op
    requires P.LockInv(s.requests) && s.requests.lock.Some?
  {
    var n := s.requests.lock.value;
    assert s.requests.phases[n].HoldsLock();
    match s.requests.phases[n]
    case Locked => P.Test(n, s.closed.Some?)
    case Open => P.Insert(n)
    case Inserted => P.Unlock(n)
  }

  function SubscriberStep(s: State): S.Op
    requires S.LockInv(s.subscribers) && s.subscribers.lock.Some?
  {
    var k := s.subscribers.lock.value;
    assert s.subscribers.entries[k].phase.HoldsLock();
    match s.subscribers.entries[k].phase
    case Locked => S.Test(k, s.closed.Some?)
    case Open => S.Insert(k)
    case Inserted => S.Unlock(k)
  }

  lemma HolderMoves(r: P.Requests, op: P.Op)
    requires r.lock.Some? && r.lock.value < |r.phases|
    requires match r.phases[r.lock.value]
             case Locked => op.Test? && op.n == r.lock.value
             case Open => op.Insert? && op.n == r.lock.value
             case Inserted => op.Unlock? && op.n == r.lock.value
             case _ => false
    ensures P.Enabled(r, op) && P.Apply(r, op).failing == r.failing && CommandWork(P.Apply(r, op)) < CommandWork(r)
  {
    hide P.Id;
  }

  lemma HolderStepWorks(s: State)
    requires P.LockInv(s.requests) && s.requests.lock.Some?
    ensures var a := Do(HolderStep(s));
            Enabled(s, a) && Apply(s, a).teardown == s.teardown && Work(Apply(s, a)) < Work(s)
  {
    hide P.Apply, P.Enabled, CommandWork, SubscriberWork;
    assert s.requests.phases[s.requests.lock.value].HoldsLock();
    HolderMoves(s.requests, HolderStep(s));
  }

  lemma SubscriberStepWorks(s: State)
    requires S.LockInv(s.subscribers) && s.subscribers.lock.Some?
    ensures var a := Subscribing(SubscriberStep(s));
            Enabled(s, a) && Apply(s, a).teardown == s.teardown && Work(Apply(s, a)) < Work(s)
  {
    assert s.subscribers.entries[s.subscribers.lock.value].phase.HoldsLock();
  }

  lemma FailStepWorks(s: State, n: nat)
    requires s.teardown.Failing? && n in s.requests.failing
    ensures var a := FailOne(n);
            Enabled(s, a) && Apply(s, a).teardown == s.teardown && Work(Apply(s, a)) < Work(s)
  {
    assert |s.requests.failing - {n}| < |s.requests.failing|;
  }

  /** What has to happen next for the teardown to get on. */
  lemma NextStep(s: State) returns (a: Action)
    requires Inv(s) && s.teardown != Idle && !s.teardown.Finished?
    ensures Finishing(a) && Enabled(s, a)
    ensures var s' := Apply(s, a);
            || s.teardown.Rank() < s'.teardown.Rank()
            || (s'.teardown == s.teardown && Work(s') < Work(s))
  {
    hide P.Apply, P.LockInv, P.PlacesInv, P.AnswerInv, P.FiledInv, S.Apply, S.LockInv, Work;
    if s.teardown.Won? && s.requests.lock.Some? {
      a := Do(HolderStep(s));
      HolderStepWorks(s);
    } else if s.teardown.Won? {
      a := Drain;
    } else if s.teardown.Failing? && s.requests.failing != {} {
      var n :| n in s.requests.failing;
      a := FailOne(n);
      FailStepWorks(s, n);
    } else if s.teardown.Failing? {
      a := DrainDone;
    } else if s.subscribers.lock.Some? {
      a := Subscribing(SubscriberStep(s));
      SubscriberStepWorks(s);
    } else {
      a := ClearSubscribers;
    }
  }

  /** The teardown never needs more than the current lock holders' own next steps in order to finish. */
  lemma {:induction false} TeardownCanFinish(s: State) returns (run: seq<Action>)
    requires Inv(s) && s.teardown != Idle
    ensures Feasible(s, run) && Execute(s, run).teardown.Finished?
    ensures forall i :: 0 <= i < |run| ==> Finishing(run[i])
    decreases 4 - s.teardown.Rank(), Work(s)
  {
    hide Apply, Enabled, Work, Inv, Finishing;
    run := [];
    if !s.teardown.Finished? {
      var a := NextStep(s);
      Step(s, a);
      var more := TeardownCanFinish(Apply(s, a));
      run := [a] + more;
      assert run[1..] == more;
    }
  }

  // ---- The operations, uninterrupted -------------------------------------------------------

  function ViewOf(s: State): Snapshot {
    Snapshot(s.closed, s.requests.commands, s.subscribers.table, s.requests.sent)
  }

  /** The steps of a registration, taken without interruption, do what `Shared.Register` does. */
  lemma UninterruptedRegister(s: State, n: nat) returns (run: seq<Action>)
    requires P.At(s.requests, n, P.Allocated) && s.requests.lock == None
    ensures Feasible(s, run)
    ensures ViewOf(Execute(s, run)) == Registered(ViewOf(s), P.Id(n), n)
    ensures P.At(Execute(s, run).requests, n, if s.closed.Some? then P.Refused else P.Waiting)
    ensures Execute(s, run).requests.lock == None
  {
    hide P.Id, Feasible, Execute;
    var s1 := Apply(s, Do(P.Lock(n)));
    var s2 := Apply(s1, Do(P.Test(n, s.closed.Some?)));
    if s.closed.Some? {
      run := [Do(P.Lock(n)), Do(P.Test(n, true))];
      TwoSteps(s, run[0], run[1]);
    } else {
      var s3 := Apply(s2, Do(P.Insert(n)));
      var first, second := [Do(P.Lock(n)), Do(P.Test(n, false))], [Do(P.Insert(n)), Do(P.Unlock(n))];
      TwoSteps(s, first[0], first[1]);
      TwoSteps(s2, second[0], second[1]);
      ExecuteAppend(s, first, second);
      run := first + second;
    }
  }

  /** The steps of a subscription, taken without interruption, do what `Shared.Subscribe` does. */
  lemma UninterruptedSubscribe(s: State, k: nat) returns (run: seq<Action>)
    requires S.At(s.subscribers, k, S.Fresh) && s.subscribers.lock == None
    ensures Feasible(s, run)
    ensures ViewOf(Execute(s, run)) == Subscribed(ViewOf(s), s.subscribers.entries[k].handle, k)
    ensures S.At(Execute(s, run).subscribers, k, if s.closed.Some? then S.Refused else S.Subscribed)
    ensures Execute(s, run).subscribers.lock == None
  {
    hide Feasible, Execute;
    var s1 := Apply(s, Subscribing(S.Lock(k)));
    var s2 := Apply(s1, Subscribing(S.Test(k, s.closed.Some?)));
    if s.closed.Some? {
      run := [Subscribing(S.Lock(k)), Subscribing(S.Test(k, true))];
      TwoSteps(s, run[0], run[1]);
    } else {
      var first := [Subscribing(S.Lock(k)), Subscribing(S.Test(k, false))];
      var second := [Subscribing(S.Insert(k)), Subscribing(S.Unlock(k))];
      TwoSteps(s, first[0], first[1]);
      TwoSteps(s2, second[0], second[1]);
      ExecuteAppend(s, first, second);
      run := first + second;
    }
  }

  /**
    * The reply to a waiting request, with nothing in between: the reader finds its sender under the invoke
    * ID as `Shared.RemovePending` does, the request gets the reply, the counter is reset, and when its guard
    * is gone nothing of it is left but the answer.
    */
  lemma UninterruptedAnswer(s: State, n: nat) returns (run: seq<Action>)
    requires P.At(s.requests, n, P.Waiting) && P.InMap(s.requests, n)
    requires s.requests.lock == None && s.requests.reader == None
    ensures Feasible(s, run)
    ensures ViewOf(Execute(s, run)) == ViewOf(s).(
            commands := s.requests.commands - {P.Id(n)}, sent := s.requests.sent[n := Answered(P.Id(n))])
    ensures P.At(Execute(s, run).requests, n, P.Gone) && Execute(s, run).requests.dropped == s.requests.dropped
    ensures Execute(s, run).timeouts == 0 && Execute(s, run).attempts == s.attempts
  {
    hide P.Id, Feasible, Execute;
    var first := [Do(P.ReaderTake(P.Id(n))), Do(P.ReaderSend)];
    var second := [Leave(n, GotMessage), Do(P.DropGuard(n))];
    TwoSteps(s, first[0], first[1]);
    TwoSteps(Apply(Apply(s, first[0]), first[1]), second[0], second[1]);
    ExecuteAppend(s, first, second);
    run := first + second;
    assert s.requests.commands - {P.Id(n)} - {P.Id(n)} == s.requests.commands - {P.Id(n)};
  }

  lemma TwoSteps(s: State, a: Action, b: Action)
    requires Enabled(s, a) && Enabled(Apply(s, a), b)
    ensures Feasible(s, [a, b]) && Execute(s, [a, b]) == Apply(Apply(s, a), b)
  {
    hide Apply, Enabled;
    var s' := Apply(s, a);
    assert [a, b][1..] == [b] && [b][1..] == [];
    assert Feasible(Apply(s', b), []) && Feasible(s', [b]);
    assert Execute(s', [b]) == Execute(Apply(s', b), []);
  }

  /** The failing loop, whatever order it takes the senders in. */
  lemma {:induction false} FailEverySender(s: State) returns (run: seq<Action>)
    requires s.teardown.Failing?
    ensures Feasible(s, run)
    ensures Execute(s, run) == s.(requests := s.requests.(
              failing := {}, sent := FailAll(s.requests.sent, s.requests.failing, s.teardown.reason)))
    decreases |s.requests.failing|
  {
    hide FailAll;
    run := [];
    if s.requests.failing == {} {
      FailNone(s.requests.sent, s.teardown.reason);
    } else {
      var n :| n in s.requests.failing;
      var s' := Apply(s, FailOne(n));
      assert |s.requests.failing - {n}| < |s.requests.failing|;
      var more := FailEverySender(s');
      FailFirst(s.requests.sent, s.requests.failing, n, s.teardown.reason);
      run := [FailOne(n)] + more;
      assert run[1..] == more;
    }
  }

  lemma FailFirst(sent: map<nat, Message>, senders: set<nat>, n: nat, reason: Error)
    requires n in senders
    ensures FailAll(sent, senders, reason) == FailAll(sent[n := Failed(reason)], senders - {n}, reason)
  {
  }

  /** From the drain on. */
  lemma FinishWithoutInterruption(s: State) returns (run: seq<Action>)
    requires s.teardown.Won? && s.requests.lock == None && s.subscribers.lock == None && s.requests.failing == {}
    ensures Feasible(s, run)
    ensures ViewOf(Execute(s, run))
         == Snapshot(s.closed, map[], map[], FailAll(s.requests.sent, s.requests.commands.Values, s.teardown.reason))
  {
    hide FailAll, Execute;
    var s1 := Apply(s, Drain);
    assert s1.requests.failing == s.requests.commands.Values;
    var failing := FailEverySender(s1);
    var s2, last := Execute(s1, failing), [DrainDone, ClearSubscribers];
    TwoSteps(s2, DrainDone, ClearSubscribers);
    ExecuteAppend(s1, failing, last);
    OneStep(s, Drain);
    ExecuteAppend(s, [Drain], failing + last);
    run := [Drain] + (failing + last);
  }

  lemma OneStep(s: State, a: Action)
    requires Enabled(s, a)
    ensures Feasible(s, [a]) && Execute(s, [a]) == Apply(s, a)
  {
    hide Apply, Enabled;
    assert [a][1..] == [];
    assert Execute(Apply(s, a), []) == Apply(s, a);
  }

  /** The steps of a teardown, taken without interruption, do what `Shared.TearDown` does. */
  lemma UninterruptedTearDown(s: State, reason: Error) returns (run: seq<Action>)
    requires Inv(s) && s.requests.lock == None && s.subscribers.lock == None
    ensures Feasible(s, run)
    ensures ViewOf(Execute(s, run)) == TornDown(ViewOf(s), reason)
  {
    hide FailAll, Execute, P.Inv, S.LockInv;
    TwoSteps(s, BeginTeardown(reason), SetClosed(reason));
    var begin := [BeginTeardown(reason), SetClosed(reason)];
    run := begin;
    if s.closed == None {
      var rest := FinishWithoutInterruption(Execute(s, begin));
      ExecuteAppend(s, begin, rest);
      run := begin + rest;
    }
  }
}
