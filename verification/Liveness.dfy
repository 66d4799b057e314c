/** That a teardown finishes, under any schedule that is fair to the steps it waits for. */
module Liveness {
  import opened Outcomes
  import opened Bytes
  import opened Protocol
  import P = Pending
  import S = Subscriptions

  /** An endless execution: the action at each moment, and the states before them. */
  ghost predicate Follows(states: nat -> State, actions: nat -> Action) {
    forall i: nat :: Enabled(states(i), actions(i)) && states(i + 1) == Apply(states(i), actions(i))
  }

  ghost predicate EnabledAgain(states: nat -> State, a: Action, i: nat) {
    exists j: nat :: i <= j && Enabled(states(j), a)
  }

  ghost predicate TakenAgain(actions: nat -> Action, a: Action, i: nat) {
    exists j: nat :: i <= j && actions(j) == a
  }

  /** An action that is possible again and again is taken again and again. */
  ghost predicate FairTo(states: nat -> State, actions: nat -> Action, a: Action) {
    (forall i: nat :: EnabledAgain(states, a, i)) ==> forall i: nat :: TakenAgain(actions, a, i)
  }

  /** Fair to the steps of lock holders and of the teardown; nothing is asked of any other step. */
  ghost predicate Fair(states: nat -> State, actions: nat -> Action) {
    forall a: Action :: Finishing(a) ==> FairTo(states, actions, a)
  }

  ghost predicate Execution(states: nat -> State, actions: nat -> Action) {
    Follows(states, actions) && Fair(states, actions) && Inv(states(0))
  }

  lemma {:induction false} InvAt(states: nat -> State, actions: nat -> Action, i: nat)
    requires Execution(states, actions)
    ensures Inv(states(i))
  {
    hide Inv, Enabled, Apply;
    if i > 0 {
      InvAt(states, actions, i - 1);
      Step(states(i - 1), actions(i - 1));
      assert states(i - 1 + 1) == Apply(states(i - 1), actions(i - 1));
    }
  }

  lemma {:induction false} RankGrows(states: nat -> State, actions: nat -> Action, i: nat, j: nat)
    requires Execution(states, actions) && i <= j
    ensures states(i).teardown.Rank() <= states(j).teardown.Rank()
    ensures states(i).closed.Some? ==> states(j).closed == states(i).closed
    decreases j
  {
    hide Inv, Enabled, Apply;
    if i < j {
      RankGrows(states, actions, i, j - 1);
      InvAt(states, actions, j - 1);
      OneWayStep(states(j - 1), actions(j - 1));
      assert states(j - 1 + 1) == Apply(states(j - 1), actions(j - 1));
    }
  }

  lemma FairTakes(states: nat -> State, actions: nat -> Action, a: Action, i: nat)
    requires FairTo(states, actions, a) && forall m: nat :: EnabledAgain(states, a, m)
    ensures exists k: nat :: i <= k && actions(k) == a
  {
    assert TakenAgain(actions, a, i);
  }

  // ---- Goals that fair steps drive to ------------------------------------------------------

  /** What is to become true, the step it waits for, and how much is left. */
  datatype Goal = Goal(next: State -> Action, work: State -> nat, done: State -> bool)

  /** Whatever step is taken, it brings the goal nearer or leaves the awaited step awaited. */
  ghost predicate Drives(g: Goal) {
    forall s: State, a: Action :: Inv(s) && s.closed.Some? && !g.done(s) && Enabled(s, a) ==> DrivenBy(g, s, a)
  }

  ghost predicate DrivenBy(g: Goal, s: State, a: Action)
    requires Enabled(s, a)
  {
    var s' := Apply(s, a);
    && Finishing(g.next(s)) && Enabled(s, g.next(s))
    && (|| g.done(s')
        || g.work(s') < g.work(s)
        || (a != g.next(s) && g.next(s') == g.next(s) && g.work(s') == g.work(s)))
  }

  lemma GoalStep(states: nat -> State, actions: nat -> Action, g: Goal, i: nat)
    requires Execution(states, actions) && Drives(g) && states(i).closed.Some? && !g.done(states(i))
    ensures Finishing(g.next(states(i))) && Enabled(states(i), g.next(states(i)))
    ensures states(i + 1).closed.Some?
    ensures var s, s' := states(i), states(i + 1);
            || g.done(s')
            || g.work(s') < g.work(s)
            || (actions(i) != g.next(s) && g.next(s') == g.next(s) && g.work(s') == g.work(s))
  {
    hide Inv, Enabled, Apply, Finishing;
    InvAt(states, actions, i);
    RankGrows(states, actions, i, i + 1);
    assert DrivenBy(g, states(i), actions(i));
  }

  /** No progress up to moment `j`. */
  ghost predicate Stuck(states: nat -> State, g: Goal, i: nat, j: nat) {
    forall k: nat :: i <= k <= j ==> !g.done(states(k)) && g.work(states(k)) >= g.work(states(i))
  }

  lemma {:induction false} StuckWaits(states: nat -> State, actions: nat -> Action, g: Goal, i: nat, j: nat)
    requires Execution(states, actions) && Drives(g) && states(i).closed.Some? && i <= j && Stuck(states, g, i, j)
    ensures states(j).closed.Some? && g.next(states(j)) == g.next(states(i)) && g.work(states(j)) == g.work(states(i))
    ensures Enabled(states(j), g.next(states(i))) && Finishing(g.next(states(i)))
    ensures forall k: nat :: i <= k < j ==> actions(k) != g.next(states(i))
    decreases j
  {
    hide Inv, Enabled, Apply, Finishing, Drives, Execution;
    if i < j {
      StuckWaits(states, actions, g, i, j - 1);
      GoalStep(states, actions, g, j - 1);
      assert !g.done(states(j - 1 + 1)) && g.work(states(j - 1 + 1)) >= g.work(states(i));
    }
    GoalStep(states, actions, g, j);
  }

  /** Every goal that fair steps drive to is reached. */
  lemma {:induction false} GoalReached(states: nat -> State, actions: nat -> Action, g: Goal, i: nat) returns (j: nat)
    requires Execution(states, actions) && Drives(g) && states(i).closed.Some?
    ensures i <= j && g.done(states(j))
    decreases g.work(states(i))
  {
    hide Inv, Enabled, Apply, Finishing, Drives, Execution;
    if g.done(states(i)) {
      j := i;
    } else {
      var k := GoalMoves(states, actions, g, i);
      if g.done(states(k)) {
        j := k;
      } else {
        RankGrows(states, actions, i, k);
        j := GoalReached(states, actions, g, k);
      }
    }
  }

  lemma GoalMoves(states: nat -> State, actions: nat -> Action, g: Goal, i: nat) returns (k: nat)
    requires Execution(states, actions) && Drives(g) && states(i).closed.Some? && !g.done(states(i))
    ensures i <= k && (g.done(states(k)) || g.work(states(k)) < g.work(states(i)))
  {
    hide Inv, Enabled, Apply, Finishing, Drives;
    var a := g.next(states(i));
    if !exists k: nat :: i <= k && (g.done(states(k)) || g.work(states(k)) < g.work(states(i))) {
      forall m: nat
        ensures EnabledAgain(states, a, m)
      {
        var j := if m < i then i else m;
        StuckWaits(states, actions, g, i, j);
        assert Enabled(states(j), a);
      }
      StuckWaits(states, actions, g, i, i);
      FairTakes(states, actions, a, i);
      var k: nat :| i <= k && actions(k) == a;
      StuckWaits(states, actions, g, i, k + 1);
    }
    k :| i <= k && (g.done(states(k)) || g.work(states(k)) < g.work(states(i)));
  }

  // ---- The locks are released again and again ----------------------------------------------

  function NextOfHolder(s: State): Action {
    if P.LockInv(s.requests) && s.requests.lock.Some? then Do(HolderStep(s)) else DrainDone
  }

  ghost function CommandsFree(): Goal {
    Goal(s => NextOfHolder(s), (s: State) => CommandWork(s.requests), (s: State) => s.requests.lock == None)
  }

  /** Until the holder of the command lock takes its own next step, it stays where it is. */
  lemma HolderStays(r: P.Requests, op: P.Op, closed: bool)
    requires P.LockInv(r) && r.lock.Some? && P.Enabled(r, op) && (op.Test? ==> op.closed == closed)
    requires op != HolderOp(r, closed)
    ensures var r' := P.Apply(r, op);
            r'.lock == r.lock && r.lock.value < |r'.phases| && r'.phases[r.lock.value] == r.phases[r.lock.value]
  {
    hide P.Id;
    assert r.phases[r.lock.value].HoldsLock();
  }

  function HolderOp(r: P.Requests, closed: bool): P.Op
    requires P.LockInv(r) && r.lock.Some?
  {
    var n := r.lock.value;
    assert r.phases[n].HoldsLock();
    match r.phases[n]
    case Locked => P.Test(n, closed)
    case Open => P.Insert(n)
    case Inserted => P.Unlock(n)
  }

  /** The part of an action that concerns the pending map, if any. */
  function OpOf(s: State, a: Action): Option<P.Op>
    requires Enabled(s, a)
  {
    match a
    case Do(op) => Some(op)
    case Leave(n, _) => Some(P.Leave(n))
    case Drain => Some(P.Drain)
    case FailOne(n) => Some(P.Fail(n, s.teardown.reason))
    case _ => None
  }

  lemma OpApplies(s: State, a: Action)
    requires Enabled(s, a)
    ensures Apply(s, a).requests
         == match OpOf(s, a) { case None => s.requests case Some(op) => P.Apply(s.requests, op) }
    ensures OpOf(s, a).Some? ==>
              var op := OpOf(s, a).value;
              && P.Enabled(s.requests, op)
              && (op.Test? ==> op.closed == s.closed.Some?)
              && (op.Test? || op.Insert? || op.Unlock? ==> a == Do(op))
    ensures Apply(s, a).subscribers
         == match a
            case Subscribing(sop) => S.Apply(s.subscribers, sop)
            case ClearSubscribers => S.Apply(s.subscribers, S.Clear)
            case _ => s.subscribers
  {
    hide P.Apply, P.Enabled, S.Apply, S.Enabled;
  }

  lemma CommandStep(s: State, a: Action)
    requires Enabled(s, a) && s.closed.Some? && Apply(s, a).closed == s.closed
    requires P.LockInv(s.requests) && P.LockInv(Apply(s, a).requests) && s.requests.lock.Some?
    ensures DrivenBy(CommandsFree(), s, a)
  {
    hide Apply, Enabled, P.Apply, P.Enabled, P.LockInv, S.Apply, S.Enabled;
    HolderStepIs(s);
    HolderStepWorks(s);
    OpApplies(s, a);
    HolderHolds(s.requests);
    if OpOf(s, a).Some? {
      var op := OpOf(s, a).value;
      if op == HolderOp(s.requests, true) {
        HolderMoves(s.requests, op);
      } else {
        HolderStays(s.requests, op, true);
      }
    }
  }

  lemma HolderStepIs(s: State)
    requires P.LockInv(s.requests) && s.requests.lock.Some?
    ensures HolderStep(s) == HolderOp(s.requests, s.closed.Some?)
  {
  }

  lemma HolderHolds(r: P.Requests)
    requires P.LockInv(r) && r.lock.Some?
    ensures r.lock.value < |r.phases| && r.phases[r.lock.value].HoldsLock()
  {
  }

  lemma CommandsFreeDriven()
    ensures Drives(CommandsFree())
  {
    hide Apply, Enabled, DrivenBy, P.PlacesInv, P.FiledInv, P.AnswerInv, ReasonInv, DrainedInv, ClearedInv;
    hide S.LockInv, P.LockInv;
    forall s: State, a: Action | Inv(s) && s.closed.Some? && !CommandsFree().done(s) && Enabled(s, a)
      ensures DrivenBy(CommandsFree(), s, a)
    {
      Step(s, a);
      OneWayStep(s, a);
      CommandStep(s, a);
    }
  }

  ghost function SubscribersFree(): Goal {
    Goal(
      s => NextOfSubscriber(s),
      (s: State) => SubscriberWork(s.subscribers),
      (s: State) => s.subscribers.lock == None)
  }

  function NextOfSubscriber(s: State): Action {
    if S.LockInv(s.subscribers) && s.subscribers.lock.Some? then Subscribing(SubscriberStep(s)) else DrainDone
  }

  lemma SubscriberStays(t: S.Subscribers, op: S.Op, closed: bool)
    requires S.LockInv(t) && t.lock.Some? && S.Enabled(t, op) && (op.Test? ==> op.closed == closed)
    ensures var t' := S.Apply(t, op);
            if op == SubscriberOp(t, closed) then SubscriberWork(t') < SubscriberWork(t)
            else t'.lock == t.lock && t.lock.value < |t'.entries|
                 && t'.entries[t.lock.value].phase == t.entries[t.lock.value].phase
  {
    assert t.entries[t.lock.value].phase.HoldsLock();
  }

  function SubscriberOp(t: S.Subscribers, closed: bool): S.Op
    requires S.LockInv(t) && t.lock.Some?
  {
    var k := t.lock.value;
    assert t.entries[k].phase.HoldsLock();
    match t.entries[k].phase
    case Locked => S.Test(k, closed)
    case Open => S.Insert(k)
    case Inserted => S.Unlock(k)
  }

  lemma SubscriberStepIs(s: State)
    requires S.LockInv(s.subscribers) && s.subscribers.lock.Some?
    ensures SubscriberStep(s) == SubscriberOp(s.subscribers, s.closed.Some?)
    ensures s.subscribers.lock.value < |s.subscribers.entries|
  {
  }

  lemma SubscriberMoves(s: State, a: Action)
    requires Enabled(s, a) && s.closed.Some? && Apply(s, a).closed == s.closed
    requires S.LockInv(s.subscribers) && S.LockInv(Apply(s, a).subscribers) && s.subscribers.lock.Some?
    ensures DrivenBy(SubscribersFree(), s, a)
  {
    hide Apply, P.Apply, P.Enabled, S.Apply, S.LockInv, S.Enabled;
    SubscriberStepIs(s);
    SubscriberStepWorks(s);
    OpApplies(s, a);
    if a.Subscribing? {
      SubscriberStays(s.subscribers, a.sop, true);
    } else if a.ClearSubscribers? {
      SubscriberStays(s.subscribers, S.Clear, true);
    }
  }

  lemma SubscribersFreeDriven()
    ensures Drives(SubscribersFree())
  {
    hide Apply, Enabled, DrivenBy, P.PlacesInv, P.FiledInv, P.AnswerInv, ReasonInv, DrainedInv, ClearedInv;
    hide S.LockInv, P.LockInv;
    forall s: State, a: Action | Inv(s) && s.closed.Some? && !SubscribersFree().done(s) && Enabled(s, a)
      ensures DrivenBy(SubscribersFree(), s, a)
    {
      Step(s, a);
      OneWayStep(s, a);
      SubscriberMoves(s, a);
    }
  }

  // ---- The failing loop ends ---------------------------------------------------------------

  ghost function Pick(senders: set<nat>): nat
    requires senders != {}
  {
    var n :| n in senders;
    n
  }

  ghost function NextToFail(s: State): Action {
    if s.requests.failing == {} then DrainDone else FailOne(Pick(s.requests.failing))
  }

  ghost function LoopOver(): Goal {
    Goal((s: State) => NextToFail(s), (s: State) => |s.requests.failing|, (s: State) => !s.teardown.Failing?)
  }

  lemma LoopOverDriven()
    ensures Drives(LoopOver())
  {
    hide P.Enabled, P.Apply, S.Apply, S.Enabled, S.LockInv, P.LockInv, P.PlacesInv, P.FiledInv, P.AnswerInv;
    forall s: State, a: Action | Inv(s) && s.closed.Some? && !LoopOver().done(s) && Enabled(s, a)
      ensures DrivenBy(LoopOver(), s, a)
    {
      FailingKept(s, a);
      if s.requests.failing != {} {
        FailEnabled(s.requests, Pick(s.requests.failing), s.teardown.reason);
      }
    }
  }

  lemma FailEnabled(r: P.Requests, n: nat, reason: Error)
    requires n in r.failing
    ensures P.Enabled(r, P.Fail(n, reason))
  {
  }

  lemma FailingKept(s: State, a: Action)
    requires s.teardown.Failing? && Enabled(s, a)
    ensures if a.FailOne? then |Apply(s, a).requests.failing| < |s.requests.failing|
            else Apply(s, a).requests.failing == s.requests.failing
  {
    hide P.Id, S.Apply, S.Enabled;
    if a.FailOne? {
      assert |s.requests.failing - {a.n}| < |s.requests.failing|;
    }
  }

  // ---- The teardown finishes ---------------------------------------------------------------

  lemma ClosedUnderWay(s: State)
    requires Inv(s) && s.teardown != Idle
    ensures s.closed.Some?
  {
    hide P.Inv, S.LockInv, DrainedInv, ClearedInv;
  }

  /** The one step a stage of the teardown ends with, once the lock it needs is free. */
  ghost predicate Ends(rank: nat, g: Goal, a: Action) {
    && Finishing(a)
    && (forall s: State :: s.teardown.Rank() == rank && g.done(s) ==> Enabled(s, a))
    && (forall s: State :: Enabled(s, a) ==> rank < Apply(s, a).teardown.Rank())
  }

  lemma TakenAdvances(states: nat -> State, actions: nat -> Action, i: nat, rank: nat, g: Goal, a: Action)
    requires Follows(states, actions) && Ends(rank, g, a) && exists k: nat :: i <= k && actions(k) == a
    ensures exists k: nat :: i <= k && rank < states(k).teardown.Rank()
  {
    hide Apply, Enabled, Finishing;
    var k: nat :| i <= k && actions(k) == a;
    assert Enabled(states(k), a) && states(k + 1) == Apply(states(k), a);
    assert i <= k + 1 && rank < states(k + 1).teardown.Rank();
  }

  /** A stage of the teardown that waits for a lock comes to its end. */
  lemma StageEnds(states: nat -> State, actions: nat -> Action, i: nat, g: Goal, a: Action) returns (j: nat)
    requires Execution(states, actions) && states(i).teardown != Idle
    requires Drives(g) && Ends(states(i).teardown.Rank(), g, a)
    ensures i <= j && states(i).teardown.Rank() < states(j).teardown.Rank()
  {
    hide Inv, Apply, Enabled, Finishing, Drives;
    var rank := states(i).teardown.Rank();
    InvAt(states, actions, i);
    ClosedUnderWay(states(i));
    if !exists k: nat :: i <= k && rank < states(k).teardown.Rank() {
      forall m: nat
        ensures EnabledAgain(states, a, m)
      {
        var from := if m < i then i else m;
        RankGrows(states, actions, i, from);
        var k := GoalReached(states, actions, g, from);
        RankGrows(states, actions, i, k);
        assert states(k).teardown.Rank() == rank;
        assert Enabled(states(k), a);
      }
      FairIs(states, actions, a);
      FairTakes(states, actions, a, i);
      TakenAdvances(states, actions, i, rank, g, a);
    }
    j :| i <= j && rank < states(j).teardown.Rank();
  }

  lemma DrainEnds()
    ensures Ends(1, CommandsFree(), Drain)
  {
    hide P.Apply, S.Apply, S.Enabled;
  }

  lemma ClearEnds()
    ensures Ends(3, SubscribersFree(), ClearSubscribers)
  {
    hide P.Apply, P.Enabled, S.Apply;
  }

  lemma FairIs(states: nat -> State, actions: nat -> Action, a: Action)
    requires Execution(states, actions) && Finishing(a)
    ensures FairTo(states, actions, a)
  {
    hide FairTo, Inv;
  }

  lemma NextStage(states: nat -> State, actions: nat -> Action, i: nat) returns (j: nat)
    requires Execution(states, actions) && states(i).teardown != Idle && !states(i).teardown.Finished?
    ensures i <= j && states(i).teardown.Rank() < states(j).teardown.Rank()
  {
    hide Inv, Apply, Enabled, Finishing, Drives, Execution, Ends;
    InvAt(states, actions, i);
    ClosedUnderWay(states(i));
    match states(i).teardown
    case Won(_) =>
      CommandsFreeDriven();
      DrainEnds();
      j := StageEnds(states, actions, i, CommandsFree(), Drain);
    case Failing(_) =>
      LoopOverDriven();
      j := GoalReached(states, actions, LoopOver(), i);
      RankGrows(states, actions, i, j);
    case Clearing(_) =>
      SubscribersFreeDriven();
      ClearEnds();
      j := StageEnds(states, actions, i, SubscribersFree(), ClearSubscribers);
    case _ =>
  }

  /**
    * In every endless execution that is fair to lock holders and to the teardown, a teardown that has
    * begun finishes, whatever registers, replies, times out or is cancelled meanwhile; and from then on
    * both maps are empty.
    */
  lemma {:induction false} TeardownFinishes(states: nat -> State, actions: nat -> Action, i: nat) returns (j: nat)
    requires Execution(states, actions) && states(i).teardown != Idle
    ensures i <= j && states(j).teardown.Finished?
    ensures forall k: nat :: j <= k ==> states(k).requests.commands == map[] && states(k).subscribers.table == map[]
    decreases 4 - states(i).teardown.Rank()
  {
    hide Inv, Execution;
    if states(i).teardown.Finished? {
      j := i;
      forall k: nat | j <= k
        ensures states(k).requests.commands == map[] && states(k).subscribers.table == map[]
      {
        RankGrows(states, actions, j, k);
        InvAt(states, actions, k);
        EmptyWhenFinished(states(k));
      }
    } else {
      var k := NextStage(states, actions, i);
      j := TeardownFinishes(states, actions, k);
    }
  }

  lemma EmptyWhenFinished(s: State)
    requires Inv(s) && s.teardown.Finished?
    ensures s.requests.commands == map[] && s.subscribers.table == map[]
  {
    hide P.Inv, S.LockInv, ReasonInv;
  }
}
