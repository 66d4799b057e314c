/**
  * The pending map, its lock, and the one-shot senders that pass through it, one shared access a
  * step: a registration takes the lock, tests `closed`, inserts and unlocks.
  */
module Pending {
  import opened Outcomes
  import opened Bytes
  import opened SharedState

  /** A request, from the allocation of its invoke ID to the drop of its guard. */
  datatype Phase =
    | Allocated            // has an invoke ID
    | Locked               // holds the command lock
    | Open                 // holds it, and has seen that the connection is not closed
    | Inserted             // holds it, and has put its sender into the map
    | Waiting              // has released it; waits for the reply
    | Leaving              // has an outcome, or was cancelled; its guard is still there
    | Gone                 // its guard has been dropped
    | Refused              // was not registered
  {
    /** Its sender has been handed to the map at some time. */
    predicate HasSender() {
      Inserted? || Waiting? || Leaving? || Gone?
    }

    /** Its sender has been handed to the map, and its guard is still there. */
    predicate Live() {
      Inserted? || Waiting? || Leaving?
    }

    predicate HoldsLock() {
      Locked? || Open? || Inserted?
    }
  }

  /** A reply the reader has matched: its invoke ID, and the sender found under it. */
  datatype Hand = Hand(invokeId: u32, sender: nat)

  /** `failing` are the senders a teardown has taken out of the map and not failed yet. */
  datatype Requests = Requests(
    phases: seq<Phase>,
    lock: Option<nat>,
    commands: map<u32, nat>,
    reader: Option<Hand>,
    failing: set<nat>,
    sent: map<nat, Message>,
    dropped: set<nat>)

  /** The invoke ID of the n-th request: the counter starts at 1 and wraps. */
  function Id(n: nat): u32 {
    (1 + n) % U32_LIMIT
  }

  datatype Op =
    | Allocate
    | Lock(n: nat)
    | Test(n: nat, closed: bool)
    | Insert(n: nat)
    | Unlock(n: nat)
    | Leave(n: nat)
    | DropGuard(n: nat)
    | ReaderTake(invokeId: u32)
    | ReaderSend
    | Drain
    | Fail(n: nat, reason: Error)

  predicate At(r: Requests, n: nat, p: Phase) {
    n < |r.phases| && r.phases[n] == p
  }

  predicate Enabled(r: Requests, op: Op) {
    match op
    case Allocate => true
    case Lock(n) => At(r, n, Allocated) && r.lock == None
    case Test(n, _) => At(r, n, Locked)
    case Insert(n) => At(r, n, Open)
    case Unlock(n) => At(r, n, Inserted)
    case Leave(n) => At(r, n, Waiting)
    case DropGuard(n) => At(r, n, Leaving) && r.lock == None
    case ReaderTake(_) => r.reader == None && r.lock == None
    case ReaderSend => r.reader.Some?
    case Drain => r.lock == None
    case Fail(n, _) => n in r.failing
  }

  function Move(r: Requests, n: nat, p: Phase): Requests
    requires n < |r.phases|
  {
    r.(phases := r.phases[n := p])
  }

  /** A sender that is overwritten, or removed without being used, is dropped. */
  function Lost(r: Requests, invokeId: u32): set<nat> {
    if invokeId in r.commands then {r.commands[invokeId]} else {}
  }

  function Apply(r: Requests, op: Op): Requests
    requires Enabled(r, op)
  {
    match op
    case Allocate => r.(phases := r.phases + [Allocated])
    case Lock(n) => Move(r, n, Locked).(lock := Some(n))
    case Test(n, closed) => if closed then Move(r, n, Refused).(lock := None) else Move(r, n, Open)
    case Insert(n) =>
      Move(r, n, Inserted).(commands := r.commands[Id(n) := n], dropped := r.dropped + Lost(r, Id(n)))
    case Unlock(n) => Move(r, n, Waiting).(lock := None)
    case Leave(n) => Move(r, n, Leaving)
    case DropGuard(n) =>
      Move(r, n, Gone).(commands := r.commands - {Id(n)}, dropped := r.dropped + Lost(r, Id(n)))
    case ReaderTake(id) =>
      if id in r.commands then r.(commands := r.commands - {id}, reader := Some(Hand(id, r.commands[id]))) else r
    case ReaderSend =>
      r.(reader := None, sent := r.sent[r.reader.value.sender := Answered(r.reader.value.invokeId)])
    case Drain => r.(commands := map[], failing := r.failing + r.commands.Values)
    case Fail(n, reason) => r.(sent := r.sent[n := Failed(reason)], failing := r.failing - {n})
  }

  // ---- Where a sender is -------------------------------------------------------------------

  function One(b: bool): nat {
    if b then 1 else 0
  }

  predicate InMap(r: Requests, n: nat) {
    Id(n) in r.commands && r.commands[Id(n)] == n
  }

  predicate InReader(r: Requests, n: nat) {
    r.reader.Some? && r.reader.value.sender == n
  }

  /** In how many places the sender of request `n` is. */
  function Places(r: Requests, n: nat): nat {
    One(InMap(r, n)) + One(InReader(r, n)) + One(n in r.failing) + One(n in r.sent) + One(n in r.dropped)
  }

  predicate HasSender(r: Requests, n: nat) {
    n < |r.phases| && r.phases[n].HasSender()
  }

  // ---- What every step keeps ---------------------------------------------------------------

  /** The lock is held exactly by the request that is inside its registration. */
  predicate LockInv(r: Requests) {
    && (forall n :: 0 <= n < |r.phases| ==> (r.phases[n].HoldsLock() <==> r.lock == Some(n)))
    && (r.lock.Some? ==> r.lock.value < |r.phases|)
  }

  /** The map files each sender under its own request's invoke ID. */
  predicate FiledInv(r: Requests) {
    forall id :: id in r.commands ==> r.commands[id] < |r.phases| && Id(r.commands[id]) == id
  }

  /** A reply only ever goes to a request with its invoke ID. */
  predicate AnswerInv(r: Requests) {
    && (r.reader.Some? ==> Id(r.reader.value.sender) == r.reader.value.invokeId)
    && (forall n :: n in r.sent && r.sent[n].Answered? ==> r.sent[n].invokeId == Id(n))
  }

  /** Every sender that exists is in exactly one place, and nothing else is in any. */
  ghost predicate PlacesInv(r: Requests) {
    forall n: nat :: Places(r, n) == One(HasSender(r, n))
  }

  ghost predicate Inv(r: Requests) {
    LockInv(r) && FiledInv(r) && AnswerInv(r) && PlacesInv(r)
  }

  lemma LockStep(r: Requests, op: Op)
    requires LockInv(r) && Enabled(r, op)
    ensures LockInv(Apply(r, op))
  {
  }

  lemma FiledStep(r: Requests, op: Op)
    requires FiledInv(r) && Enabled(r, op)
    ensures FiledInv(Apply(r, op))
  {
    hide Id;
  }

  lemma AnswerStep(r: Requests, op: Op)
    requires FiledInv(r) && AnswerInv(r) && Enabled(r, op)
    ensures AnswerInv(Apply(r, op))
  {
    hide Id;
  }

  lemma SenderPlaces(r: Requests, n: nat)
    requires PlacesInv(r)
    ensures Places(r, n) == One(HasSender(r, n))
  {
  }

  /** Each step moves a sender from one place to one other, or leaves it where it is. */
  lemma PlaceStep(r: Requests, op: Op, n: nat)
    requires FiledInv(r) && PlacesInv(r) && Enabled(r, op)
    ensures Places(Apply(r, op), n) == One(HasSender(Apply(r, op), n))
  {
    hide Id, PlacesInv;
    SenderPlaces(r, n);
    match op
    case Insert(m) => SenderPlaces(r, m);
    case Drain => assert n in r.commands.Values <==> InMap(r, n);
    case _ =>
  }

  lemma PlacesStep(r: Requests, op: Op)
    requires FiledInv(r) && PlacesInv(r) && Enabled(r, op)
    ensures PlacesInv(Apply(r, op))
  {
    hide Apply, Places, HasSender;
    forall n: nat
      ensures Places(Apply(r, op), n) == One(HasSender(Apply(r, op), n))
    {
      PlaceStep(r, op, n);
    }
  }

  /** In every interleaving, no sender is lost or duplicated. */
  lemma Step(r: Requests, op: Op)
    requires Inv(r) && Enabled(r, op)
    ensures Inv(Apply(r, op))
  {
    hide Apply, LockInv, FiledInv, AnswerInv, PlacesInv;
    LockStep(r, op);
    FiledStep(r, op);
    AnswerStep(r, op);
    PlacesStep(r, op);
  }

  /** The map is empty, and nobody is past the test that lets it insert. */
  predicate Shut(r: Requests) {
    r.commands == map[] && (r.lock.Some? ==> At(r, r.lock.value, Locked))
  }

  /** Once shut, the map stays shut as long as every test sees that the connection is closed. */
  lemma ShutStep(r: Requests, op: Op)
    requires LockInv(r) && Shut(r) && Enabled(r, op) && (op.Test? ==> op.closed)
    ensures Shut(Apply(r, op))
  {
    hide Id;
  }

  /** A drain waits for the lock, so whoever had passed the test has inserted, and is drained too. */
  lemma DrainShuts(r: Requests)
    requires Enabled(r, Drain)
    ensures Shut(Apply(r, Drain))
  {
  }

  // ---- Wrapped invoke IDs ------------------------------------------------------------------

  /** Every request whose guard still exists is younger than 2^32 allocations. */
  predicate Young(r: Requests) {
    forall n :: 0 <= n < |r.phases| && r.phases[n].Live() ==> |r.phases| - n <= U32_LIMIT
  }

  lemma IdInjective(m: nat, n: nat)
    requires Id(m) == Id(n)
    requires -U32_LIMIT < m - n < U32_LIMIT
    ensures m == n
  {
  }

  /** Only live requests are in the map, and a sender is only dropped by its own request's guard. */
  predicate OwnInv(r: Requests) {
    && (forall id :: id in r.commands ==> r.commands[id] < |r.phases| && r.phases[r.commands[id]].Live())
    && (forall n :: n in r.dropped ==> At(r, n, Gone))
  }

  lemma OwnInsert(r: Requests, n: nat)
    requires FiledInv(r) && OwnInv(r) && Enabled(r, Insert(n)) && Young(Apply(r, Insert(n)))
    ensures Id(n) !in r.commands
    ensures OwnInv(Apply(r, Insert(n)))
  {
    hide Id;
    var r' := Apply(r, Insert(n));
    if Id(n) in r.commands {
      var m := r.commands[Id(n)];
      assert r'.phases[m].Live() && r'.phases[n].Live();
      IdInjective(m, n);
    }
  }

  lemma OwnDrop(r: Requests, n: nat)
    requires FiledInv(r) && OwnInv(r) && Enabled(r, DropGuard(n)) && Young(r)
    ensures Id(n) in r.commands ==> r.commands[Id(n)] == n
    ensures OwnInv(Apply(r, DropGuard(n)))
  {
    hide Id;
    if Id(n) in r.commands {
      var m := r.commands[Id(n)];
      assert r.phases[m].Live() && r.phases[n].Live();
      IdInjective(m, n);
    }
  }

  /** While live requests stay young, a step never displaces or removes another request's sender. */
  lemma OwnStep(r: Requests, op: Op)
    requires FiledInv(r) && OwnInv(r) && Enabled(r, op) && Young(r) && Young(Apply(r, op))
    ensures OwnInv(Apply(r, op))
  {
    hide Id, Young;
    match op
    case Insert(n) => OwnInsert(r, n);
    case DropGuard(n) => OwnDrop(r, n);
    case _ =>
  }

  /**
    * Reply isolation.  A peer's reply to request `k` bears `k`'s wrapped invoke ID.  The sender
    * found under it is `k`'s own exactly when fewer than 2^32 requests have been made since `k`;
    * a later one would reach whichever live request has taken over the ID.
    */
  lemma ReplyIsolation(r: Requests, k: nat)
    requires FiledInv(r) && OwnInv(r) && Young(r) && k < |r.phases|
    requires Id(k) in r.commands
    ensures r.commands[Id(k)] == k <==> |r.phases| - k <= U32_LIMIT
  {
    hide Id;
    var m := r.commands[Id(k)];
    if |r.phases| - k <= U32_LIMIT {
      IdInjective(m, k);
    }
  }
}
