/**
  * The session with a device and the cache of symbol handles, which are only good for the session
  * that issued them.
  */
module Sessions {
  import opened Outcomes
  import opened Bytes

  /** A handle, tagged with the session that issued it. */
  datatype Handle = Handle(value: u32, session: nat)

  /**
    * `open` is the session of the current client, if there is one; `lost` says that its connection
    * has closed underneath.  Sessions are numbered, and `issued` of them have been opened so far.
    */
  datatype State = State(open: Option<nat>, lost: bool, issued: nat, handles: map<string, Handle>) {

    /** The session, if it is still connected. */
    function Client(): Option<nat> {
      if open.Some? && !lost then open else None
    }

    /** While the connection is open, every cached handle belongs to it. */
    ghost predicate Agrees() {
      Client().Some? ==> forall symbol :: symbol in handles ==> handles[symbol].session == Client().value
    }

    ghost predicate WellFormed() {
      && (open.Some? ==> open.value < issued)
      && forall symbol :: symbol in handles ==> handles[symbol].session < issued
    }
  }

  const INITIAL := State(None, false, 0, map[])

  /** ADS error 6, target port not found, means that the device's port is gone. */
  const PORT_GONE := 6

  predicate ShouldDisconnect(error: Error) {
    error == Ads(PORT_GONE)
  }

  // ---- Single steps, between which other tasks can run -------------------------------------

  datatype Step =
    | Lose
    | Clear
    | Drop
    | Open
    | Insert(symbol: string, handle: Handle)

  function Take(s: State, step: Step): State {
    match step
    case Lose => s.(lost := s.open.Some?)
    case Clear => s.(handles := map[])
    case Drop => s.(open := None, lost := false)
    case Open => if s.Client().Some? then s else s.(open := Some(s.issued), lost := false, issued := s.issued + 1)
    case Insert(symbol, handle) => s.(handles := s.handles[symbol := handle])
  }

  function Run(s: State, steps: seq<Step>): State
    decreases |steps|
  {
    if steps == [] then s else Run(Take(s, steps[0]), steps[1..])
  }

  /** A handle can only come from a session that has been opened. */
  predicate Possible(s: State, step: Step) {
    step.Insert? ==> step.handle.session < s.issued
  }

  predicate AllPossible(s: State, steps: seq<Step>)
    decreases |steps|
  {
    steps != [] ==> Possible(s, steps[0]) && AllPossible(Take(s, steps[0]), steps[1..])
  }

  /** A new session over a cache that was not cleared, or a handle cached for another session than the open one. */
  predicate Breaks(s: State, step: Step) {
    || (step.Open? && s.Client().None? && s.handles != map[])
    || (step.Insert? && s.Client().Some? && step.handle.session != s.Client().value)
  }

  predicate NeverBreaks(s: State, steps: seq<Step>)
    decreases |steps|
  {
    steps != [] ==> !Breaks(s, steps[0]) && NeverBreaks(Take(s, steps[0]), steps[1..])
  }

  ghost predicate AlwaysAgrees(s: State, steps: seq<Step>)
    decreases |steps|
  {
    s.Agrees() && (steps != [] ==> AlwaysAgrees(Take(s, steps[0]), steps[1..]))
  }

  /** A step loses agreement exactly when it breaks it in one of the two ways. */
  lemma StepAgreesIff(s: State, step: Step)
    requires s.WellFormed() && s.Agrees() && Possible(s, step)
    ensures Take(s, step).WellFormed()
    ensures Take(s, step).Agrees() <==> !Breaks(s, step)
  {
    var s' := Take(s, step);
    if step.Insert? {
      assert step.symbol in s'.handles && s'.handles[step.symbol] == step.handle;
    }
    if step.Open? && s.Client().None? && s.handles != map[] {
      var symbol :| symbol in s.handles;
      assert symbol in s'.handles && s'.handles[symbol].session < s'.open.value;
    }
  }

  /** Over any interleaving: the cache agrees with the session all along exactly when no step breaks it. */
  lemma {:induction false} RunAgreesIff(s: State, steps: seq<Step>)
    requires s.WellFormed() && s.Agrees() && AllPossible(s, steps)
    ensures AlwaysAgrees(s, steps) <==> NeverBreaks(s, steps)
    decreases |steps|
  {
    hide Take, Breaks, Possible;
    if steps != [] {
      StepAgreesIff(s, steps[0]);
      if !Breaks(s, steps[0]) {
        RunAgreesIff(Take(s, steps[0]), steps[1..]);
      } else {
        assert !AlwaysAgrees(Take(s, steps[0]), steps[1..]);
      }
    }
  }

  // ---- Whole methods, as single steps ------------------------------------------------------

  /** What opening a session comes to. */
  datatype Attempt = Refused | NotRunning | Running

  /** What a request over the open session comes to; `lost` says that the connection closed meanwhile. */
  datatype Reply<+T> = Reply(result: Outcome<T>, lost: bool)

  datatype Call =
    | Loss
    | Connect(attempt: Attempt)
    | Disconnect
    | LookUp(symbol: string, reply: Reply<u32>)

  function Connecting(s: State, attempt: Attempt): State {
    if s.Client().Some? then s else
    match attempt
    case Refused => State(None, false, s.issued, map[])
    case NotRunning => State(None, false, s.issued + 1, map[])
    case Running => State(Some(s.issued), false, s.issued + 1, map[])
  }

  function Disconnecting(s: State): State {
    State(None, false, s.issued, map[])
  }

  /** After a request: errors that mean the session is over end it, and the cache with it. */
  function AfterRequest<T>(s: State, reply: Reply<T>): State {
    var s' := if reply.lost then Take(s, Lose) else s;
    if reply.result.Fail? && (reply.lost || ShouldDisconnect(reply.result.error))
    then Disconnecting(s') else s'
  }

  function LookingUp(s: State, symbol: string, reply: Reply<u32>): (State, Outcome<Handle>) {
    if symbol in s.handles then (s, Ok(s.handles[symbol]))
    else if s.Client().None? then (s, Fail(Disconnected))
    else
      var s' := AfterRequest(s, reply);
      match reply.result
      case Ok(value) =>
        var handle := Handle(value, s.Client().value);
        (s'.(handles := s'.handles[symbol := handle]), Ok(handle))
      case Fail(e) => (s', Fail(e))
      case Panic => (s', Panic)
  }

  function Apply(s: State, call: Call): State {
    match call
    case Loss => Take(s, Lose)
    case Connect(attempt) => Connecting(s, attempt)
    case Disconnect => Disconnecting(s)
    case LookUp(symbol, reply) => LookingUp(s, symbol, reply).0
  }

  /** The steps a whole method takes when no other task runs in between. */
  function StepsOf(s: State, call: Call): seq<Step> {
    match call
    case Loss => [Lose]
    case Connect(attempt) =>
      if s.Client().Some? then []
      else [Clear, Drop] + (if attempt.Refused? then [] else if attempt.NotRunning? then [Open, Drop] else [Open])
    case Disconnect => [Clear, Drop]
    case LookUp(symbol, reply) =>
      if symbol in s.handles || s.Client().None? then []
      else
        var lose := if reply.lost then [Lose] else [];
        if reply.result.Ok? then lose + [Insert(symbol, Handle(reply.result.value, s.Client().value))]
        else if reply.result.Fail? && (reply.lost || ShouldDisconnect(reply.result.error)) then lose + [Clear, Drop]
        else lose
  }

  /**
    * What a request over an open session leaves behind: the session ends, and the cache is emptied with it,
    * exactly when the request fails and either the connection was lost or the error is ADS error 6.
    */
  lemma RequestEndsSessionIff<T>(s: State, reply: Reply<T>)
    requires s.Client().Some?
    ensures var s' := AfterRequest(s, reply);
            && (s'.open == None <==> reply.result.Fail? && (reply.lost || reply.result.error == Ads(6)))
            && (s'.open == None ==> s'.handles == map[] && !s'.lost)
            && (s'.open.Some? ==> s'.open == s.open && s'.handles == s.handles && s'.lost == reply.lost)
            && s'.issued == s.issued
  {
  }

  /**
    * Looking a symbol up: what is cached is given without asking; without a session nothing is asked.
    * Otherwise the device is asked once, and its handle is cached under the symbol for the session it was asked
    * over, so that the next look-up gives the same handle whatever the device would answer by then.
    */
  lemma LookUpCaches(s: State, symbol: string, reply: Reply<u32>, later: Reply<u32>)
    ensures var (s', r) := LookingUp(s, symbol, reply);
            && (symbol in s.handles ==> s' == s && r == Ok(s.handles[symbol]))
            && (symbol !in s.handles && s.Client().None? ==> s' == s && r == Fail(Disconnected))
            && (symbol !in s.handles && s.Client().Some? ==>
                  && r.Ok? == reply.result.Ok? && (reply.result.Fail? ==> r == Fail(reply.result.error))
                  && (r.Ok? ==>
                        && r.value == Handle(reply.result.value, s.Client().value)
                        && s' == s.(lost := reply.lost, handles := s.handles[symbol := r.value]))
                  && (!r.Ok? && !reply.lost && r != Fail(Ads(6)) ==> s' == s))
            && (r.Ok? ==> LookingUp(s', symbol, later) == (s', r))
  {
  }

  lemma RunTwo(s: State, a: Step, b: Step)
    ensures Run(s, [a, b]) == Take(Take(s, a), b)
    ensures NeverBreaks(s, [a, b]) <==> !Breaks(s, a) && !Breaks(Take(s, a), b)
  {
    hide Take, Breaks;
    assert [a, b][1..] == [b];
    RunOne(Take(s, a), b);
  }

  lemma {:induction false} RunAppend(s: State, a: seq<Step>, b: seq<Step>)
    ensures Run(s, a + b) == Run(Run(s, a), b)
    ensures NeverBreaks(s, a + b) <==> NeverBreaks(s, a) && NeverBreaks(Run(s, a), b)
    decreases |a|
  {
    hide Take, Breaks;
    if a == [] {
      assert a + b == b;
    } else {
      assert (a + b)[1..] == a[1..] + b;
      RunAppend(Take(s, a[0]), a[1..], b);
    }
  }

  lemma RunOne(s: State, a: Step)
    ensures Run(s, [a]) == Take(s, a) && (NeverBreaks(s, [a]) <==> !Breaks(s, a))
  {
    hide Take, Breaks;
    assert [a][1..] == [];
  }

  /** Run as a whole, a method does what its steps do, and none of them breaks the agreement. */
  lemma CallIsSteps(s: State, call: Call)
    requires s.WellFormed()
    ensures Run(s, StepsOf(s, call)) == Apply(s, call)
    ensures NeverBreaks(s, StepsOf(s, call))
  {
    hide Run, NeverBreaks;
    assert Run(s, []) == s && NeverBreaks(s, []) by {
      RunNone(s);
    }
    match call {
      case Loss =>
        RunOne(s, Lose);
      case Connect(attempt) =>
        var dropped := Take(Take(s, Clear), Drop);
        RunTwo(s, Clear, Drop);
        RunOne(dropped, Open);
        RunAppend(s, [Clear, Drop], [Open]);
        RunTwo(dropped, Open, Drop);
        RunAppend(s, [Clear, Drop], [Open, Drop]);
        assert [Clear, Drop] + [] == [Clear, Drop];
      case Disconnect =>
        RunTwo(s, Clear, Drop);
      case LookUp(symbol, reply) =>
        if symbol !in s.handles && s.Client().Some? {
          var lose: seq<Step> := if reply.lost then [Lose] else [];
          var s' := if reply.lost then Take(s, Lose) else s;
          RunOne(s, Lose);
          assert Run(s, lose) == s' && NeverBreaks(s, lose);
          RunTwo(s', Clear, Drop);
          RunAppend(s, lose, [Clear, Drop]);
          if reply.result.Ok? {
            var insert := Insert(symbol, Handle(reply.result.value, s.Client().value));
            RunOne(s', insert);
            RunAppend(s, lose, [insert]);
          }
        }
    }
  }

  lemma RunNone(s: State)
    ensures Run(s, []) == s && NeverBreaks(s, [])
  {
  }

  function Calls(s: State, calls: seq<Call>): State
    decreases |calls|
  {
    if calls == [] then s else Calls(Apply(s, calls[0]), calls[1..])
  }

  lemma CallAgrees(s: State, call: Call)
    requires s.WellFormed() && s.Agrees()
    ensures Apply(s, call).WellFormed() && Apply(s, call).Agrees()
  {
  }

  /** With every method as one step, the cache agrees with the session after any calls and losses. */
  lemma {:induction false} CallsAgree(s: State, calls: seq<Call>)
    requires s.WellFormed() && s.Agrees()
    ensures Calls(s, calls).WellFormed() && Calls(s, calls).Agrees()
    decreases |calls|
  {
    hide Apply;
    if calls != [] {
      CallAgrees(s, calls[0]);
      CallsAgree(Apply(s, calls[0]), calls[1..]);
    }
  }

  // ---- What finer interleavings do ---------------------------------------------------------

  /**
    * Connecting looks at the connection twice, and clears the cache only after the first look.
    * A connection that is lost between the two leaves the old handles to the new session.
    */
  lemma LossInsideConnect(s: State)
    requires s.WellFormed() && s.Agrees() && s.Client().Some?
    ensures Run(s, [Lose, Drop, Open]).Agrees() <==> s.handles == map[]
  {
    RunTwo(s, Lose, Drop);
    RunOne(Take(Take(s, Lose), Drop), Open);
    RunAppend(s, [Lose, Drop], [Open]);
    assert [Lose, Drop] + [Open] == [Lose, Drop, Open];
    if s.handles != map[] {
      var symbol :| symbol in s.handles;
      assert symbol in Run(s, [Lose, Drop, Open]).handles;
    }
  }

  /** A handle that arrives before, but is cached after, a new session has been opened is stale. */
  lemma LateInsert(s: State, symbol: string, value: u32)
    requires s.WellFormed() && s.Agrees() && s.Client().Some?
    ensures var late := Insert(symbol, Handle(value, s.Client().value));
            !Run(s, [Lose, Clear, Drop, Open, late]).Agrees()
  {
    var late := Insert(symbol, Handle(value, s.Client().value));
    var lost := Take(s, Lose);
    RunOne(s, Lose);
    RunTwo(lost, Clear, Drop);
    var dropped := Take(Take(lost, Clear), Drop);
    RunTwo(dropped, Open, late);
    RunAppend(s, [Lose], [Clear, Drop]);
    RunAppend(s, [Lose] + [Clear, Drop], [Open, late]);
    assert [Lose] + [Clear, Drop] + [Open, late] == [Lose, Clear, Drop, Open, late];
    assert symbol in Take(Take(dropped, Open), late).handles;
  }

  /**
    * A third way: `Connect` clears the cache and then takes its time to open the session, while the
    * handle that another call has waited for is cached.
    */
  lemma InsertInsideConnect(s: State, symbol: string, value: u32)
    requires s.WellFormed() && s.Agrees() && s.Client().Some?
    ensures var late := Insert(symbol, Handle(value, s.Client().value));
            !Run(s, [Lose, Clear, late, Drop, Open]).Agrees()
  {
    var late := Insert(symbol, Handle(value, s.Client().value));
    var cleared := Take(Take(s, Lose), Clear);
    RunTwo(s, Lose, Clear);
    RunTwo(cleared, late, Drop);
    var dropped := Take(Take(cleared, late), Drop);
    RunOne(dropped, Open);
    RunAppend(s, [Lose, Clear], [late, Drop]);
    RunAppend(s, [Lose, Clear] + [late, Drop], [Open]);
    assert [Lose, Clear] + [late, Drop] + [Open] == [Lose, Clear, late, Drop, Open];
    assert symbol in Take(dropped, Open).handles;
  }

  // ---- The objects -------------------------------------------------------------------------

  class AdsConnection {
    var open: Option<nat>
    var lost: bool
    var issued: nat

    constructor ()
      ensures open == None && !lost && issued == 0
    {
      open, lost, issued := None, false, 0;
    }

    function Client(): Option<nat>
      reads this
    {
      if open.Some? && !lost then open else None
    }

    method Disconnect()
      modifies this
      ensures open == None && issued == old(issued)
      ensures old(open).Some? || !old(lost) ==> !lost
    {
      match open {
        case Some(_) =>
          open, lost := None, false;
        case None =>
      }
    }

    /** `session` is the number of the session that is opened, if one is. */
    method Connect(attempt: Attempt, session: nat) returns (r: Outcome<()>)
      requires session == issued && (open.None? ==> !lost)
      modifies this
      ensures old(Client()).Some? ==> r == Ok(()) && open == old(open) && lost == old(lost) && issued == old(issued)
      ensures old(Client()).None? ==>
                && (r.Ok? <==> attempt.Running?)
                && open == (if attempt.Running? then Some(session) else None) && !lost
                && issued == (if attempt.Refused? then session else session + 1)
    {
      if Client().Some? {
        return Ok(());
      }
      Disconnect();
      if attempt.Refused? {
        return Fail(Io);
      }
      issued := issued + 1;
      if attempt.NotRunning? {
        return Fail(Other);
      }
      open, lost := Some(session), false;
      r := Ok(());
    }
  }

  class Ads {
    const connection: AdsConnection
    var symbolHandles: map<string, Handle>

    ghost function Snapshot(): State
      reads this, connection
    {
      State(connection.open, connection.lost, connection.issued, symbolHandles)
    }

    /** The cache agrees with the session. */
    ghost predicate Valid()
      reads this, connection
    {
      Snapshot().WellFormed() && Snapshot().Agrees() && (connection.open.None? ==> !connection.lost)
    }

    constructor ()
      ensures Valid() && fresh(connection) && Snapshot() == INITIAL
    {
      connection := new AdsConnection();
      symbolHandles := map[];
    }

    method Connect(attempt: Attempt, session: nat) returns (r: Outcome<()>)
      requires Valid() && session == connection.issued
      modifies this, connection
      ensures Valid() && Snapshot() == Connecting(old(Snapshot()), attempt)
      ensures r.Ok? <==> connection.Client().Some?
      ensures old(connection.Client()).Some? ==> Snapshot() == old(Snapshot())
      ensures old(connection.Client()).None? ==>
                symbolHandles == map[] && connection.open == (if attempt.Running? then Some(session) else None)
    {
      if connection.Client().None? {
        symbolHandles := map[];
      }
      r := connection.Connect(attempt, session);
    }

    method Disconnect()
      requires Valid()
      modifies this, connection
      ensures Valid() && Snapshot() == Disconnecting(old(Snapshot()))
      ensures connection.open == None && symbolHandles == map[]
    {
      symbolHandles := map[];
      connection.Disconnect();
    }

    /** A request over the open session; its outcome is the device's. */
    method WithClient<T>(reply: Reply<T>) returns (r: Outcome<T>)
      requires Valid()
      modifies this, connection
      ensures Valid()
      ensures old(connection.Client()).None? ==> r == Fail(Error.Disconnected) && Snapshot() == old(Snapshot())
      ensures old(connection.Client()).Some? ==> r == reply.result && Snapshot() == AfterRequest(old(Snapshot()), reply)
      ensures old(connection.Client()).Some? && !r.Fail? ==> Snapshot() == old(Snapshot()).(lost := reply.lost)
      ensures old(connection.Client()).Some? && r.Fail? ==>
                Snapshot() == if reply.lost || r.error == Ads(6) then State(None, false, old(connection.issued), map[])
                              else old(Snapshot())
    {
      if connection.Client().None? {
        return Fail(Error.Disconnected);
      }
      if reply.lost {
        connection.lost := true;
      }
      r := reply.result;
      if r.Fail? && (connection.lost || ShouldDisconnect(r.error)) {
        Disconnect();
      }
    }

    method SymbolHandle(symbol: string, reply: Reply<u32>) returns (r: Outcome<Handle>)
      requires Valid()
      modifies this, connection
      ensures Valid() && (Snapshot(), r) == LookingUp(old(Snapshot()), symbol, reply)
    {
      if symbol in symbolHandles {
        return Ok(symbolHandles[symbol]);
      }
      var session := connection.Client();
      var value :- WithClient(reply);
      var handle := Handle(value, session.value);
      symbolHandles := symbolHandles[symbol := handle];
      r := Ok(handle);
    }
  }
}
