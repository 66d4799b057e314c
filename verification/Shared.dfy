/** The state a client shares with its reader task, and what its operations do when nothing interrupts them. */
module SharedState {
  import opened Outcomes
  import opened Bytes

  /** What a one-shot reply sender can carry: a reply, of which only the invoke ID matters here, or an error. */
  datatype Message = Answered(invokeId: u32) | Failed(reason: Error)

  /**
    * Senders are numbered.  `sent` records what went through each; a sender that is in no map and
    * has sent nothing has been dropped.
    */
  datatype Snapshot = Snapshot(
    closed: Option<Error>,
    commands: map<u32, nat>,
    subscribers: map<u32, nat>,
    sent: map<nat, Message>)

  function Registered(v: Snapshot, invokeId: u32, sender: nat): Snapshot {
    if v.closed.Some? then v else v.(commands := v.commands[invokeId := sender])
  }

  function Subscribed(v: Snapshot, handle: u32, sender: nat): Snapshot {
    if v.closed.Some? then v else v.(subscribers := v.subscribers[handle := sender])
  }

  function FailAll(sent: map<nat, Message>, senders: set<nat>, reason: Error): map<nat, Message> {
    sent + (map n | n in senders :: Failed(reason))
  }

  /** The first teardown fails every pending sender and forgets all of them; a later one does nothing. */
  function TornDown(v: Snapshot, reason: Error): Snapshot {
    if v.closed.Some? then v else
    Snapshot(Some(reason), map[], map[], FailAll(v.sent, v.commands.Values, reason))
  }

  lemma FailNone(sent: map<nat, Message>, reason: Error)
    ensures FailAll(sent, {}, reason) == sent
  {
  }

  lemma FailOneMore(sent: map<nat, Message>, senders: set<nat>, sender: nat, reason: Error)
    ensures FailAll(sent, senders + {sender}, reason) == FailAll(sent, senders, reason)[sender := Failed(reason)]
  {
  }

  class Shared {
    var closed: Option<Error>
    var commands: map<u32, nat>
    var subscribers: map<u32, nat>
    var sent: map<nat, Message>

    function View(): Snapshot
      reads this
    {
      Snapshot(closed, commands, subscribers, sent)
    }

    constructor ()
      ensures View() == Snapshot(None, map[], map[], map[])
    {
      closed := None;
      commands := map[];
      subscribers := map[];
      sent := map[];
    }

    method Register(invokeId: u32, reply: nat) returns (r: Outcome<()>)
      modifies this
      ensures r == if old(closed).Some? then Fail(Disconnected) else Ok(())
      ensures View() == Registered(old(View()), invokeId, reply)
    {
      if closed.Some? {
        return Fail(Disconnected);
      }
      commands := commands[invokeId := reply];
      r := Ok(());
    }

    method Subscribe(handle: u32, sender: nat) returns (r: Outcome<()>)
      modifies this
      ensures r == if old(closed).Some? then Fail(Disconnected) else Ok(())
      ensures View() == Subscribed(old(View()), handle, sender)
    {
      if closed.Some? {
        return Fail(Disconnected);
      }
      subscribers := subscribers[handle := sender];
      r := Ok(());
    }

    /** Removes a pending sender: the reader's lookup, and the drop of a request's guard. */
    method RemovePending(invokeId: u32) returns (sender: Option<nat>)
      modifies this
      ensures sender == if invokeId in old(commands) then Some(old(commands)[invokeId]) else None
      ensures View() == old(View()).(commands := old(commands) - {invokeId})
    {
      sender := if invokeId in commands then Some(commands[invokeId]) else None;
      commands := commands - {invokeId};
    }

    method TearDown(reason: Error)
      modifies this
      ensures View() == TornDown(old(View()), reason)
    {
      hide FailAll;
      if closed.Some? {
        return;
      }
      closed := Some(reason);
      FailNone(sent, reason);
      var pending := commands;
      commands := map[];
      ghost var done: set<nat> := {};
      while pending != map[]
        invariant closed == Some(reason) && commands == map[] && subscribers == old(subscribers)
        invariant done + pending.Values == old(commands).Values
        invariant sent == FailAll(old(sent), done, reason)
        decreases |pending|
      {
        var id :| id in pending;
        var sender := pending[id];
        ghost var before := pending;
        pending := pending - {id};
        SplitValues(before, id);
        FailOneMore(old(sent), done, sender, reason);
        done := done + {sender};
        sent := sent[sender := Failed(reason)];
      }
      subscribers := map[];
    }
  }

  lemma SplitValues(m: map<u32, nat>, id: u32)
    requires id in m
    ensures m.Values == {m[id]} + (m - {id}).Values
    ensures |m - {id}| < |m|
  {
    var m' := m - {id};
    forall v | v in m.Values
      ensures v in {m[id]} + m'.Values
    {
      var k :| k in m && m[k] == v;
      if k != id {
        assert k in m' && m'[k] == v;
      }
    }
    assert m'.Keys == m.Keys - {id};
    assert |m'.Keys| < |m.Keys|;
  }
}
