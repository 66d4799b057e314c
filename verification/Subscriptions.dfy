/** The subscriber map and its lock, one shared access a step, as in module Pending. */
module Subscriptions {
  import opened Outcomes
  import opened Bytes

  datatype Phase = Fresh | Locked | Open | Inserted | Subscribed | Refused {
    predicate HoldsLock() {
      Locked? || Open? || Inserted?
    }
  }

  datatype Entry = Entry(handle: u32, phase: Phase)

  /** The table holds, by handle, the numbers of the subscriptions whose sender is stored. */
  datatype Subscribers = Subscribers(entries: seq<Entry>, lock: Option<nat>, table: map<u32, nat>)

  datatype Op =
    | Start(handle: u32)
    | Lock(k: nat)
    | Test(k: nat, closed: bool)
    | Insert(k: nat)
    | Unlock(k: nat)
    | Remove(handle: u32)
    | Clear

  predicate At(t: Subscribers, k: nat, p: Phase) {
    k < |t.entries| && t.entries[k].phase == p
  }

  predicate Enabled(t: Subscribers, op: Op) {
    match op
    case Start(_) => true
    case Lock(k) => At(t, k, Fresh) && t.lock == None
    case Test(k, _) => At(t, k, Locked)
    case Insert(k) => At(t, k, Open)
    case Unlock(k) => At(t, k, Inserted)
    case Remove(_) => t.lock == None
    case Clear => t.lock == None
  }

  function Move(t: Subscribers, k: nat, p: Phase): Subscribers
    requires k < |t.entries|
  {
    t.(entries := t.entries[k := t.entries[k].(phase := p)])
  }

  function Apply(t: Subscribers, op: Op): Subscribers
    requires Enabled(t, op)
  {
    match op
    case Start(h) => t.(entries := t.entries + [Entry(h, Fresh)])
    case Lock(k) => Move(t, k, Locked).(lock := Some(k))
    case Test(k, closed) => if closed then Move(t, k, Refused).(lock := None) else Move(t, k, Open)
    case Insert(k) => Move(t, k, Inserted).(table := t.table[t.entries[k].handle := k])
    case Unlock(k) => Move(t, k, Subscribed).(lock := None)
    case Remove(h) => t.(table := t.table - {h})
    case Clear => t.(table := map[])
  }

  /** The lock is held exactly by the subscription that is inside its registration. */
  predicate LockInv(t: Subscribers) {
    && (forall k :: 0 <= k < |t.entries| ==> (t.entries[k].phase.HoldsLock() <==> t.lock == Some(k)))
    && (t.lock.Some? ==> t.lock.value < |t.entries|)
  }

  lemma LockStep(t: Subscribers, op: Op)
    requires LockInv(t) && Enabled(t, op)
    ensures LockInv(Apply(t, op))
  {
  }
}
