/**
 What is under way for one object, and what will come of it if no further message is issued.  The record
 that the object will end up with is the same after every step; and once the last word on an object is a
 delete, it is so until the object has neither record nor store entry.
 */
module Underway {
  import opened Common
  import opened Versions
  import opened Messages
  import opened Delivery
  import opened DeliverySafety
  import opened Reconcile
  import WQ = WorkQueue

  /** No other sender, no new session, no failing save. */
  predicate Calm(t: Step) {
    SavesOk(t) && !t.DecideEnqueue? && !t.Terminate? && !t.Reconnect?
  }

  /** No other message for u, no late save for u, no failing save, and no end of the session. */
  predicate CalmFor(t: Step, u: Uid) {
    match t
    case DecideEnqueue(m, _) => KeyOf(m) != Some(u)
    case LateSave(m, _) => KeyOf(m) != Some(u)
    case _ => SavesOk(t) && !t.Terminate? && !t.Reconnect?
  }

  lemma StaysLive(s: State, t: Step, u: Uid)
    requires s.hub.live && Enabled(s, t) && CalmFor(t, u)
    ensures Apply(s, t).hub.live
  {
  }

  // ---------------------------------------------------------------- what is under way for an object

  predicate ChosenFor(s: State, u: Uid) {
    s.hub.enqueuer.Chosen? && KeyOf(s.hub.enqueuer.msg) == Some(u)
  }

  predicate CarriesFor(s: State, u: Uid) {
    Carries(s.hub.sender) && s.hub.sender.key == u
  }

  /** Nothing will load the store entry of u. */
  predicate Resting(s: State, u: Uid) {
    u !in s.hub.queue.dirty && u !in s.hub.queue.delayed && u !in HeldKeys(s.hub.sender) && s.hub.enqueuer != Stored(u)
  }

  /** Nothing is under way for u. */
  predicate Settled(s: State, u: Uid) {
    Resting(s, u) && !ChosenFor(s, u)
  }

  /** The store entry of u will be loaded and sent, or is being, or its acknowledgement is to be saved. */
  predicate Waits(s: State, u: Uid) {
    || u in s.hub.queue.dirty || u in s.hub.queue.delayed
    || s.hub.enqueuer == Stored(u) || s.hub.sender == Got(u)
    || ((s.hub.sender.Sending? || s.hub.sender.Saving?) && s.hub.sender.key == u)
  }

  /** The last message in line for u. */
  function Line(s: State, u: Uid): Option<Message> {
    if ChosenFor(s, u) then Some(s.hub.enqueuer.msg)
    else if u in s.hub.store then Some(s.hub.store[u])
    else None
  }

  predicate InFlight(s: State, u: Uid) {
    ChosenFor(s, u) || (u in s.hub.store && Waits(s, u))
  }

  /** The record that u will end up with: that of the last message in line, if it is still in flight. */
  function Expected(s: State, u: Uid): Option<string> {
    if InFlight(s, u) then Some(Line(s, u).value.version)
    else if u in s.hub.records then Some(s.hub.records[u])
    else None
  }

  /** No delete operation for u is chosen, stored or carried. */
  predicate NoDelete(s: State, u: Uid) {
    && (ChosenFor(s, u) ==> !s.hub.enqueuer.msg.op.Delete?)
    && (u in s.hub.store ==> !s.hub.store[u].op.Delete?)
    && (CarriesFor(s, u) ==> !s.hub.sender.msg.op.Delete?)
  }

  // ---------------------------------------------------------------- the conserved quantity

  /** For u, s' is as far as s. */
  ghost predicate AsFar(s: State, s': State, u: Uid) {
    NoDelete(s', u) && Line(s', u) == Line(s, u) && Expected(s', u) == Expected(s, u)
  }

  /** Nothing has changed for u, but that the enqueuer may have turned to another object. */
  ghost predicate Untouched(s: State, s': State, u: Uid) {
    && s'.hub.store == s.hub.store && s'.hub.sender == s.hub.sender && s'.hub.queue == s.hub.queue
    && s'.past.acked == s.past.acked
    && (s'.hub.enqueuer == s.hub.enqueuer || (s.hub.enqueuer.Ready? && !ChosenFor(s', u) && !s'.hub.enqueuer.Stored?))
    && (u in s'.hub.records <==> u in s.hub.records)
    && (u in s.hub.records ==> s'.hub.records[u] == s.hub.records[u])
  }

  /** What is enqueued or saved late for another object does not concern u. */
  lemma Elsewhere(s: State, t: Step, u: Uid)
    requires Enabled(s, t) && CalmFor(t, u) && (t.DecideEnqueue? || t.LateSave?)
    ensures Untouched(s, Apply(s, t), u)
  {
  }

  /** No step of the protocol changes the record to expect, or the last message in line. */
  lemma ExpectedStep(s: State, t: Step, u: Uid)
    requires Inv(s) && s.hub.live && NoDelete(s, u) && Enabled(s, t) && CalmFor(t, u)
    ensures AsFar(s, Apply(s, t), u)
  {
    if t.DecideEnqueue? || t.LateSave? {
      Elsewhere(s, t, u);
    } else if t.StoreAdd? {
      ExpectedStoreAdd(s, u);
    } else if t.Load? {
      ExpectedLoad(s, u);
    } else if t.Save? {
      ExpectedSave(s, t, u);
    } else if t.Unstore? {
      ExpectedUnstore(s, u);
    } else {
      ExpectedQueue(s, t, u);
    }
  }

  lemma ExpectedStoreAdd(s: State, u: Uid)
    requires NoDelete(s, u) && Enabled(s, StoreAdd)
    ensures AsFar(s, Apply(s, StoreAdd), u)
  {
  }

  lemma ExpectedLoad(s: State, u: Uid)
    requires NoDelete(s, u) && Enabled(s, Load)
    ensures AsFar(s, Apply(s, Load), u)
  {
  }

  lemma ExpectedSave(s: State, t: Step, u: Uid)
    requires IdentityInv(s) && PendingInv(s) && ReplacedInv(s) && s.hub.live
    requires NoDelete(s, u) && Enabled(s, t) && t.Save? && CalmFor(t, u)
    ensures AsFar(s, Apply(s, t), u)
  {
    if s.hub.sender.key == u && s.hub.store[u] != s.hub.sender.msg {
      assert Scheduled(s, u);
    }
  }

  lemma ExpectedUnstore(s: State, u: Uid)
    requires AckInv(s) && NoDelete(s, u) && Enabled(s, Unstore)
    ensures AsFar(s, Apply(s, Unstore), u)
  {
  }

  /** The other steps leave store and records alone, and move u along in the queue. */
  lemma ExpectedQueue(s: State, t: Step, u: Uid)
    requires QueueInv(s) && s.hub.live && NoDelete(s, u) && Enabled(s, t) && CalmFor(t, u)
    requires !t.DecideEnqueue? && !t.LateSave? && !t.StoreAdd? && !t.Load? && !t.Save? && !t.Unstore?
    ensures AsFar(s, Apply(s, t), u)
  {
    DataFrame(s, t);
    WorkFrame(s, t);
    StillWaits(s, t, u);
  }

  lemma StillWaits(s: State, t: Step, u: Uid)
    requires QueueInv(s) && s.hub.live && Enabled(s, t) && CalmFor(t, u)
    requires !t.DecideEnqueue? && !t.LateSave? && !t.StoreAdd? && !t.Load? && !t.Save? && !t.Unstore?
    ensures Waits(Apply(s, t), u) <==> Waits(s, u)
    ensures ChosenFor(Apply(s, t), u) <==> ChosenFor(s, u)
  {
    match t
    case GetKey => WQ.GetValid(s.hub.queue);
    case QueueAdd => WQ.AddValid(s.hub.queue, s.hub.enqueuer.key);
    case DelayOver(k) => WQ.FireValid(s.hub.queue, k);
    case _ =>
  }

  /** From any live state, through every continuation that is calm for u: once nothing is under way for u any more, its
      record is what was to be expected. */
  lemma {:induction false} ExpectedForGood(s: State, trace: seq<Step>, u: Uid)
    requires Reachable(s) && s.hub.live && NoDelete(s, u)
    requires Follow(s, trace).Some? && (forall t :: t in trace ==> CalmFor(t, u))
    ensures var s' := Follow(s, trace).value;
            && Reachable(s') && s'.hub.live && AsFar(s, s', u)
            && (Settled(s', u) ==> RecordIs(s'.hub.records, u, Expected(s, u)))
  {
    if trace != [] {
      var n := |trace| - 1;
      ExpectedForGood(s, trace[..n], u);
      var x := Follow(s, trace[..n]).value;
      InvariantReachable(x);
      assert trace[n] in trace;
      ExpectedStep(x, trace[n], u);
      StaysLive(x, trace[n], u);
      ReachableStep(x, trace[n]);
    }
    assert Settled(Follow(s, trace).value, u) ==> !InFlight(Follow(s, trace).value, u);
  }

  // ---------------------------------------------------------------- an object that is being removed

  /** A delete that will remove the record of u is chosen, stored or acknowledged. */
  ghost predicate DeleteAhead(s: State, u: Uid) {
    || ChosenFor(s, u)
    || (u in s.hub.store && s.hub.store[u].op.Delete? && s.hub.store[u].id !in s.past.acked)
    || (CarriesFor(s, u) && s.hub.sender.Saving? && s.hub.sender.msg.op.Delete?)
  }

  /** The last word on u is a delete: it is in line, or has been heard. */
  ghost predicate Leaving(s: State, u: Uid) {
    && (Line(s, u).Some? ==> Line(s, u).value.op.Delete?)
    && (u in s.hub.records ==> DeleteAhead(s, u))
    && (CarriesFor(s, u) && !s.hub.sender.msg.op.Delete? ==> DeleteAhead(s, u))
    && !RemovalFailed(s, u)
  }

  /** A delete was acknowledged, but its record could not be removed. */
  predicate RemovalFailed(s: State, u: Uid) {
    s.hub.sender.Unstoring? && s.hub.sender.key == u && u in s.hub.records
  }

  lemma LeavingStep(s: State, t: Step, u: Uid)
    requires Inv(s) && Leaving(s, u) && Enabled(s, t) && CalmFor(t, u)
    ensures Leaving(Apply(s, t), u)
  {
    if t.DecideEnqueue? || t.LateSave? {
      Elsewhere(s, t, u);
    } else if t.StoreAdd? {
      LeavingStoreAdd(s, u);
    } else if t.Load? {
      LeavingLoad(s, u);
    } else if t.SeeAck? {
      LeavingSeeAck(s, u);
    } else if t.Save? {
      LeavingSave(s, t, u);
    } else if t.Unstore? {
      LeavingUnstore(s, u);
    } else {
      Frame(s, t);
      LeavingFrame(s, Apply(s, t), u);
    }
  }

  lemma LeavingStoreAdd(s: State, u: Uid)
    requires Inv(s) && Leaving(s, u) && Enabled(s, StoreAdd)
    ensures Leaving(Apply(s, StoreAdd), u)
  {
    assert s.hub.enqueuer.msg.id !in s.past.acked;
  }

  lemma LeavingLoad(s: State, u: Uid)
    requires RemovedInv(s) && Leaving(s, u) && Enabled(s, Load)
    ensures Leaving(Apply(s, Load), u)
  {
  }

  lemma LeavingSeeAck(s: State, u: Uid)
    requires IdentityInv(s) && Leaving(s, u) && Enabled(s, SeeAck)
    ensures Leaving(Apply(s, SeeAck), u)
  {
    if u in s.hub.store && s.hub.store[u].id == s.hub.sender.msg.id {
      assert Registered(s, s.hub.store[u]) && Registered(s, s.hub.sender.msg);
    }
  }

  lemma LeavingSave(s: State, t: Step, u: Uid)
    requires IdentityInv(s) && Leaving(s, u) && Enabled(s, t) && t.Save? && CalmFor(t, u)
    ensures Leaving(Apply(s, t), u)
  {
  }

  lemma LeavingUnstore(s: State, u: Uid)
    requires Leaving(s, u) && Enabled(s, Unstore)
    ensures Leaving(Apply(s, Unstore), u)
  {
  }

  lemma LeavingFrame(s: State, s': State, u: Uid)
    requires Leaving(s, u) && s'.hub.store == s.hub.store && s'.hub.records == s.hub.records
    requires s'.past.acked == s.past.acked && SameCarried(s, s')
    requires s'.hub.enqueuer == s.hub.enqueuer || (!s'.hub.enqueuer.Chosen? && !s.hub.enqueuer.Chosen?)
    requires s.hub.sender.Saving? || s.hub.sender.Unstoring? || s'.hub.sender.Unstoring? ==>
               s'.hub.sender == s.hub.sender
    ensures Leaving(s', u)
  {
  }

  /** Once nothing is under way for it any more, an object that was leaving has no record. */
  lemma LeavingIsGone(s: State, u: Uid)
    requires PendingInv(s) && RemovedInv(s) && s.hub.live && Settled(s, u) && Leaving(s, u)
    ensures u !in s.hub.records && u !in s.hub.store
  {
  }

  lemma RemovalStep(s: State, t: Step, u: Uid)
    requires IdentityInv(s) && !RemovalFailed(s, u) && Enabled(s, t) && CalmFor(t, u)
    ensures !RemovalFailed(Apply(s, t), u)
  {
    if t.DecideEnqueue? || t.LateSave? {
      Elsewhere(s, t, u);
    } else if !t.Save? {
      DataFrame(s, t);
      WorkFrame(s, t);
    }
  }

  // ---------------------------------------------------------------- what is lost behind a delete

  /** A delete that is stored and pending, with nothing chosen to replace it, is the last word on u. */
  lemma PendingDeleteIsLast(s: State, u: Uid)
    requires u in s.hub.store && s.hub.store[u].op.Delete? && s.hub.store[u].id !in s.past.acked
    requires !ChosenFor(s, u) && !RemovalFailed(s, u)
    ensures Leaving(s, u)
  {
  }

  /** While a delete is the last word on u, a versioned message for u is dropped exactly if the store still
      holds an entry for u. */
  lemma LostBehindDeleteIff(s: State, m: Message, api: EnqueueApi, u: Uid)
    requires Reachable(s) && s.hub.enqueuer.Ready? && Leaving(s, u)
    requires Issuable(s, m) && KeyOf(m) == Some(u) && Versioned(m) && ApiOk(api)
    ensures Decide(m, s.hub.store, s.hub.records, api) == Discard <==> u in s.hub.store
    ensures u in s.hub.store ==> Leaving(Apply(s, DecideEnqueue(m, api)), u)
    ensures u !in s.hub.store ==> Decide(m, s.hub.store, s.hub.records, api) == Accept
  {
    InvariantReachable(s);
  }

  /** And through every continuation that is calm for u it stays the last word, until u has neither record nor store
      entry; reconcile, which goes by the records, then sends nothing for u. */
  lemma {:induction false} LeavingForGood(s: State, trace: seq<Step>, u: Uid)
    requires Reachable(s) && s.hub.live && Leaving(s, u)
    requires Follow(s, trace).Some? && (forall t :: t in trace ==> CalmFor(t, u))
    ensures var s' := Follow(s, trace).value;
            && Reachable(s') && s'.hub.live && Leaving(s', u)
            && (Settled(s', u) ==> u !in s'.hub.records && u !in s'.hub.store)
  {
    InvariantReachable(s);
    if trace != [] {
      var n := |trace| - 1;
      LeavingForGood(s, trace[..n], u);
      var x := Follow(s, trace[..n]).value;
      InvariantReachable(x);
      assert trace[n] in trace;
      LeavingStep(x, trace[n], u);
      StaysLive(x, trace[n], u);
      ReachableStep(x, trace[n]);
      InvariantReachable(Apply(x, trace[n]));
      if Settled(Apply(x, trace[n]), u) {
        LeavingIsGone(Apply(x, trace[n]), u);
      }
    } else if Settled(s, u) {
      LeavingIsGone(s, u);
    }
  }
}
