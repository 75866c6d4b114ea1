/**
 What the dispatcher's decision and the session's save do, whatever calls fail: which messages go through,
 whose records change, and that a message once accepted is accepted again by a new session, until its
 acknowledgement has been seen.
 */
module DeliveryDecisions {
  import opened Common
  import opened Versions
  import opened Messages
  import opened Delivery
  import opened DeliverySafety
  import opened DeliveryRecords

  // ---------------------------------------------------------------- decisions, by kind of message

  predicate SameFor(records: Records, records': Records, u: Uid) {
    (u in records' <==> u in records) && (u in records ==> records'[u] == records[u])
  }

  /** Deletes and objects on their way out always go through, and so does an answer that has a version;
      messages without a version, and messages that are not about an object, never do.  None of these
      decisions touches a record. */
  lemma DecisionsByKind(m: Message, store: Store, records: Records, api: EnqueueApi)
    ensures !m.group.ResourceGroup? || m.meta.None? ==> Decide(m, store, records, api) == Discard
    ensures m.group.ResourceGroup? && m.meta.Some? && (m.op.Delete? || m.meta.value.deleting) ==>
              Decide(m, store, records, api) == Accept
    ensures m.group.ResourceGroup? && m.meta.Some? && m.op.Response? && m.version != "" ==>
              Decide(m, store, records, api) == Accept
    ensures m.version == "" && !m.op.Delete? && !(m.meta.Some? && m.meta.value.deleting) ==>
              Decide(m, store, records, api) == Discard
    ensures !m.group.ResourceGroup? || m.meta.None? || m.version == "" || m.op.Delete? || m.meta.value.deleting ||
            m.op.Response? ==>
              RecordsAfterDecide(m, store, records, api) == records
  {
  }

  /** No decision touches the record of another object, or one that exists.  An unforced message is taken only
      if its object then has a record that was written and is older, or a stored message that is older; so
      none is when a call it needs fails. */
  lemma AcceptedHasOlderRecord(m: Message, store: Store, records: Records, api: EnqueueApi, w: Uid)
    requires m.group.ResourceGroup? && m.meta.Some? && Num(m.version) > 0
    requires !m.op.Delete? && !m.op.Response? && !m.meta.value.deleting
    ensures var u, after := m.meta.value.uid, RecordsAfterDecide(m, store, records, api);
            && (w != u || w in records ==> SameFor(records, after, w))
            && (u in after && u !in records ==> after[u] == if api.updateStatus then "0" else "")
            && (Decide(m, store, records, api) == Accept ==>
                  if u in store then Num(store[u].version) < Num(m.version)
                  else api.get && u in after && after[u] != "" && Num(after[u]) < Num(m.version) &&
                       (u !in records ==> api.create && api.updateStatus))
  {
    ZeroIsNumeral();
  }

  // ---------------------------------------------------------------- an accepted message is accepted again

  /** Until an acknowledgement of m has been seen, only m is under way for u, and its record is old. */
  ghost predicate Awaited(s: State, u: Uid, m: Message, old_: string) {
    && u in s.hub.records && s.hub.records[u] == old_
    && (u in s.hub.store ==> s.hub.store[u] == m)
    && (Carries(s.hub.sender) && s.hub.sender.key == u ==> s.hub.sender.msg == m)
    && (s.hub.enqueuer.Chosen? && For(s.hub.enqueuer.msg, u) ==> s.hub.enqueuer.msg == m)
  }

  /** The step concerns u only through the message that is under way for it. */
  predicate NothingElse(t: Step, u: Uid) {
    match t
    case DecideEnqueue(m, _) => !For(m, u)
    case LateSave(m, _) => !For(m, u)
    case _ => true
  }

  lemma AwaitedStep(s: State, t: Step, u: Uid, m: Message, old_: string)
    requires IdentityInv(s) && AckInv(s) && Awaited(s, u, m, old_) && Enabled(s, t) && NothingElse(t, u)
    requires m.id !in Apply(s, t).past.acked
    ensures Awaited(Apply(s, t), u, m, old_)
  {
    EdgeFrame(s, t);
    if t.DecideEnqueue? || t.LateSave? || t.Save? {
      AwaitedWrite(s, t, u, m, old_);
    } else if t.StoreAdd? || t.Load? || t.Unstore? || t.Reconnect? {
      AwaitedMove(s, t, u, m, old_);
    } else {
      DataFrame(s, t);
      WorkFrame(s, t);
    }
  }

  lemma AwaitedWrite(s: State, t: Step, u: Uid, m: Message, old_: string)
    requires IdentityInv(s) && AckInv(s) && Awaited(s, u, m, old_) && Enabled(s, t) && NothingElse(t, u)
    requires m.id !in s.past.acked && (t.DecideEnqueue? || t.LateSave? || t.Save?)
    ensures Awaited(Apply(s, t), u, m, old_)
  {
  }

  lemma AwaitedMove(s: State, t: Step, u: Uid, m: Message, old_: string)
    requires IdentityInv(s) && Awaited(s, u, m, old_) && Enabled(s, t)
    requires t.StoreAdd? || t.Load? || t.Unstore? || t.Reconnect?
    ensures Awaited(Apply(s, t), u, m, old_)
  {
  }

  lemma {:induction false} AwaitedFollows(s: State, trace: seq<Step>, u: Uid, m: Message, old_: string)
    requires Reachable(s) && Awaited(s, u, m, old_) && (forall t :: t in trace ==> NothingElse(t, u))
    requires Follow(s, trace).Some? && m.id !in Follow(s, trace).value.past.acked
    ensures Reachable(Follow(s, trace).value) && Awaited(Follow(s, trace).value, u, m, old_)
  {
    if trace != [] {
      var n := |trace| - 1;
      var x := Follow(s, trace[..n]).value;
      EdgeFrame(x, trace[n]);
      assert m.id !in x.past.acked;
      AwaitedFollows(s, trace[..n], u, m, old_);
      InvariantReachable(x);
      assert trace[n] in trace;
      AwaitedStep(x, trace[n], u, m, old_);
      ReachableStep(x, trace[n]);
    }
  }

  /** The decision to take m, when nothing was stored for its object, leaves m awaited. */
  lemma AcceptedIsAwaited(s: State, m: Message, api: EnqueueApi)
    requires Reachable(s) && s.hub.enqueuer.Ready? && Issuable(s, m) && Versioned(m) && Num(m.version) > 0
    requires KeyOf(m).value !in s.hub.store && Decide(m, s.hub.store, s.hub.records, api) == Accept
    ensures var u, s' := KeyOf(m).value, Apply(s, DecideEnqueue(m, api));
            && u in s'.hub.records && s'.hub.records[u] != "" && Num(s'.hub.records[u]) < Num(m.version)
            && Awaited(s', u, m, s'.hub.records[u])
  {
    InvariantReachable(s);
    AcceptedHasOlderRecord(m, s.hub.store, s.hub.records, api, KeyOf(m).value);
  }

  /** An accepted message is accepted again: whatever happens to the session, and to other objects, as long as
      its acknowledgement has not been seen, a new session takes the same message, under a new ID, as this one
      did. */
  lemma AcceptedAgain(s: State, m: Message, api: EnqueueApi, trace: seq<Step>, kept: nat, again: nat)
    requires Reachable(s) && s.hub.enqueuer.Ready? && Issuable(s, m) && Versioned(m) && Num(m.version) > 0
    requires KeyOf(m).value !in s.hub.store && Decide(m, s.hub.store, s.hub.records, api) == Accept
    requires forall t :: t in trace ==> NothingElse(t, KeyOf(m).value)
    requires Follow(Apply(s, DecideEnqueue(m, api)), trace).Some?
    requires var s' := Follow(Apply(s, DecideEnqueue(m, api)), trace).value;
             m.id !in s'.past.acked && Enabled(s', Reconnect(kept))
    ensures var s' := Apply(Follow(Apply(s, DecideEnqueue(m, api)), trace).value, Reconnect(kept));
            Decide(m.(id := again), s'.hub.store, s'.hub.records, api) == Accept
  {
    var u, chosen := KeyOf(m).value, Apply(s, DecideEnqueue(m, api));
    AcceptedIsAwaited(s, m, api);
    AcceptedHasOlderRecord(m, s.hub.store, s.hub.records, api, u);
    ReachableStep(s, DecideEnqueue(m, api));
    AwaitedFollows(chosen, trace, u, m, chosen.hub.records[u]);
    InvariantReachable(Follow(chosen, trace).value);
  }

  // ---------------------------------------------------------------- what saving does

  /** Saving touches the record of its own object only.  If every call succeeds, the record of a deleted object
      is gone and any other is the acknowledged version; if one fails, the record is what it was, or, where
      there was none, may have been made without a status. */
  lemma SavesWhatWasAcknowledged(records: Records, m: Message, api: SaveApi, w: Uid)
    requires KeyOf(m).Some?
    ensures var u, after := KeyOf(m).value, SaveRecord(records, m, api);
            && (w != u ==> SameFor(records, after, w))
            && (m.op.Delete? && api.delete ==> u !in after)
            && (m.op.Delete? && !api.delete ==> after == records)
            && (!m.op.Delete? && api.get && (u in records || api.create) && api.updateStatus ==>
                  u in after && after[u] == m.version)
            && (!m.op.Delete? && (!api.get || !api.updateStatus || (u !in records && !api.create)) ==>
                  after == records || (u !in records && api.get && api.create && after == records[u := ""]))
  {
  }

  /** No save, of the live session or of a replaced one, writes a version that the edge has not persisted, and
      none touches the record of another object; a save that fails leaves the record as it was, or makes one
      without a status. */
  lemma SavedWasPersisted(s: State, t: Step, w: Uid)
    requires Reachable(s) && Enabled(s, t) && (t.Save? || t.LateSave?)
    ensures var m, after := if t.Save? then s.hub.sender.msg else t.msg, Apply(s, t).hub.records;
            var u := KeyOf(m).value;
            && (w != u ==> SameFor(s.hub.records, after, w))
            && (u in after ==> SameFor(s.hub.records, after, u) || (u !in s.hub.records && after[u] == "") ||
                               (after[u] == m.version && PersistedVersion(s, u, m.version)))
            && (u !in after && u in s.hub.records ==> m.op.Delete? && PersistedId(s, m.id))
            && (t.saveApi == SaveApi(true, true, true, true) ==>
                  if m.op.Delete? then u !in after else u in after && after[u] == m.version)
  {
    InvariantReachable(s);
    var m := if t.Save? then s.hub.sender.msg else t.msg;
    SavesWhatWasAcknowledged(s.hub.records, m, t.saveApi, w);
    AckedIsPersisted(s, m);
  }

  // ---------------------------------------------------------------- an acknowledgement that was seen is saved

  /** An acknowledgement of m was seen and has yet to be saved, by the session or by one that was replaced. */
  predicate Owed(s: State, m: Message) {
    (s.hub.sender.Saving? && s.hub.sender.msg == m) || m in s.hub.late
  }

  predicate Saves(s: State, t: Step, m: Message) {
    (t.Save? && s.hub.sender.Saving? && s.hub.sender.msg == m) || (t.LateSave? && t.msg == m)
  }

  lemma OwedStep(s: State, t: Step, m: Message)
    requires Owed(s, m) && Enabled(s, t) && !Saves(s, t, m)
    ensures Owed(Apply(s, t), m)
  {
    match t
    case Reconnect(_) =>
    case LateSave(_, _) =>
    case Save(_) =>
    case _ => StaysOwed(s, t);
  }

  lemma StaysOwed(s: State, t: Step)
    requires Enabled(s, t) && !t.Reconnect? && !t.LateSave? && !t.Save?
    ensures Apply(s, t).hub.late == s.hub.late && (s.hub.sender.Saving? ==> Apply(s, t).hub.sender == s.hub.sender)
  {
  }

  /** An acknowledgement that was seen, or was there to be seen when the session was replaced, is not forgotten:
      as long as no step saves it, whatever else happens, it waits to be saved. */
  lemma {:induction false} OwedUntilSaved(s: State, t: Step, trace: seq<Step>, m: Message)
    requires Enabled(s, t) && s.hub.sender.Sending? && s.hub.sender.msg == m && m.id in s.hub.closed
    requires (t.SeeAck? || t.Reconnect?) && Follow(Apply(s, t), trace).Some?
    requires forall k :: 0 <= k < |trace| && Follow(Apply(s, t), trace[..k]).Some? ==>
               !Saves(Follow(Apply(s, t), trace[..k]).value, trace[k], m)
    ensures Owed(Follow(Apply(s, t), trace).value, m)
  {
    if trace != [] {
      var n := |trace| - 1;
      assert forall k :: 0 <= k < n ==> trace[..n][..k] == trace[..k] && trace[..n][k] == trace[k];
      OwedUntilSaved(s, t, trace[..n], m);
      OwedStep(Follow(Apply(s, t), trace[..n]).value, trace[n], m);
    }
  }
}
