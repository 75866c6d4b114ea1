/**
 The sync controller compares every record with the cluster and sends the edge what it is
 missing.  Model of the reconcile step for one record, of what the dispatcher makes of it, and of how
 records follow the store when saves succeed.
 */
module Reconcile {
  import opened Common
  import opened Versions
  import opened Messages
  import opened Delivery
  import opened DeliverySafety

  // ---------------------------------------------------------------- one record

  /** What the lister returns for the object a record names. */
  datatype Lookup = LookupFailed | Missing | Found(uid: Uid, version: string, deleting: bool)

  datatype Action =
    | Nothing
    | SendDelete
    | SendUpdate(version: string, deleting: bool)
    | RemoveRecord           // no resource path can be built for the delete message
    | PanicAction

  /** reconcileObjectSync and its cluster-scoped twin.  addressable: BuildResource succeeds. */
  function ReconcileRecord(u: Uid, status: string, found: Lookup, addressable: bool): Action {
    match found
    case LookupFailed => Nothing
    case Missing => if addressable then SendDelete else RemoveRecord
    case Found(uid, version, deleting) =>
      if uid != u then (if addressable then SendDelete else RemoveRecord)
      else if status == "" then Nothing
      else match CompareResourceVersion(version, status)
           case None => PanicAction
           case Some(c) => if c <= 0 then Nothing
                           else if addressable then SendUpdate(version, deleting) else PanicAction
  }

  /** The object is gone, or another one has taken its name. */
  predicate Orphan(u: Uid, found: Lookup) {
    found.Missing? || (found.Found? && found.uid != u)
  }

  function MessageFor(action: Action, id: nat, u: Uid): Message
    requires action.SendDelete? || action.SendUpdate?
  {
    if action.SendDelete? then
      Message(id, ResourceGroup, Delete, EdgeController, OtherType, "", Some(Meta(u, false)), None)
    else
      var meta := Meta(u, action.deleting);
      Message(id, ResourceGroup, Update, EdgeController, OtherType, action.version, Some(meta), None)
  }

  /** Where a record belongs: gone when orphaned, otherwise the newer of the two versions,
      except that a status that was never written stays unwritten. */
  function Target(u: Uid, status: string, found: Lookup): Option<string> {
    if Orphan(u, found) then None
    else if found.Found? && status != "" && Num(found.version) > Num(status) then Some(found.version)
    else Some(status)
  }

  predicate RecordIs(records: Records, u: Uid, want: Option<string>) {
    match want
    case None => u !in records
    case Some(v) => u in records && records[u] == v
  }

  /** An update from reconcile gets past the store exactly when the store does not already hold a
      delete or a version at least as new; a stale record behind an acknowledged store entry stays stale. */
  lemma UpdateAcceptedIff(s: State, u: Uid, id: nat, version: string, deleting: bool, api: EnqueueApi)
    requires Reachable(s) && id !in s.past.issued && IsNumeral(version) && ApiOk(api)
    requires u in s.hub.records && s.hub.records[u] != "" && Num(version) > Num(s.hub.records[u])
    ensures Decide(MessageFor(SendUpdate(version, deleting), id, u), s.hub.store, s.hub.records, api) == Accept <==>
              || deleting || u !in s.hub.store
              || (!IsDelete(s.hub.store[u]) && Num(s.hub.store[u].version) < Num(version))
  {
    InvariantReachable(s);
  }

  /** Given numeral cluster versions, the comparison in the reconcile loop never panics in any run. */
  lemma ReconcileNeverPanics(s: State, u: Uid, found: Lookup)
    requires Reachable(s) && u in s.hub.records && (found.Found? ==> IsNumeral(found.version))
    ensures !ReconcileRecord(u, s.hub.records[u], found, true).PanicAction?
  {
    InvariantReachable(s);
  }

  /** With numeral versions: a delete is sent exactly for an orphan, and the object's version exactly if the
      object is there, the status was written, and the version is newer; either as an operation of its own kind,
      which the edge takes and acknowledges whenever it comes.  Without a resource path the record of
      an orphan is removed at once, an update that cannot be built panics, and nothing else changes. */
  lemma ReconcileActs(u: Uid, status: string, found: Lookup, id: nat)
    requires (status == "" || IsNumeral(status)) && (found.Found? ==> IsNumeral(found.version))
    ensures var action, pathless := ReconcileRecord(u, status, found, true), ReconcileRecord(u, status, found, false);
            && (action == SendDelete <==> Orphan(u, found))
            && (action.SendUpdate? <==>
                  found.Found? && found.uid == u && status != "" && Num(found.version) > Num(status))
            && (action.SendUpdate? ==> action == SendUpdate(found.version, found.deleting))
            && !action.RemoveRecord? && !action.PanicAction?
            && (action == SendDelete || action.SendUpdate? ==>
                  var m := MessageFor(action, id, u);
                  && m.id == id && KeyOf(m) == Some(u) && Plain(m)
                  && (m.op == Delete <==> Orphan(u, found)) && (m.op == Update <==> action.SendUpdate?)
                  && (action.SendUpdate? ==> m.version == found.version && (IsDelete(m) <==> found.deleting)))
            && (pathless == RemoveRecord <==> action == SendDelete)
            && (pathless == PanicAction <==> action.SendUpdate?)
            && (pathless == Nothing <==> action == Nothing)
  {
  }

  // ---------------------------------------------------------------- records follow the store

  predicate SavesOk(t: Step) {
    match t
    case Save(api) => api.get && api.create && api.updateStatus && api.delete
    case LateSave(_, _) => false
    case _ => true
  }

  /** An acknowledged store entry is what the record says, once it has been saved. */
  ghost predicate MatchInv(s: State) {
    forall u :: u in s.hub.store && s.hub.store[u].id in s.past.acked && !BeingSaved(s, u) ==> Match(s, u)
  }

  predicate BeingSaved(s: State, u: Uid) {
    (s.hub.sender.Saving? || s.hub.sender.Unstoring?) && s.hub.sender.key == u
  }

  ghost predicate Match(s: State, u: Uid)
    requires u in s.hub.store
  {
    !s.hub.store[u].op.Delete? && u in s.hub.records && s.hub.records[u] == s.hub.store[u].version
  }

  lemma MatchStep(s: State, t: Step)
    requires IdentityInv(s) && AcksPersistedInv(s) && AckInv(s) && ChosenInv(s) && ReplacedInv(s) && MatchInv(s)
    requires Enabled(s, t) && SavesOk(t)
    ensures MatchInv(Apply(s, t))
  {
    if t.DecideEnqueue? {
      MatchDecide(s, t);
    } else if t.StoreAdd? {
      MatchStoreAdd(s);
    } else if t.SeeAck? {
      MatchSeeAck(s);
    } else if t.Save? {
      MatchSave(s, t);
    } else if t.Unstore? {
      MatchUnstore(s);
    } else if !t.Reconnect? {
      Frame(s, t);
      MatchFrame(s, Apply(s, t));
    }
  }

  lemma MatchFrame(s: State, s': State)
    requires MatchInv(s) && s'.hub.store == s.hub.store
    requires s'.hub.records == s.hub.records && s'.past.acked == s.past.acked
    requires s.hub.sender.Saving? || s.hub.sender.Unstoring? ==> s'.hub.sender == s.hub.sender
    ensures MatchInv(s')
  {
    forall u | u in s'.hub.store && s'.hub.store[u].id in s'.past.acked && !BeingSaved(s', u) ensures Match(s', u) {
      assert Match(s, u);
    }
  }

  lemma MatchDecide(s: State, t: Step)
    requires MatchInv(s) && Enabled(s, t) && t.DecideEnqueue?
    ensures MatchInv(Apply(s, t))
  {
    var s' := Apply(s, t);
    forall u | u in s'.hub.store && s'.hub.store[u].id in s'.past.acked && !BeingSaved(s', u) ensures Match(s', u) {
      assert Match(s, u);
    }
  }

  lemma MatchStoreAdd(s: State)
    requires IdentityInv(s) && AckInv(s) && ChosenInv(s) && MatchInv(s) && AcksPersistedInv(s) && Enabled(s, StoreAdd)
    ensures MatchInv(Apply(s, StoreAdd))
  {
    var s' := Apply(s, StoreAdd);
    assert s.hub.enqueuer.msg.id !in s.past.acked;
    forall u | u in s'.hub.store && s'.hub.store[u].id in s'.past.acked && !BeingSaved(s', u) ensures Match(s', u) {
      assert Match(s, u);
    }
  }

  lemma MatchSeeAck(s: State)
    requires IdentityInv(s) && MatchInv(s) && Enabled(s, SeeAck)
    ensures MatchInv(Apply(s, SeeAck))
  {
    var s' := Apply(s, SeeAck);
    forall u | u in s'.hub.store && s'.hub.store[u].id in s'.past.acked && !BeingSaved(s', u) ensures Match(s', u) {
      assert Registered(s, s.hub.store[u]) && Registered(s, s.hub.sender.msg);
      assert Match(s, u);
    }
  }

  lemma MatchSave(s: State, t: Step)
    requires IdentityInv(s) && ReplacedInv(s) && MatchInv(s) && Enabled(s, t) && t.Save? && SavesOk(t)
    ensures MatchInv(Apply(s, t))
  {
    var s' := Apply(s, t);
    forall u | u in s'.hub.store && s'.hub.store[u].id in s'.past.acked && !BeingSaved(s', u) ensures Match(s', u) {
      if u != s.hub.sender.key {
        assert Match(s, u);
      }
    }
  }

  lemma MatchUnstore(s: State)
    requires MatchInv(s) && Enabled(s, Unstore)
    ensures MatchInv(Apply(s, Unstore))
  {
    var s' := Apply(s, Unstore);
    forall u | u in s'.hub.store && s'.hub.store[u].id in s'.past.acked && !BeingSaved(s', u) ensures Match(s', u) {
      assert Match(s, u);
    }
  }

  lemma {:induction false} MatchOfRuns(trace: seq<Step>)
    requires forall t :: t in trace ==> SavesOk(t)
    ensures Exec(trace).Some? ==> MatchInv(Exec(trace).value)
  {
    if trace != [] && Exec(trace).Some? {
      var n := |trace| - 1;
      InvariantOfRuns(trace[..n]);
      MatchOfRuns(trace[..n]);
      MatchStep(Exec(trace[..n]).value, trace[n]);
    }
  }

  /** Nothing is being enqueued, queued, delayed or sent. */
  predicate Drained(s: State) {
    s.hub.live && s.hub.enqueuer.Ready? && s.hub.sender.Idle? && s.hub.queue.dirty == {} && s.hub.queue.delayed == {}
  }

  lemma DrainedIsAcknowledged(s: State)
    requires Reachable(s) && Drained(s)
    ensures forall u :: u in s.hub.store ==> s.hub.store[u].id in s.past.acked
  {
    InvariantReachable(s);
  }
}
