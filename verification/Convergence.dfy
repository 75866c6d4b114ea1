/**
 One reconcile pass converges.  The pass lists the records, and visits each of them once; before,
 between and after the visits the delivery protocol runs on, with whatever was queued or in flight when
 the pass began, with messages for other objects, and with losses, retries and timeouts of its own.
 */
module Convergence {
  import opened Common
  import opened Versions
  import opened Messages
  import opened Delivery
  import opened DeliverySafety
  import opened Reconcile
  import opened Underway

  /** The protocol, the records the pass has yet to visit, and what it read when it listed them. */
  datatype Pass = Pass(s: State, todo: set<Uid>, seen: Records)

  datatype PassStep = Visit(uid: Uid, id: nat) | Protocol(step: Step)

  type Cluster = map<Uid, Lookup>

  const WORKING: EnqueueApi := EnqueueApi(true, true, true)

  function Planned(p: Pass, u: Uid, cluster: Cluster): Action
    requires u in p.seen && u in cluster
  {
    ReconcileRecord(u, p.seen[u], cluster[u], true)
  }

  predicate PassEnabled(p: Pass, t: PassStep, cluster: Cluster) {
    match t
    case Visit(u, id) =>
      && u in p.todo && u in p.seen && u in cluster
      && p.s.hub.enqueuer.Ready? && id !in p.s.past.issued
    case Protocol(step) => Enabled(p.s, step)
  }

  /** What a visit sends, if anything, and can be issued. */
  function Sent(p: Pass, u: Uid, id: nat, cluster: Cluster): Option<Step>
    requires u in p.seen && u in cluster
  {
    var action := Planned(p, u, cluster);
    if action.SendDelete? || action.SendUpdate? then
      var step := DecideEnqueue(MessageFor(action, id, u), WORKING);
      if Enabled(p.s, step) then Some(step) else None
    else None
  }

  function PassApply(p: Pass, t: PassStep, cluster: Cluster): Pass
    requires PassEnabled(p, t, cluster)
  {
    match t
    case Visit(u, id) =>
      var sent := Sent(p, u, id, cluster);
      p.(s := if sent.Some? then Apply(p.s, sent.value) else p.s, todo := p.todo - {u})
    case Protocol(step) => p.(s := Apply(p.s, step))
  }

  function PassExec(start: State, trace: seq<PassStep>, cluster: Cluster): Option<Pass> {
    if trace == [] then Some(Pass(start, start.hub.records.Keys, start.hub.records))
    else
      var n := |trace| - 1;
      match PassExec(start, trace[..n], cluster)
      case None => None
      case Some(p) => if PassEnabled(p, trace[n], cluster) then Some(PassApply(p, trace[n], cluster)) else None
  }

  /** Apart from the visits, nothing in the pass concerns u but the protocol itself. */
  ghost predicate CalmPass(trace: seq<PassStep>, u: Uid) {
    forall t :: t in trace && t.Protocol? ==> CalmFor(t.step, u)
  }

  /** Apart from the visits, the pass is nothing but the protocol. */
  ghost predicate Undisturbed(trace: seq<PassStep>) {
    forall t :: t in trace && t.Protocol? ==> Calm(t.step)
  }

  /** Every record can be looked up, and lookups that find an object find a numeral version. */
  ghost predicate Consistent(s: State, cluster: Cluster) {
    forall u :: u in s.hub.records ==> u in cluster && (cluster[u].Found? ==> IsNumeral(cluster[u].version))
  }

  // ---------------------------------------------------------------- one visit

  /** The dispatcher takes the update of a visit to u. */
  predicate Accepts(start: State, u: Uid, found: Lookup)
    requires u in start.hub.records
  {
    && found.Found? && found.uid == u
    && start.hub.records[u] != "" && Num(found.version) > Num(start.hub.records[u])
    && (found.deleting || Line(start, u).None? ||
        (!IsDelete(Line(start, u).value) && Num(Line(start, u).value.version) < Num(found.version)))
  }

  /** Where one pass takes the record of an object that is not orphaned. */
  function PassResult(start: State, u: Uid, found: Lookup): Option<string>
    requires u in start.hub.records
  {
    if Accepts(start, u, found) then Some(found.version) else Expected(start, u)
  }

  /** A visit to u enqueues the update exactly when Accepts says so, and changes nothing otherwise. */
  lemma VisitUpdates(p: Pass, u: Uid, id: nat, start: State, cluster: Cluster)
    requires VersionInv(start) && VersionInv(p.s) && p.seen == start.hub.records && Consistent(start, cluster)
    requires PassEnabled(p, Visit(u, id), cluster) && !Orphan(u, cluster[u])
    requires AsFar(start, p.s, u)
    ensures var s' := PassApply(p, Visit(u, id), cluster).s;
            && SameBut(p.s, s')
            && (if Accepts(start, u, cluster[u])
                then s'.hub.enqueuer == Chosen(Update(cluster[u].version, cluster[u].deleting, id, u))
                else s'.hub.enqueuer.Ready?)
  {
    var action := Planned(p, u, cluster);
    if action.SendUpdate? {
      UpdateDecided(p, u, id, start, cluster);
    }
  }

  function Update(version: string, deleting: bool, id: nat, u: Uid): Message {
    MessageFor(SendUpdate(version, deleting), id, u)
  }

  /** Only the enqueuer has moved. */
  predicate SameBut(s: State, s': State) {
    && s'.hub.store == s.hub.store && s'.hub.records == s.hub.records
    && s'.hub.sender == s.hub.sender && s'.hub.queue == s.hub.queue
  }

  lemma UpdateDecided(p: Pass, u: Uid, id: nat, start: State, cluster: Cluster)
    requires VersionInv(start) && VersionInv(p.s) && p.seen == start.hub.records && Consistent(start, cluster)
    requires PassEnabled(p, Visit(u, id), cluster) && !Orphan(u, cluster[u])
    requires AsFar(start, p.s, u) && Planned(p, u, cluster).SendUpdate?
    ensures var m := MessageFor(Planned(p, u, cluster), id, u);
            && Enabled(p.s, DecideEnqueue(m, WORKING))
            && RecordsAfterDecide(m, p.s.hub.store, p.s.hub.records, WORKING) == p.s.hub.records
            && Decide(m, p.s.hub.store, p.s.hub.records, WORKING) ==
                 (if Accepts(start, u, cluster[u]) then Accept else Discard)
  {
    var m := MessageFor(Planned(p, u, cluster), id, u);
    assert KeyOf(m) == Some(u) && IsNumeral(m.version);
    if u in p.s.hub.store {
      assert Line(p.s, u) == Some(p.s.hub.store[u]);
    } else {
      assert Line(start, u).None? && p.s.hub.records[u] == start.hub.records[u];
    }
  }

  /** The delete that a visit to an orphan sends is always taken. */
  lemma VisitDeletes(p: Pass, u: Uid, id: nat, cluster: Cluster)
    requires PassEnabled(p, Visit(u, id), cluster) && Orphan(u, cluster[u]) && !RemovalFailed(p.s, u)
    ensures Leaving(PassApply(p, Visit(u, id), cluster).s, u)
  {
    var m := MessageFor(Planned(p, u, cluster), id, u);
    assert Decide(m, p.s.hub.store, p.s.hub.records, WORKING) == Accept;
  }

  lemma VisitElsewhere(p: Pass, w: Uid, id: nat, u: Uid, cluster: Cluster)
    requires PassEnabled(p, Visit(w, id), cluster) && w != u
    ensures Untouched(p.s, PassApply(p, Visit(w, id), cluster).s, u)
  {
  }

  // ---------------------------------------------------------------- the invariant of the pass

  /** How far the pass has got with u. */
  ghost predicate Progressed(p: Pass, start: State, cluster: Cluster, u: Uid) {
    if u !in start.hub.records || u in p.todo then
      && (NoDelete(start, u) ==> AsFar(start, p.s, u))
      && (!RemovalFailed(start, u) ==> !RemovalFailed(p.s, u))
    else if u in cluster && Orphan(u, cluster[u]) then
      !RemovalFailed(start, u) ==> Leaving(p.s, u)
    else
      NoDelete(start, u) && u in cluster ==>
        NoDelete(p.s, u) && Expected(p.s, u) == PassResult(start, u, cluster[u])
  }

  ghost predicate PassInv(p: Pass, start: State, cluster: Cluster, u: Uid) {
    && VersionInv(start) && Inv(p.s) && p.s.hub.live
    && p.seen == start.hub.records && p.todo <= start.hub.records.Keys
    && Progressed(p, start, cluster, u)
  }

  lemma ProtocolStep(p: Pass, t: Step, start: State, cluster: Cluster, u: Uid)
    requires PassInv(p, start, cluster, u) && PassEnabled(p, Protocol(t), cluster) && CalmFor(t, u)
    ensures PassInv(PassApply(p, Protocol(t), cluster), start, cluster, u)
  {
    InvStep(p.s, t);
    StaysLive(p.s, t, u);
    ProgressStep(p, t, start, cluster, u);
  }

  lemma ProgressStep(p: Pass, t: Step, start: State, cluster: Cluster, u: Uid)
    requires Inv(p.s) && p.s.hub.live && Progressed(p, start, cluster, u)
    requires Enabled(p.s, t) && CalmFor(t, u)
    ensures Progressed(p.(s := Apply(p.s, t)), start, cluster, u)
  {
    if Leaving(p.s, u) {
      LeavingStep(p.s, t, u);
    }
    if !RemovalFailed(p.s, u) {
      RemovalStep(p.s, t, u);
    }
    if NoDelete(p.s, u) {
      ExpectedStep(p.s, t, u);
    }
  }

  lemma VisitStep(p: Pass, w: Uid, id: nat, start: State, cluster: Cluster, u: Uid)
    requires PassInv(p, start, cluster, u) && Consistent(start, cluster) && PassEnabled(p, Visit(w, id), cluster)
    ensures PassInv(PassApply(p, Visit(w, id), cluster), start, cluster, u)
  {
    VisitKeepsInv(p, w, id, cluster);
    if w != u {
      VisitElsewhere(p, w, id, u, cluster);
      OtherProgress(p, PassApply(p, Visit(w, id), cluster), start, cluster, u);
    } else if Orphan(u, cluster[u]) {
      if !RemovalFailed(p.s, u) {
        VisitDeletes(p, u, id, cluster);
      }
    } else if NoDelete(start, u) {
      VisitUpdates(p, u, id, start, cluster);
      OwnProgress(p.s, PassApply(p, Visit(u, id), cluster).s, id, start, cluster[u], u);
    }
  }

  lemma OtherProgress(p: Pass, p': Pass, start: State, cluster: Cluster, u: Uid)
    requires Progressed(p, start, cluster, u) && Untouched(p.s, p'.s, u) && p.s.hub.enqueuer.Ready?
    requires u in p'.todo <==> u in p.todo
    ensures Progressed(p', start, cluster, u)
  {
  }

  /** After its visit, u will end up where PassResult says. */
  lemma OwnProgress(s: State, s': State, id: nat, start: State, found: Lookup, u: Uid)
    requires AsFar(start, s, u) && SameBut(s, s') && s.hub.enqueuer.Ready? && u in start.hub.records
    requires if Accepts(start, u, found) then s'.hub.enqueuer == Chosen(Update(found.version, found.deleting, id, u))
             else s'.hub.enqueuer.Ready?
    ensures NoDelete(s', u) && Expected(s', u) == PassResult(start, u, found)
  {
  }

  lemma VisitKeepsInv(p: Pass, w: Uid, id: nat, cluster: Cluster)
    requires Inv(p.s) && p.s.hub.live && PassEnabled(p, Visit(w, id), cluster)
    ensures Inv(PassApply(p, Visit(w, id), cluster).s) && PassApply(p, Visit(w, id), cluster).s.hub.live
  {
    if Sent(p, w, id, cluster).Some? {
      InvStep(p.s, Sent(p, w, id, cluster).value);
    }
  }

  lemma {:induction false} PassInvariant(start: State, trace: seq<PassStep>, cluster: Cluster, u: Uid)
    requires Reachable(start) && start.hub.live && Consistent(start, cluster) && CalmPass(trace, u)
    ensures PassExec(start, trace, cluster).Some? ==>
              PassInv(PassExec(start, trace, cluster).value, start, cluster, u)
  {
    if trace == [] {
      InvariantReachable(start);
    } else if PassExec(start, trace, cluster).Some? {
      var n := |trace| - 1;
      PassInvariant(start, trace[..n], cluster, u);
      var p := PassExec(start, trace[..n], cluster).value;
      assert trace[n] in trace;
      match trace[n]
      case Visit(w, id) => VisitStep(p, w, id, start, cluster, u);
      case Protocol(t) => ProtocolStep(p, t, start, cluster, u);
    }
  }

  // ---------------------------------------------------------------- where a pass leads

  /** p is a pass from a live state, and u, unless it had no record, has been visited and is settled. */
  ghost predicate Through(start: State, trace: seq<PassStep>, cluster: Cluster, p: Pass, u: Uid) {
    && Reachable(start) && start.hub.live && Consistent(start, cluster)
    && CalmPass(trace, u) && PassExec(start, trace, cluster) == Some(p) && u !in p.todo && Settled(p.s, u)
  }

  /** From any live state, whatever is queued or in flight, and whatever the interleaving: once u has been
      visited and nothing is under way for it, its record is gone if it is an orphan, and otherwise, unless
      a delete for u was in flight, is what PassResult says; if it had none, it has one exactly if a message
      for u was in flight. */
  lemma PassOutcome(start: State, trace: seq<PassStep>, cluster: Cluster, p: Pass, u: Uid)
    requires Through(start, trace, cluster, p, u)
    ensures u in start.hub.records && Orphan(u, cluster[u]) && !RemovalFailed(start, u) ==> u !in p.s.hub.records
    ensures u in start.hub.records && !Orphan(u, cluster[u]) && NoDelete(start, u) ==>
              RecordIs(p.s.hub.records, u, PassResult(start, u, cluster[u]))
    ensures u !in start.hub.records && NoDelete(start, u) ==> RecordIs(p.s.hub.records, u, Expected(start, u))
  {
    PassInvariant(start, trace, cluster, u);
    assert !InFlight(p.s, u);
    if u in start.hub.records && Orphan(u, cluster[u]) && !RemovalFailed(start, u) {
      LeavingIsGone(p.s, u);
    }
  }
}
