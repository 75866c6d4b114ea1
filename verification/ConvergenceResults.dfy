/**
 What one reconcile pass achieves: from any live state, from one in which the object is settled, from a
 drained one, and after runs in which nothing upsets the record.
 */
module ConvergenceResults {
  import opened Common
  import opened Versions
  import opened Messages
  import opened Delivery
  import opened DeliverySafety
  import opened DeliveryRecords
  import opened Reconcile
  import opened Underway
  import opened Convergence

  // ---------------------------------------------------------------- from any live state

  /** Reconcile would send an update for a record with this status. */
  predicate Behind(status: string, found: Lookup) {
    found.Found? && status != "" && Num(found.version) > Num(status)
  }

  /** The update of a visit is not taken, or not sent, and what u will end up with is behind the object. */
  predicate Lags(start: State, u: Uid, found: Lookup)
    requires u in start.hub.records
  {
    !Accepts(start, u, found) && Expected(start, u).Some? && Behind(Expected(start, u).value, found)
  }

  /** No delete of the object is in flight, or the object is gone and no removal is failing. */
  predicate Undeleted(start: State, u: Uid, found: Lookup) {
    if Orphan(u, found) then !RemovalFailed(start, u) else NoDelete(start, u)
  }

  /** The next pass has nothing to send for u. */
  predicate IdleFor(s: State, u: Uid, found: Lookup) {
    u in s.hub.records ==> ReconcileRecord(u, s.hub.records[u], found, true) == Nothing
  }

  /** From any live state: after its visit, once u is settled, the next pass has nothing to send for u if and
      only if u did not lag. */
  lemma NextPassIdleIff(start: State, trace: seq<PassStep>, cluster: Cluster, p: Pass, u: Uid)
    requires Through(start, trace, cluster, p, u) && u in start.hub.records && Undeleted(start, u, cluster[u])
    ensures IdleFor(p.s, u, cluster[u]) <==> Orphan(u, cluster[u]) || !Lags(start, u, cluster[u])
  {
    PassOutcome(start, trace, cluster, p, u);
    PassInvariant(start, trace, cluster, u);
  }

  // ---------------------------------------------------------------- an object that was settled

  /** The record is behind the object, but the store already holds a delete or a version as new. */
  predicate Blocked(s: State, u: Uid, found: Lookup) {
    && u in s.hub.records && u in s.hub.store && found.Found? && found.uid == u && !found.deleting
    && s.hub.records[u] != "" && Num(found.version) > Num(s.hub.records[u])
    && (IsDelete(s.hub.store[u]) || Num(found.version) <= Num(s.hub.store[u].version))
  }

  /** Where one pass takes a record. */
  function Outcome(s: State, u: Uid, found: Lookup): Option<string>
    requires u in s.hub.records
  {
    if Blocked(s, u, found) then Some(s.hub.records[u]) else Target(u, s.hub.records[u], found)
  }

  /** No delete is in flight for a settled object, and it is blocked exactly when it lags. */
  lemma SettledIsUndeleted(s: State, u: Uid, found: Lookup)
    requires Reachable(s) && s.hub.live && Settled(s, u)
    ensures NoDelete(s, u) && !RemovalFailed(s, u) && !InFlight(s, u)
    ensures u in s.hub.records && !Orphan(u, found) ==>
              && PassResult(s, u, found) == Outcome(s, u, found)
              && (Lags(s, u, found) <==> Blocked(s, u, found))
  {
    InvariantReachable(s);
  }

  /** From any live state in which nothing is under way for u, whatever is queued for the others: after its
      visit, once u is settled again, its record is where Outcome says, and it has one only if it had one. */
  lemma SettledOutcome(start: State, trace: seq<PassStep>, cluster: Cluster, p: Pass, u: Uid)
    requires Through(start, trace, cluster, p, u) && Settled(start, u)
    ensures u in start.hub.records ==> RecordIs(p.s.hub.records, u, Outcome(start, u, cluster[u]))
    ensures u !in start.hub.records ==> u !in p.s.hub.records
  {
    PassOutcome(start, trace, cluster, p, u);
    SettledIsUndeleted(start, u, if u in cluster then cluster[u] else Missing);
  }

  // ---------------------------------------------------------------- from a drained state

  /** A pass over all records from a drained state to a drained one. */
  ghost predicate Completed(start: State, trace: seq<PassStep>, cluster: Cluster, p: Pass) {
    && Reachable(start) && Drained(start) && Consistent(start, cluster) && Undisturbed(trace)
    && PassExec(start, trace, cluster) == Some(p) && p.todo == {} && Drained(p.s)
  }

  /** Every record of start is where it belongs in s. */
  ghost predicate Converged(start: State, s: State, cluster: Cluster)
    requires start.hub.records.Keys <= cluster.Keys
  {
    forall u :: u in start.hub.records ==> RecordIs(s.hub.records, u, Target(u, start.hub.records[u], cluster[u]))
  }

  /** Reconcile would send nothing. */
  ghost predicate NothingToSend(s: State, cluster: Cluster)
    requires s.hub.records.Keys <= cluster.Keys
  {
    forall u :: u in s.hub.records ==> ReconcileRecord(u, s.hub.records[u], cluster[u], true) == Nothing
  }

  ghost predicate NoneBlocked(s: State, cluster: Cluster)
    requires s.hub.records.Keys <= cluster.Keys
  {
    forall u :: u in s.hub.records ==> !Blocked(s, u, cluster[u])
  }

  /** A drained pass leaves each record where Outcome says, and none appears. */
  lemma DrainedOutcome(start: State, trace: seq<PassStep>, cluster: Cluster, p: Pass)
    requires Completed(start, trace, cluster, p)
    ensures p.s.hub.records.Keys <= start.hub.records.Keys <= cluster.Keys
    ensures forall u :: u in start.hub.records ==> RecordIs(p.s.hub.records, u, Outcome(start, u, cluster[u]))
  {
    forall u | u in start.hub.records ensures RecordIs(p.s.hub.records, u, Outcome(start, u, cluster[u])) {
      SettledOutcome(start, trace, cluster, p, u);
    }
    forall u | u in p.s.hub.records ensures u in start.hub.records {
      SettledOutcome(start, trace, cluster, p, u);
    }
  }

  /** The pass leaves every orphaned record gone and every other one at the newer of its version and the
      object's exactly when no record was blocked at the start; and exactly then the next pass is idle. */
  lemma ReconcileConvergesIff(start: State, trace: seq<PassStep>, cluster: Cluster, p: Pass)
    requires Completed(start, trace, cluster, p)
    ensures p.s.hub.records.Keys <= start.hub.records.Keys <= cluster.Keys
    ensures Converged(start, p.s, cluster) <==> NoneBlocked(start, cluster)
    ensures NothingToSend(p.s, cluster) <==> NoneBlocked(start, cluster)
  {
    DrainedOutcome(start, trace, cluster, p);
    forall u | u in start.hub.records
      ensures RecordIs(p.s.hub.records, u, Target(u, start.hub.records[u], cluster[u])) <==>
              !Blocked(start, u, cluster[u])
      ensures Blocked(start, u, cluster[u]) ==> u in p.s.hub.records
      ensures IdleFor(p.s, u, cluster[u]) <==> !Blocked(start, u, cluster[u])
    {
      SettledIsUndeleted(start, u, cluster[u]);
      NextPassIdleIff(start, trace, cluster, p, u);
    }
  }

  // ---------------------------------------------------------------- after runs in which saves succeed

  /** What is in line for u does not announce a deletion that is not under way in the cluster, and what is
      in flight does not fall behind the record. */
  predicate Harmless(s: State, u: Uid, found: Lookup)
    requires u in s.hub.records
  {
    && (Line(s, u).Some? && IsDelete(Line(s, u).value) ==> found.Found? ==> found.deleting)
    && (InFlight(s, u) ==> s.hub.records[u] != "" && Num(s.hub.records[u]) <= Num(Line(s, u).value.version))
  }

  /** When saves succeed, a store entry that is at rest is what the record says. */
  lemma StoreAtRest(s: State, u: Uid)
    requires Inv(s) && s.hub.live && MatchInv(s) && NoDelete(s, u) && !InFlight(s, u) && u in s.hub.store
    ensures u in s.hub.records && s.hub.records[u] == s.hub.store[u].version
  {
    assert Match(s, u);
  }

  lemma HarmlessDoesNotLag(s: State, u: Uid, found: Lookup)
    requires Inv(s) && s.hub.live && MatchInv(s) && NoDelete(s, u) && u in s.hub.records
    requires !Orphan(u, found) && Harmless(s, u, found)
    ensures !Lags(s, u, found)
  {
    if !InFlight(s, u) && u in s.hub.store {
      StoreAtRest(s, u);
    }
  }

  /** The history of start, in which saves succeed and no replaced session saves late. */
  ghost predicate Saved(history: seq<Step>, start: State) {
    Exec(history) == Some(start) && forall t :: t in history ==> SavesOk(t)
  }

  /** After every such run, from any live state: after its visit, once u is settled, the record of u is gone if
      it is an orphan, and otherwise the next pass has nothing to send for u, provided no delete and nothing
      harmful was in flight for it. */
  lemma LiveReconcileConverges(history: seq<Step>, start: State, trace: seq<PassStep>, cluster: Cluster, p: Pass,
                               u: Uid)
    requires Saved(history, start) && Through(start, trace, cluster, p, u) && u in start.hub.records
    requires !Orphan(u, cluster[u]) ==> NoDelete(start, u) && Harmless(start, u, cluster[u])
    ensures IdleFor(p.s, u, cluster[u])
    ensures Orphan(u, cluster[u]) ==> u !in p.s.hub.records
  {
    InvariantReachable(start);
    MatchOfRuns(history);
    RemovalsSucceed(history, u);
    NextPassIdleIff(start, trace, cluster, p, u);
    PassOutcome(start, trace, cluster, p, u);
    if !Orphan(u, cluster[u]) {
      HarmlessDoesNotLag(start, u, cluster[u]);
    }
  }

  /** So a pass from a drained state converges, unless a deletion announced to the edge is not under way in
      the cluster. */
  lemma ReconcileConverges(history: seq<Step>, start: State, trace: seq<PassStep>, cluster: Cluster, p: Pass)
    requires Saved(history, start) && Completed(start, trace, cluster, p)
    requires forall u :: u in start.hub.records && u in start.hub.store && IsDelete(start.hub.store[u]) ==>
               !cluster[u].Found? || cluster[u].deleting || cluster[u].uid != u
    ensures p.s.hub.records.Keys <= start.hub.records.Keys <= cluster.Keys
    ensures Converged(start, p.s, cluster) && NothingToSend(p.s, cluster)
  {
    InvariantReachable(start);
    MatchOfRuns(history);
    forall u | u in start.hub.records ensures !Blocked(start, u, cluster[u]) {
      SettledIsUndeleted(start, u, cluster[u]);
      if !Orphan(u, cluster[u]) {
        HarmlessDoesNotLag(start, u, cluster[u]);
      }
    }
    ReconcileConvergesIff(start, trace, cluster, p);
  }

  lemma {:induction false} RemovalsSucceed(history: seq<Step>, u: Uid)
    requires forall t :: t in history ==> SavesOk(t)
    ensures Exec(history).Some? ==> !RemovalFailed(Exec(history).value, u)
  {
    if history != [] && Exec(history).Some? {
      var n := |history| - 1;
      InvariantOfRuns(history[..n]);
      RemovalsSucceed(history[..n], u);
      var s, t := Exec(history[..n]).value, history[n];
      if t.DecideEnqueue? {
        RemovalDecide(s, t, u);
      } else if !t.Reconnect? && !t.Terminate? {
        RemovalStep(s, t, u);
      }
    }
  }

  lemma RemovalDecide(s: State, t: Step, u: Uid)
    requires ReplacedInv(s) && !RemovalFailed(s, u) && Enabled(s, t) && t.DecideEnqueue?
    ensures !RemovalFailed(Apply(s, t), u)
  {
  }

  // ---------------------------------------------------------------- a record that catches up

  /** Every step of the history leaves u without forced messages and late saves. */
  ghost predicate QuietFor(history: seq<Step>, u: Uid) {
    forall t :: t in history ==> Quiet(t, u)
  }

  lemma QuietIsHarmless(history: seq<Step>, start: State, u: Uid)
    requires Saved(history, start) && QuietFor(history, u) && start.hub.live
    ensures NoDelete(start, u) && MatchInv(start) && Inv(start) && Ahead(start, u)
  {
    InvariantOfRuns(history);
    MatchOfRuns(history);
    AheadOfRuns(history, u);
  }

  /** After every run in which saves succeed and no forced message or late save concerns u, from any live
      state: after its visit, once u is settled, a written record is at least as new as the object. */
  lemma RecordCatchesUp(history: seq<Step>, start: State, trace: seq<PassStep>, cluster: Cluster, p: Pass, u: Uid)
    requires Saved(history, start) && QuietFor(history, u) && Through(start, trace, cluster, p, u)
    requires u in start.hub.records && start.hub.records[u] != "" && cluster[u].Found? && cluster[u].uid == u
    ensures u in p.s.hub.records && Num(p.s.hub.records[u]) >= Num(cluster[u].version)
  {
    QuietIsHarmless(history, start, u);
    PassOutcome(start, trace, cluster, p, u);
    HarmlessDoesNotLag(start, u, cluster[u]);
    if InFlight(start, u) {
      InFlightIsVersioned(start, u);
    }
  }

  lemma InFlightIsVersioned(s: State, u: Uid)
    requires Inv(s) && Ahead(s, u) && InFlight(s, u)
    ensures IsNumeral(Line(s, u).value.version)
  {
  }

  // ---------------------------------------------------------------- a record that equals its object

  /** Every message issued for u so far carries a canonical version, and none is ahead of the object. */
  ghost predicate NotAhead(s: State, u: Uid, found: Lookup) {
    found.Found? && found.uid == u && Canonical(found.version) &&
    forall id :: id in s.past.issued && KeyOf(s.past.issued[id]) == Some(u) ==>
      Canonical(s.past.issued[id].version) && Num(s.past.issued[id].version) <= Num(found.version)
  }

  /** A record that was written is then "0" or such a version. */
  lemma RecordNotAhead(s: State, u: Uid, found: Lookup)
    requires Reachable(s) && NotAhead(s, u, found) && u in s.hub.records && s.hub.records[u] != ""
    ensures Canonical(s.hub.records[u]) && Num(s.hub.records[u]) <= Num(found.version)
  {
    InvariantReachable(s);
    ZeroIsNumeral();
    if s.hub.records[u] != "0" {
      assert PersistedVersion(s, u, s.hub.records[u]);
      var i :| 0 <= i < |s.past.log| && s.past.log[i] < |s.past.sent| &&
        KeyOf(s.past.sent[s.past.log[i]].msg) == Some(u) && s.past.sent[s.past.log[i]].msg.version == s.hub.records[u];
      assert Registered(s, s.past.sent[s.past.log[i]].msg);
    }
  }

  /** So is what u will end up with. */
  lemma ExpectedNotAhead(s: State, u: Uid, found: Lookup)
    requires Reachable(s) && NotAhead(s, u, found) && u in s.hub.records && s.hub.records[u] != ""
    ensures Expected(s, u).Some? && Canonical(Expected(s, u).value) && Num(Expected(s, u).value) <= Num(found.version)
  {
    InvariantReachable(s);
    if InFlight(s, u) {
      assert Registered(s, Line(s, u).value) && KeyOf(Line(s, u).value) == Some(u);
    } else {
      RecordNotAhead(s, u, found);
    }
  }

  /** From any live state, if nothing issued for u is ahead of the object and its status was written: after
      its visit, once u is settled, the record is the version of the object exactly when u did not lag. */
  lemma RecordEqualsObjectIff(start: State, trace: seq<PassStep>, cluster: Cluster, p: Pass, u: Uid)
    requires Through(start, trace, cluster, p, u) && NoDelete(start, u)
    requires u in start.hub.records && start.hub.records[u] != "" && NotAhead(start, u, cluster[u])
    ensures u in p.s.hub.records
    ensures p.s.hub.records[u] == cluster[u].version <==> !Lags(start, u, cluster[u])
  {
    PassOutcome(start, trace, cluster, p, u);
    ExpectedNotAhead(start, u, cluster[u]);
    var want := Expected(start, u).value;
    if Num(want) == Num(cluster[u].version) {
      CanonicalUnique(want, cluster[u].version);
    }
  }

  /** So it always is after a run in which saves succeed and no forced message or late save concerns u. */
  lemma RecordEqualsObject(history: seq<Step>, start: State, trace: seq<PassStep>, cluster: Cluster, p: Pass, u: Uid)
    requires Saved(history, start) && QuietFor(history, u) && Through(start, trace, cluster, p, u)
    requires u in start.hub.records && start.hub.records[u] != "" && NotAhead(start, u, cluster[u])
    ensures u in p.s.hub.records && p.s.hub.records[u] == cluster[u].version
  {
    QuietIsHarmless(history, start, u);
    HarmlessDoesNotLag(start, u, cluster[u]);
    RecordEqualsObjectIff(start, trace, cluster, p, u);
  }
}
