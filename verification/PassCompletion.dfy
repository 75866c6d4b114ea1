/**
 A reconcile pass can always be completed: from every live state some interleaving visits every record,
 and if the work at hand is with messages that the edge takes whenever they come, drains the queue.
 */
module PassCompletion {
  import opened Common
  import opened Messages
  import opened Delivery
  import opened DeliverySafety
  import opened Reconcile
  import opened Underway
  import opened Convergence
  import opened Progress

  ghost predicate PassAt(start: State, p: Pass, cluster: Cluster) {
    exists trace :: Undisturbed(trace) && PassExec(start, trace, cluster) == Some(p)
  }

  lemma PassOne(start: State, p: Pass, t: PassStep, cluster: Cluster)
    requires PassAt(start, p, cluster) && PassEnabled(p, t, cluster) && (t.Protocol? ==> Calm(t.step))
    ensures PassAt(start, PassApply(p, t, cluster), cluster)
  {
    var trace :| Undisturbed(trace) && PassExec(start, trace, cluster) == Some(p);
    assert (trace + [t])[..|trace|] == trace;
    assert Undisturbed(trace + [t]);
    assert PassExec(start, trace + [t], cluster) == Some(PassApply(p, t, cluster));
  }

  /** A calm continuation of the protocol continues the pass. */
  lemma {:induction false} PassFollows(start: State, p: Pass, trace: seq<Step>, cluster: Cluster)
    requires PassAt(start, p, cluster) && Follow(p.s, trace).Some? && (forall t :: t in trace ==> Calm(t))
    ensures PassAt(start, p.(s := Follow(p.s, trace).value), cluster)
  {
    if trace != [] {
      var n := |trace| - 1;
      PassFollows(start, p, trace[..n], cluster);
      assert trace[n] in trace;
      PassOne(start, p.(s := Follow(p.s, trace[..n]).value), Protocol(trace[n]), cluster);
    }
  }

  lemma {:induction false} FreshId(ids: set<nat>) returns (id: nat)
    ensures forall x :: x in ids ==> x < id
    decreases |ids|
  {
    if ids == {} {
      id := 0;
    } else {
      var x :| x in ids;
      var rest := FreshId(ids - {x});
      id := if x < rest then rest else x + 1;
      assert forall y :: y in ids ==> y == x || y in ids - {x};
    }
  }

  /** A pass that has got to p. */
  ghost predicate Under(start: State, p: Pass, cluster: Cluster) {
    && Reachable(start) && start.hub.live && Consistent(start, cluster)
    && PassAt(start, p, cluster) && Reachable(p.s) && p.s.hub.live
  }

  lemma Begins(start: State, cluster: Cluster) returns (p: Pass)
    requires Reachable(start) && start.hub.live && Consistent(start, cluster)
    ensures Under(start, p, cluster) && p == Pass(start, start.hub.records.Keys, start.hub.records)
  {
    p := Pass(start, start.hub.records.Keys, start.hub.records);
    assert PassExec(start, [], cluster) == Some(p);
  }

  lemma Continues(start: State, p: Pass, s': State, cluster: Cluster) returns (p': Pass)
    requires Under(start, p, cluster) && At(p.s, s')
    ensures Under(start, p', cluster) && p' == p.(s := s')
  {
    var run :| Follow(p.s, run) == Some(s') && (forall t :: t in run ==> Calm(t));
    PassFollows(start, p, run, cluster);
    p' := p.(s := s');
  }

  /** Any record that is left can be visited when the enqueuer is free. */
  lemma VisitOne(start: State, p: Pass, cluster: Cluster) returns (p': Pass)
    requires Under(start, p, cluster) && p.todo != {} && p.s.hub.enqueuer.Ready?
    ensures Under(start, p', cluster) && p'.todo < p.todo
    ensures Drained(p.s) ==> PlainWork(p'.s)
  {
    var trace :| Undisturbed(trace) && PassExec(start, trace, cluster) == Some(p);
    var u :| u in p.todo;
    PassInvariant(start, trace, cluster, u);
    var id := FreshId(p.s.past.issued.Keys);
    var t := Visit(u, id);
    p' := PassApply(p, t, cluster);
    PassOne(start, p, t, cluster);
    VisitReaches(p, u, id, cluster);
    if Drained(p.s) {
      VisitIsPlain(p, t, cluster);
    }
  }

  lemma VisitReaches(p: Pass, u: Uid, id: nat, cluster: Cluster)
    requires Reachable(p.s) && PassEnabled(p, Visit(u, id), cluster) && p.s.hub.live
    ensures Reachable(PassApply(p, Visit(u, id), cluster).s) && PassApply(p, Visit(u, id), cluster).s.hub.live
  {
    if Sent(p, u, id, cluster).Some? {
      ReachableStep(p.s, Sent(p, u, id, cluster).value);
    }
  }

  /** A visit leaves only plain work behind. */
  lemma VisitIsPlain(p: Pass, t: PassStep, cluster: Cluster)
    requires Drained(p.s) && t.Visit? && PassEnabled(p, t, cluster)
    ensures PlainWork(PassApply(p, t, cluster).s)
  {
  }

  // ---------------------------------------------------------------- every record is visited

  /** The enqueuer is never stuck. */
  lemma EnqueuerFree(from: State, s: State) returns (s': State)
    requires At(from, s)
    ensures At(from, s') && s'.hub.enqueuer.Ready?
  {
    s' := s;
    InvariantReachable(s);
    if s'.hub.enqueuer.Chosen? { s' := Then(from, s', StoreAdd); }
    if s'.hub.enqueuer.Stored? { s' := Then(from, s', QueueAdd); }
  }

  lemma VisitAll(start: State, p: Pass, cluster: Cluster) returns (p': Pass)
    requires Under(start, p, cluster)
    ensures Under(start, p', cluster) && p'.todo == {}
    decreases p.todo
  {
    if p.todo == {} {
      p' := p;
    } else {
      Stay(p.s);
      var s' := EnqueuerFree(p.s, p.s);
      p' := Continues(start, p, s', cluster);
      p' := VisitOne(start, p', cluster);
      p' := VisitAll(start, p', cluster);
    }
  }

  /** From every live state, whatever is queued or stuck, some pass visits every record. */
  lemma EveryRecordCanBeVisited(start: State, cluster: Cluster)
    requires Reachable(start) && start.hub.live && Consistent(start, cluster)
    ensures exists trace, p :: Undisturbed(trace) && PassExec(start, trace, cluster) == Some(p) && p.todo == {}
  {
    var p := Begins(start, cluster);
    p := VisitAll(start, p, cluster);
    var trace :| Undisturbed(trace) && PassExec(start, trace, cluster) == Some(p);
  }

  // ---------------------------------------------------------------- and the queue is drained

  lemma DrainPass(start: State, p: Pass, cluster: Cluster) returns (p': Pass)
    requires Under(start, p, cluster) && PlainWork(p.s)
    ensures Under(start, p', cluster) && Drained(p'.s) && p'.todo == p.todo
  {
    Stay(p.s);
    var s' := Drain(p.s, p.s);
    p' := Continues(start, p, s', cluster);
  }

  lemma Complete(start: State, p: Pass, cluster: Cluster) returns (p': Pass)
    requires Under(start, p, cluster) && Drained(p.s)
    ensures Under(start, p', cluster) && p'.todo == {} && Drained(p'.s)
    decreases p.todo
  {
    if p.todo == {} {
      p' := p;
    } else {
      p' := VisitOne(start, p, cluster);
      p' := DrainPass(start, p', cluster);
      p' := Complete(start, p', cluster);
    }
  }

  /** From every live state whose work is plain some pass visits every record and drains the queue. */
  lemma PassCompletes(start: State, cluster: Cluster)
    requires Reachable(start) && start.hub.live && PlainWork(start) && Consistent(start, cluster)
    ensures exists trace, p ::
              Undisturbed(trace) && PassExec(start, trace, cluster) == Some(p) && p.todo == {} && Drained(p.s)
  {
    var p := Begins(start, cluster);
    p := DrainPass(start, p, cluster);
    p := Complete(start, p, cluster);
    var trace :| Undisturbed(trace) && PassExec(start, trace, cluster) == Some(p);
  }
}
