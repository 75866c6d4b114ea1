/**
 Why the theorems about a reconcile pass ask that no delete for the object be in flight: passes whose
 outcome depends on the interleaving, and one that leaves an orphan behind.
 */
module PassLimits {
  import opened Common
  import opened Versions
  import opened Messages
  import opened Delivery
  import opened DeliverySafety
  import opened Reconcile
  import opened Underway
  import opened Convergence
  import opened Progress
  import opened PassCompletion
  import opened DeliveryLimits

  /** From start, a pass over all records ends in a drained state in which "uid" has this record. */
  ghost predicate EndsWith(start: State, cluster: Cluster, want: Option<string>) {
    exists trace, p :: Undisturbed(trace) && PassExec(start, trace, cluster) == Some(p)
                    && p.todo == {} && Drained(p.s) && RecordIs(p.s.hub.records, "uid", want)
  }

  /** The pass is over, the rest of the work is plain, and a delete is the last word. */
  lemma EndsWithout(start: State, p: Pass, cluster: Cluster)
    requires Under(start, p, cluster) && p.todo == {} && PlainWork(p.s) && Leaving(p.s, "uid")
    ensures EndsWith(start, cluster, None)
  {
    Stay(p.s);
    var s' := Drain(p.s, p.s);
    var run :| Follow(p.s, run) == Some(s') && (forall t :: t in run ==> Calm(t));
    LeavingForGood(p.s, run, "uid");
    var p' := Continues(start, p, s', cluster);
    var trace :| Undisturbed(trace) && PassExec(start, trace, cluster) == Some(p');
  }

  /** The pass is over, the rest of the work is plain, and no delete is in flight. */
  lemma EndsWithExpected(start: State, p: Pass, cluster: Cluster)
    requires Under(start, p, cluster) && p.todo == {} && PlainWork(p.s) && NoDelete(p.s, "uid")
    ensures EndsWith(start, cluster, Expected(p.s, "uid"))
  {
    Stay(p.s);
    var s' := Drain(p.s, p.s);
    var run :| Follow(p.s, run) == Some(s') && (forall t :: t in run ==> Calm(t));
    ExpectedForGood(p.s, run, "uid");
    var p' := Continues(start, p, s', cluster);
    var trace :| Undisturbed(trace) && PassExec(start, trace, cluster) == Some(p');
  }

  lemma Step(start: State, p: Pass, t: PassStep, cluster: Cluster) returns (p': Pass)
    requires Under(start, p, cluster) && PassEnabled(p, t, cluster) && (t.Protocol? ==> Calm(t.step))
    ensures Under(start, p', cluster) && p' == PassApply(p, t, cluster)
  {
    p' := PassApply(p, t, cluster);
    PassOne(start, p, t, cluster);
    match t
    case Visit(u, id) => VisitReaches(p, u, id, cluster);
    case Protocol(step) => ReachableStep(p.s, step); StaysLive(p.s, step, "uid");
  }

  // ---------------------------------------------------------------- a delete in flight

  const SEVEN: Cluster := map["uid" := Found("uid", "7", false)]

  /** A record "0", whose object is at version 7, and a delete for it that is stored and queued. */
  ghost predicate DeleteQueued(s: State) {
    && Reachable(s) && s.hub.live && PlainWork(s) && s.hub.enqueuer.Ready? && s.hub.sender.Idle?
    && s.hub.store == map["uid" := Object(2, Delete, "")] && s.hub.records == map["uid" := "0"]
    && s.hub.queue.order == ["uid"] && s.net.wire == [] && s.net.edge.Waiting?
    && s.past.acked == {} && 3 !in s.past.issued
  }

  lemma QueueDelete() returns (s: State)
    ensures DeleteQueued(s)
  {
    SomeNumerals();
    s := FreshSession();
    s := Enqueue(s, Object(1, Insert, "5"));
    s := Enqueue(s, Object(2, Delete, ""));
  }

  /** The update that a visit to "uid" sends. */
  lemma PlannedSeven(p: Pass)
    requires p.seen == map["uid" := "0"]
    ensures Planned(p, "uid", SEVEN) == SendUpdate("7", false)
  {
    SomeNumerals();
    ZeroIsNumeral();
  }

  /** Visited before the delete has been delivered: the update is dropped, and the record goes. */
  lemma VisitedEarly(start: State)
    requires DeleteQueued(start)
    ensures EndsWith(start, SEVEN, None)
  {
    SomeNumerals();
    var p := Begins(start, SEVEN);
    PlannedSeven(p);
    p := Step(start, p, Visit("uid", 3), SEVEN);
    PendingDeleteIsLast(p.s, "uid");
    EndsWithout(start, p, SEVEN);
  }

  /** The delete has been delivered: no store entry and no record are left. */
  lemma DeliverDelete(start: State) returns (p: Pass)
    requires DeleteQueued(start)
    ensures Under(start, p, SEVEN) && Drained(p.s) && p.todo == {"uid"} && p.seen == map["uid" := "0"]
    ensures "uid" !in p.s.hub.store && "uid" !in p.s.hub.records
  {
    SomeNumerals();
    p := Begins(start, SEVEN);
    PendingDeleteIsLast(start, "uid");
    Stay(start);
    var s' := Drain(start, start);
    var run :| Follow(start, run) == Some(s') && (forall t :: t in run ==> Calm(t));
    LeavingForGood(start, run, "uid");
    p := Continues(start, p, s', SEVEN);
  }

  /** Visited after the delete has been delivered: the update is taken, and makes a new record. */
  lemma VisitedLate(start: State)
    requires DeleteQueued(start)
    ensures EndsWith(start, SEVEN, Some("7"))
  {
    SomeNumerals();
    var p := DeliverDelete(start);
    PlannedSeven(p);
    var id := FreshId(p.s.past.issued.Keys);
    VisitIsPlain(p, Visit("uid", id), SEVEN);
    p := Step(start, p, Visit("uid", id), SEVEN);
    EndsWithExpected(start, p, SEVEN);
  }

  /** With a delete in flight the outcome of a pass depends on the interleaving: from one state, the record of
      an object that exists ends up gone, or at its version. */
  lemma DeleteInFlightRaces()
    ensures exists start :: Reachable(start) && start.hub.live && Consistent(start, SEVEN) &&
              EndsWith(start, SEVEN, None) && EndsWith(start, SEVEN, Some("7"))
  {
    SomeNumerals();
    var start := QueueDelete();
    VisitedEarly(start);
    VisitedLate(start);
  }

  // ---------------------------------------------------------------- a removal that failed

  const GONE: Cluster := map["uid" := Missing]

  /** A delete was acknowledged, its record could not be removed, and its store entry is about to go. */
  lemma FailRemoval(delete_: Message) returns (s: State)
    requires delete_ == Object(2, Delete, "")
    ensures Reachable(s) && s.hub.live && s.hub.enqueuer.Ready? && s.hub.sender == Unstoring("uid", delete_)
    ensures s.hub.records == map["uid" := "0"] && s.hub.store == map["uid" := delete_] && 3 !in s.past.issued
  {
    s := QueueDelete();
    s := Deliver(s, "uid", delete_);
    s := Go(s, SeeAck);
    s := Go(s, Save(SaveApi(true, true, true, false)));
  }

  /** The delete of the visit has replaced the acknowledged one in the store. */
  lemma VisitGone(start: State) returns (p: Pass)
    requires Reachable(start) && start.hub.live && start.hub.enqueuer.Ready? && start.hub.sender.Unstoring?
    requires start.hub.records == map["uid" := "0"] && 3 !in start.past.issued
    ensures Under(start, p, GONE) && p.todo == {} && p.s.hub.records == start.hub.records
    ensures p.s.hub.enqueuer == Stored("uid") && p.s.hub.sender == start.hub.sender
    ensures p.s.hub.store.Keys == start.hub.store.Keys + {"uid"}
  {
    p := Begins(start, GONE);
    assert Planned(p, "uid", GONE) == SendDelete;
    p := Step(start, p, Visit("uid", 3), GONE);
    p := Step(start, p, Protocol(StoreAdd), GONE);
  }

  /** Removing the acknowledged delete then removes the one that is pending. */
  lemma RemoveBoth(start: State, p: Pass) returns (p': Pass)
    requires Under(start, p, GONE) && p.todo == {} && p.s.hub.enqueuer == Stored("uid")
    requires p.s.hub.sender.Unstoring? && p.s.hub.sender.key == "uid" && p.s.hub.store.Keys <= {"uid"}
    ensures Under(start, p', GONE) && p'.todo == {} && p'.s.hub.records == p.s.hub.records
    ensures p'.s.hub.enqueuer.Ready? && p'.s.hub.sender.Closing? && p'.s.hub.store == map[]
  {
    p' := Step(start, p, Protocol(Unstore), GONE);
    p' := Step(start, p', Protocol(QueueAdd), GONE);
  }

  /** A pass can leave an orphan behind: a removal that failed takes the delete of the visit with it. */
  lemma FailedRemovalKeepsOrphan()
    ensures exists start :: Reachable(start) && start.hub.live && Consistent(start, GONE) &&
              RemovalFailed(start, "uid") && EndsWith(start, GONE, Some("0"))
  {
    var start := FailRemoval(Object(2, Delete, ""));
    var p := VisitGone(start);
    p := RemoveBoth(start, p);
    EndsWithExpected(start, p, GONE);
  }
}
