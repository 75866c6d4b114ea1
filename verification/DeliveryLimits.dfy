/**
 Runs that mark the limits of the protocol: an acknowledged delete can take a newer, pending message
 out of the store, a session that was replaced can upset the record of its successor, which no
 reconcile pass then repairs, and an answer whose request has gone is sent for ever.
 */
module DeliveryLimits {
  import opened Common
  import opened Versions
  import opened Messages
  import opened Delivery
  import opened DeliverySafety
  import opened Reconcile
  import opened Underway
  import opened Convergence
  import opened ConvergenceResults
  import opened Progress
  import WQ = WorkQueue

  const ALL_OK: EnqueueApi := EnqueueApi(true, true, true)

  lemma Go(s: State, t: Step) returns (s': State)
    requires Reachable(s) && Enabled(s, t)
    ensures Reachable(s') && s' == Apply(s, t)
  {
    ReachableStep(s, t);
    s' := Apply(s, t);
  }

  function Object(id: nat, op: Operation, version: string): Message {
    Message(id, ResourceGroup, op, EdgeController, OtherType, version, Some(Meta("uid", false)), None)
  }

  /** The answer to request 9. */
  function Answer(id: nat, version: string): Message {
    Object(id, Response, version).(parent := Some(9))
  }

  lemma SomeNumerals()
    ensures IsNumeral("3") && Num("3") == 3 && IsNumeral("5") && Num("5") == 5 && IsNumeral("7") && Num("7") == 7
  {
    assert Value("") == 0 && "3"[..0] == "" && "5"[..0] == "" && "7"[..0] == "";
  }

  /** A session that has just started, before any message; request 9 waits. */
  lemma FreshSession() returns (s: State)
    ensures Reachable(s) && s.hub == Init().hub.(live := true, session := 1)
    ensures s.net == Init().net.(awaiting := {9}) && s.past == Init().past.(asked := {9})
  {
    assert Exec([]) == Some(Init());
    s := Go(Init(), Reconnect(0));
    assert Init().hub.late + Unsaved(Init().hub) == {};
    assert Init().net.wire[..0] == [];
    s := Go(s, Ask(9));
    assert s.net.awaiting == {9};
  }

  /** Enqueue one message that the decision accepts. */
  lemma Enqueue(s: State, m: Message) returns (s': State)
    requires Reachable(s) && s.hub.enqueuer.Ready? && s.hub.live && Issuable(s, m) && KeyOf(m).Some?
    requires Decide(m, s.hub.store, s.hub.records, ALL_OK) == Accept
    ensures Reachable(s') && s'.net == s.net
    ensures s'.hub == s.hub.(store := s.hub.store[KeyOf(m).value := m], queue := WQ.Add(s.hub.queue, KeyOf(m).value),
                             records := RecordsAfterDecide(m, s.hub.store, s.hub.records, ALL_OK))
    ensures s'.past == s.past.(issued := s.past.issued[m.id := m], forcedCount := s'.past.forcedCount,
                               generation := s'.past.generation)
  {
    s' := Go(s, DecideEnqueue(m, ALL_OK));
    s' := Go(s', StoreAdd);
    s' := Go(s', QueueAdd);
  }

  /** Take the one queued key, transmit its message, and have the edge persist and acknowledge it. */
  lemma Deliver(s: State, u: Uid, m: Message) returns (s': State)
    requires Reachable(s) && s.hub.live && s.hub.sender.Idle? && s.net.edge.Waiting? && s.net.wire == []
    requires s.hub.queue.order == [u] && u in s.hub.store && s.hub.store[u] == m && Plain(m)
    ensures Reachable(s') && s'.net == s.net && m.id in s'.past.acks
    ensures s'.hub == s.hub.(sender := Sending(u, m, 0), queue := WQ.Get(s.hub.queue),
                             waiting := s.hub.waiting - {m.id}, closed := s.hub.closed + {m.id})
    ensures s'.past == s.past.(sent := s'.past.sent, log := s'.past.log, acks := s'.past.acks)
  {
    s' := Send(s, u, m);
    s' := EdgeReplies(s', m);
    s' := Go(s', AckArrives(m.id));
    assert s'.net.returning == s.net.returning;
    assert s'.hub.closed == s.hub.closed + {m.id} && s'.hub.waiting == s.hub.waiting - {m.id};
  }

  lemma Send(s: State, u: Uid, m: Message) returns (s': State)
    requires Reachable(s) && s.hub.live && s.hub.sender.Idle? && s.net.wire == []
    requires s.hub.queue.order == [u] && u in s.hub.store && s.hub.store[u] == m
    ensures Reachable(s') && s'.net == s.net.(wire := [|s.past.sent|])
    ensures s'.hub == s.hub.(sender := Sending(u, m, 0), queue := WQ.Get(s.hub.queue),
                             waiting := s.hub.waiting + {m.id}, closed := s.hub.closed - {m.id})
    ensures s'.past == s.past.(sent := s.past.sent + [Packet(s.hub.session, m)])
  {
    s' := Go(s, GetKey);
    s' := Go(s', Load);
  }

  lemma EdgeReplies(s: State, m: Message) returns (s': State)
    requires Reachable(s) && s.net.edge.Waiting? && |s.net.wire| == 1 && s.net.wire[0] < |s.past.sent|
    requires s.past.sent[s.net.wire[0]].msg == m && Plain(m)
    ensures Reachable(s') && s'.hub == s.hub && m.id in s'.past.acks
    ensures s'.net == s.net.(wire := [], returning := s.net.returning + multiset{m.id})
    ensures s'.past == s.past.(log := s'.past.log, acks := s'.past.acks)
  {
    AcknowledgedIsHandled(m);
    s' := Go(s, EdgePersist);
    s' := Go(s', EdgeAck);
  }

  // ---------------------------------------------------------------- a pending message is lost

  /** A delete that the edge has acknowledged and the session has yet to notice. */
  lemma DeleteInFlight(delete_: Message) returns (s: State)
    requires delete_ == Object(1, Delete, "")
    ensures Reachable(s) && s.hub.live && s.hub.enqueuer.Ready? && s.hub.sender == Sending("uid", delete_, 0)
    ensures s.hub.closed == {1} && s.hub.store == map["uid" := delete_]
    ensures s.past.acked == {} && s.past.issued.Keys == {1} && s.past.asked == {9}
    ensures s.hub.queue.dirty == {} && s.hub.queue.delayed == {} && s.hub.records == map[]
  {
    s := FreshSession();
    s := Enqueue(s, delete_);
    assert s.hub.queue.order == ["uid"];
    s := Deliver(s, "uid", delete_);
  }

  lemma ResponseBehindDelete(delete_: Message, response: Message) returns (s: State)
    requires delete_ == Object(1, Delete, "") && response == Answer(2, "5")
    ensures Reachable(s) && s.hub.live && s.hub.sender == Sending("uid", delete_, 0)
    ensures s.hub.closed == {1} && s.past.acked == {} && s.hub.store == map["uid" := response]
  {
    SomeNumerals();
    s := DeleteInFlight(delete_);
    s := Enqueue(s, response);
  }

  /** The next step takes an unacknowledged message out of the store of a live session. */
  ghost predicate DropsPending(s: State) {
    && s.hub.live && Enabled(s, Unstore)
    && s.hub.sender.key in s.hub.store && s.hub.store[s.hub.sender.key].id !in s.past.acked
    && s.hub.sender.key !in Apply(s, Unstore).hub.store
  }

  /** A pending message can leave the store unacknowledged: a Response stored while a delete for the
      same object is in flight goes when that delete is acknowledged. */
  lemma AcknowledgedDeleteDropsPendingMessage()
    ensures exists s :: Reachable(s) && DropsPending(s)
  {
    var delete_, response := Object(1, Delete, ""), Answer(2, "5");
    var s := ResponseBehindDelete(delete_, response);
    s := Go(s, SeeAck);
    s := Go(s, Save(SaveApi(true, true, true, true)));
    assert s.hub.sender == Unstoring("uid", delete_) && s.hub.store["uid"] == response && s.past.acked == {1};
    assert DropsPending(s);
  }

  // ---------------------------------------------------------------- a message behind a delete is lost

  /** The object named "uid" is gone for the cloud, and nothing is under way. */
  ghost predicate Forgotten(s: State) {
    Drained(s) && "uid" !in s.hub.store && "uid" !in s.hub.records
  }

  /** An Insert issued while the store still holds the delete that came before it is never sent: once the delete
      has been acknowledged, nothing is left that would send the object, and reconcile has no record of it. */
  lemma InsertBehindDeleteIsLost()
    ensures exists s, m :: Reachable(s) && Forgotten(s) && Registered(s, m) && Versioned(m) && KeyOf(m) == Some("uid")
  {
    var delete_, insert := Object(1, Delete, ""), Object(2, Insert, "5");
    SomeNumerals();
    var s := DeleteInFlight(delete_);
    s := Go(s, DecideEnqueue(insert, ALL_OK));
    s := Go(s, SeeAck);
    s := Go(s, Save(SaveApi(true, true, true, true)));
    s := Go(s, Unstore);
    s := Go(s, DoneKey);
    assert Forgotten(s) && Registered(s, insert);
  }

  // ---------------------------------------------------------------- a message is sent for ever

  /** An answer stored after its request gave up is pending and can never be acknowledged. */
  lemma AnswerTooLate()
    ensures exists s, m :: Reachable(s) && s.hub.live && Pending(s, m) && !Deliverable(s, m)
  {
    var m := Answer(1, "5");
    SomeNumerals();
    var s := FreshSession();
    s := Go(s, AskOver(9));
    s := Enqueue(s, m);
    assert Pending(s, m) && !Deliverable(s, m);
  }

  lemma AnswerSent(m: Message) returns (s: State)
    requires m == Answer(1, "5")
    ensures Reachable(s) && s.hub.live && Pending(s, m) && s.hub.enqueuer.Ready?
    ensures s.hub.sender == Sending("uid", m, 0) && s.hub.closed == {}
    ensures s.net.wire == [0] && s.net.edge.Waiting? && s.net.awaiting == {9} && s.net.returning == multiset{}
    ensures |s.past.sent| == 1 && s.past.sent[0].msg == m && s.past.log == []
  {
    SomeNumerals();
    s := FreshSession();
    s := Enqueue(s, m);
    assert s.hub.queue.order == ["uid"];
    s := Send(s, "uid", m);
  }

  /** So is one that its request took and the edge persisted, when the acknowledgement is lost. */
  lemma AnswerUnheard()
    ensures exists s, m :: Reachable(s) && s.hub.live && Pending(s, m) && PersistedId(s, m.id) && !Deliverable(s, m)
  {
    var m := Answer(1, "5");
    var s := AnswerSent(m);
    s := Go(s, EdgePersist);
    s := Go(s, EdgeAck);
    s := Go(s, AckLost(1));
    assert s.past.log[0] == 0;
    assert Pending(s, m) && !Deliverable(s, m);
  }

  // ---------------------------------------------------------------- records fall

  /** Session two, while session one has yet to save version 5. */
  lemma ReplacedSession(five: Message) returns (s: State)
    requires five == Object(1, Insert, "5")
    ensures Reachable(s) && s.hub.live && s.hub.late == {five} && s.hub.store == map[] && s.hub.queue == WQ.Empty()
    ensures s.hub.records == map["uid" := "0"] && s.past.issued.Keys == {1}
    ensures s.hub.enqueuer.Ready? && s.hub.sender.Idle? && s.net.wire == [] && s.net.edge.Waiting?
  {
    SomeNumerals();
    s := FreshSession();
    s := Enqueue(s, five);
    assert s.hub.records == map["uid" := "0"] && s.hub.queue.order == ["uid"];
    s := Deliver(s, "uid", five);
    s := Go(s, Reconnect(0));
  }

  /** Session two has version v acknowledged and has yet to save it. */
  lemma SecondAcknowledged(five: Message, second: Message) returns (s: State)
    requires five == Object(1, Insert, "5") && second.version in {"3", "7"}
    requires second == Object(2, Update, second.version)
    ensures Reachable(s) && s.hub.live && s.hub.enqueuer.Ready? && s.hub.sender == Saving("uid", second)
    ensures s.hub.late == {five} && s.hub.records == map["uid" := "0"] && s.hub.store == map["uid" := second]
    ensures s.hub.queue.dirty == {} && s.hub.queue.delayed == {}
  {
    SomeNumerals();
    ZeroIsNumeral();
    s := ReplacedSession(five);
    s := Enqueue(s, second);
    assert s.hub.queue.order == ["uid"];
    s := Deliver(s, "uid", second);
    s := Go(s, SeeAck);
  }

  ghost predicate LowersRecord(s: State, t: Step) {
    && Enabled(s, t) && "uid" in s.hub.records && "uid" in Apply(s, t).hub.records
    && Num(Apply(s, t).hub.records["uid"]) < Num(s.hub.records["uid"])
  }

  /** A record can fall: the acknowledgement an old session has yet to save may be written after a
      newer version that the new session delivered. */
  lemma LateSaveLowersRecord()
    ensures exists s, m, api :: Reachable(s) && s.hub.late == {m} && !Forced(m) && LowersRecord(s, LateSave(m, api))
  {
    var five, api := Object(1, Insert, "5"), SaveApi(true, true, true, true);
    SomeNumerals();
    var s := SecondAcknowledged(five, Object(2, Update, "7"));
    s := Go(s, Save(api));
    assert s.hub.records["uid"] == "7";
    assert LowersRecord(s, LateSave(five, api));
  }

  /** It can also fall when the live session saves, after a late save has raised it. */
  lemma SaveAfterLateSaveLowersRecord()
    ensures exists s, api :: Reachable(s) && s.hub.late == {} && LowersRecord(s, Save(api)) && !Forced(s.hub.sender.msg)
  {
    var five, three, api := Object(1, Insert, "5"), Object(2, Update, "3"), SaveApi(true, true, true, true);
    SomeNumerals();
    var s := SecondAcknowledged(five, three);
    s := Go(s, LateSave(five, api));
    assert s.hub.records["uid"] == "5" && s.hub.late == {};
    assert LowersRecord(s, Save(api));
  }

  /** And then no reconcile pass repairs it: the store holds the newer version already. */
  lemma LateSaveBlocksReconcile()
    ensures exists s :: Reachable(s) && Drained(s) && Blocked(s, "uid", Found("uid", "7", false))
  {
    var five, api := Object(1, Insert, "5"), SaveApi(true, true, true, true);
    SomeNumerals();
    var s := SecondAcknowledged(five, Object(2, Update, "7"));
    s := Go(s, Save(api));
    s := Go(s, LateSave(five, api));
    s := Go(s, DoneKey);
    assert Blocked(s, "uid", Found("uid", "7", false));
  }
}
