/**
 What can still be delivered.  A pending message can be acknowledged, in a continuation without new
 messages, failing saves or the end of the session, exactly when the edge would take it again, or an
 acknowledgement of it is under way; otherwise no continuation at all acknowledges it.  Such a
 continuation may lose packets and time out.
 */
module Progress {
  import opened Common
  import opened Messages
  import opened Delivery
  import opened DeliverySafety
  import opened Reconcile
  import opened Underway
  import WQ = WorkQueue

  const OK: SaveApi := SaveApi(true, true, true, true)

  ghost predicate Leads(s: State, s': State) {
    exists trace :: Follow(s, trace) == Some(s') && (forall t :: t in trace ==> Calm(t))
  }

  ghost predicate At(from: State, s: State) {
    Leads(from, s) && Reachable(s) && s.hub.live
  }

  lemma Stay(s: State)
    ensures Leads(s, s)
  {
    assert Follow(s, []) == Some(s);
  }

  lemma Then(from: State, s: State, t: Step) returns (s': State)
    requires At(from, s) && Enabled(s, t) && Calm(t)
    ensures s' == Apply(s, t) && At(from, s')
  {
    s' := Apply(s, t);
    ReachableStep(s, t);
    var trace :| Follow(from, trace) == Some(s) && (forall x :: x in trace ==> Calm(x));
    FollowOne(from, trace, s, t);
    assert forall x :: x in trace + [t] ==> Calm(x);
  }

  // ---------------------------------------------------------------- what is pending, and what can come of it

  /** The message is stored, or chosen to be. */
  predicate Held(s: State, m: Message) {
    || (KeyOf(m).Some? && KeyOf(m).value in s.hub.store && s.hub.store[KeyOf(m).value] == m)
    || s.hub.enqueuer == Chosen(m)
  }

  predicate Pending(s: State, m: Message) {
    Held(s, m) && m.id !in s.past.acked
  }

  /** The sender is about to remove from the store whatever is there for the object of m. */
  predicate BeingRemoved(s: State, m: Message) {
    && (s.hub.sender.Saving? || s.hub.sender.Unstoring?) && s.hub.sender.msg.op.Delete?
    && KeyOf(m) == Some(s.hub.sender.key) && s.hub.enqueuer != Chosen(m)
  }

  /** The edge takes m whenever it comes, its request waits for it, or an acknowledgement is on its way. */
  predicate Ackable(s: State, m: Message) {
    Plain(m) || (m.parent.Some? && m.parent.value in s.net.awaiting) || m.id in s.net.returning
  }

  /** The edge has persisted m and is about to acknowledge it. */
  predicate Answering(s: State, m: Message) {
    && s.net.edge.Persisted? && s.net.edge.packet < |s.past.sent|
    && s.past.sent[s.net.edge.packet].msg == m && Acknowledges(m)
  }

  /** The sender has m and its acknowledgement, and has yet to look. */
  predicate Noticed(s: State, m: Message) {
    s.hub.sender.Sending? && s.hub.sender.msg == m && m.id in s.hub.closed
  }

  predicate Deliverable(s: State, m: Message) {
    !BeingRemoved(s, m) && (Ackable(s, m) || Answering(s, m) || Noticed(s, m))
  }

  // ---------------------------------------------------------------- pieces of a continuation

  /** Store, enqueuer, edge, requests and acknowledgements are what they were. */
  ghost predicate Unmoved(s: State, s': State) {
    && s'.hub.store == s.hub.store && s'.hub.enqueuer == s.hub.enqueuer && s'.past.acked == s.past.acked
    && s'.net.edge == s.net.edge && s'.net.awaiting == s.net.awaiting && s'.net.returning == s.net.returning
  }

  lemma FinishClosing(from: State, s: State) returns (s': State)
    requires At(from, s) && s.hub.sender.Closing?
    ensures At(from, s') && s'.hub.sender.Idle? && Unmoved(s, s')
    ensures s'.hub.queue == WQ.Done(s.hub.queue, s.hub.sender.key)
  {
    s' := Then(from, s, DoneKey);
  }

  /** What remains of the store once the sender is done with its acknowledged message. */
  function Finished(h: Hub): Store
    requires h.sender.Saving? || h.sender.Unstoring?
  {
    if h.sender.msg.op.Delete? then h.store - {h.sender.key} else h.store
  }

  lemma FinishSaving(from: State, s: State) returns (s': State)
    requires At(from, s) && (s.hub.sender.Saving? || s.hub.sender.Unstoring?)
    ensures At(from, s') && s'.hub.sender.Idle? && s'.hub.store == Finished(s.hub)
    ensures Unmoved(s.(hub := s.hub.(store := s'.hub.store)), s')
    ensures s'.hub.queue == WQ.Done(s.hub.queue, s.hub.sender.key)
  {
    s' := s;
    InvariantReachable(s);
    if s'.hub.sender.Saving? { s' := Then(from, s', Save(OK)); }
    if s'.hub.sender.Unstoring? { s' := Then(from, s', Unstore); }
    s' := FinishClosing(from, s');
  }

  lemma GiveUp(from: State, s: State) returns (s': State)
    requires At(from, s) && s.hub.sender.Sending? && s.hub.sender.retries <= MAX_RETRIES
    ensures At(from, s') && s'.hub.sender.Idle? && Unmoved(s, s')
    ensures var u := s.hub.sender.key; s'.hub.queue == WQ.Done(WQ.AddRateLimited(s.hub.queue, u), u)
    decreases MAX_RETRIES - s.hub.sender.retries
  {
    if s.hub.sender.retries < MAX_RETRIES {
      s' := Then(from, s, Retransmit);
      s' := GiveUp(from, s');
    } else {
      s' := Then(from, s, TimeOut);
      s' := FinishClosing(from, s');
    }
  }

  /** Take the head of the queue and get nowhere with it. */
  lemma SkipHead(from: State, s: State) returns (s': State)
    requires At(from, s) && s.hub.sender.Idle? && s.hub.queue.order != []
    ensures At(from, s') && s'.hub.sender.Idle? && Unmoved(s, s')
    ensures s.hub.queue.order[1..] <= s'.hub.queue.order
  {
    var q, u := WQ.Get(s.hub.queue), s.hub.queue.order[0];
    s' := Then(from, s, GetKey);
    s' := Then(from, s', Load);
    assert s'.hub.queue == q;
    if s'.hub.sender.Sending? {
      s' := GiveUp(from, s');
    } else {
      s' := FinishClosing(from, s');
    }
  }

  /** The keys before u are tried and put off. */
  lemma ReachHead(from: State, s: State, i: nat) returns (s': State)
    requires At(from, s) && s.hub.sender.Idle? && i < |s.hub.queue.order|
    ensures At(from, s') && s'.hub.sender.Idle? && Unmoved(s, s')
    ensures s'.hub.queue.order != [] && s'.hub.queue.order[0] == s.hub.queue.order[i]
    decreases i
  {
    if i == 0 {
      s' := s;
    } else {
      s' := SkipHead(from, s);
      assert s'.hub.queue.order[i - 1] == s.hub.queue.order[1..][i - 1];
      s' := ReachHead(from, s', i - 1);
    }
  }

  /** The wire loses everything but its last packet. */
  lemma FlushWire(from: State, s: State) returns (s': State)
    requires At(from, s) && s.net.wire != [] && s.net.edge.Waiting?
    ensures At(from, s') && s'.net.wire == [s.net.wire[|s.net.wire| - 1]]
    ensures s' == s.(net := s.net.(wire := s'.net.wire))
    decreases |s.net.wire|
  {
    s' := s;
    if |s'.net.wire| > 1 {
      s' := Then(from, s', EdgeMiss);
      s' := FlushWire(from, s');
    }
  }

  /** The edge takes and acknowledges the message just transmitted. */
  lemma EdgeTurn(from: State, s: State, m: Message) returns (s': State)
    requires At(from, s) && s.net.edge.Waiting? && s.net.wire != [] && s.past.sent != []
    requires s.net.wire[|s.net.wire| - 1] == |s.past.sent| - 1 && s.past.sent[|s.past.sent| - 1].msg == m
    requires Plain(m) || (m.parent.Some? && m.parent.value in s.net.awaiting)
    ensures At(from, s') && s'.hub == s.hub && s'.net.edge.Waiting? && s'.past.acked == s.past.acked
    ensures s'.net.returning == s.net.returning + multiset{m.id}
  {
    AcknowledgedIsHandled(m);
    s' := FlushWire(from, s);
    s' := Then(from, s', EdgePersist);
    s' := Then(from, s', EdgeAck);
  }

  /** The message just transmitted is acknowledged, and seen to be. */
  lemma Acknowledge(from: State, s: State, m: Message) returns (s': State)
    requires At(from, s) && s.hub.sender.Sending? && s.hub.sender.msg == m && m.id in s.hub.waiting
    requires s.net.edge.Waiting? && s.net.wire != [] && s.past.sent != []
    requires s.net.wire[|s.net.wire| - 1] == |s.past.sent| - 1 && s.past.sent[|s.past.sent| - 1].msg == m
    requires Ackable(s, m)
    ensures At(from, s') && s'.hub.sender == Saving(s.hub.sender.key, m) && s'.net.edge.Waiting?
    ensures s'.hub.queue == s.hub.queue && s'.hub.store == s.hub.store && s'.hub.enqueuer == s.hub.enqueuer
    ensures s'.past.acked == s.past.acked + {m.id}
  {
    s' := s;
    if m.id !in s.net.returning { s' := EdgeTurn(from, s', m); }
    s' := Then(from, s', AckArrives(m.id));
    s' := Then(from, s', SeeAck);
  }

  /** Take the head of the queue and have its message acknowledged. */
  lemma DeliverHead(from: State, s: State, m: Message) returns (s': State)
    requires At(from, s) && s.hub.sender.Idle? && s.net.edge.Waiting? && s.hub.queue.order != []
    requires s.hub.queue.order[0] in s.hub.store && s.hub.store[s.hub.queue.order[0]] == m && Ackable(s, m)
    ensures At(from, s') && s'.hub.sender == Saving(s.hub.queue.order[0], m) && s'.net.edge.Waiting?
    ensures s'.hub.queue == WQ.Get(s.hub.queue) && s'.hub.store == s.hub.store && s'.hub.enqueuer == s.hub.enqueuer
    ensures s'.past.acked == s.past.acked + {m.id}
  {
    s' := Then(from, s, GetKey);
    s' := Then(from, s', Load);
    s' := Acknowledge(from, s', m);
  }

  // ---------------------------------------------------------------- a deliverable message is delivered

  /** m is held and can still be acknowledged, and nothing is going on at the edge. */
  ghost predicate Hopeful(from: State, s: State, m: Message) {
    At(from, s) && Pending(s, m) && Ackable(s, m) && s.net.edge.Waiting?
  }

  lemma Settle(from: State, s: State, m: Message) returns (s': State)
    requires At(from, s) && Pending(s, m) && Deliverable(s, m) && !Noticed(s, m)
    ensures Hopeful(from, s', m) && !BeingRemoved(s', m)
  {
    s' := s;
    if Answering(s, m) {
      s' := Then(from, s', EdgeAck);
    } else if s.net.edge.Persisted? {
      s' := Then(from, s', EdgeMute);
    }
  }

  lemma FreeSender(from: State, s: State, m: Message) returns (s': State)
    requires Hopeful(from, s, m) && !BeingRemoved(s, m)
    ensures Hopeful(from, s', m) && s'.hub.sender.Idle?
  {
    s' := s;
    InvariantReachable(s);
    if s'.hub.sender.Got? { s' := Then(from, s', Load); }
    if s'.hub.sender.Sending? {
      s' := GiveUp(from, s');
    } else if s'.hub.sender.Saving? || s'.hub.sender.Unstoring? {
      s' := FinishSaving(from, s');
    } else if s'.hub.sender.Closing? {
      s' := FinishClosing(from, s');
    }
  }

  lemma FreeEnqueuer(from: State, s: State, m: Message) returns (s': State)
    requires Hopeful(from, s, m) && s.hub.sender.Idle?
    ensures Hopeful(from, s', m) && s'.hub.sender.Idle? && s'.hub.enqueuer != Chosen(m) && !s'.hub.enqueuer.Stored?
  {
    s' := s;
    InvariantReachable(s);
    if s'.hub.enqueuer == Chosen(m) { s' := Then(from, s', StoreAdd); }
    if s'.hub.enqueuer.Stored? { s' := Then(from, s', QueueAdd); }
  }

  lemma QueueUp(from: State, s: State, m: Message) returns (s': State)
    requires Hopeful(from, s, m) && s.hub.sender.Idle? && s.hub.enqueuer != Chosen(m) && !s.hub.enqueuer.Stored?
    ensures Hopeful(from, s', m) && s'.hub.sender.Idle? && s'.hub.enqueuer != Chosen(m)
    ensures KeyOf(m).value in s'.hub.queue.order
  {
    s' := s;
    InvariantReachable(s);
    var u := KeyOf(m).value;
    assert Scheduled(s, u);
    if u !in s.hub.queue.dirty {
      s' := Then(from, s', DelayOver(u));
      WQ.FireValid(s.hub.queue, u);
      InvariantReachable(s');
    }
  }

  /** A deliverable message is acknowledged in some calm continuation. */
  lemma CanBeDelivered(s: State, m: Message) returns (s': State)
    requires Reachable(s) && s.hub.live && Pending(s, m) && Deliverable(s, m)
    ensures Leads(s, s') && Reachable(s') && m.id in s'.past.acked
  {
    Stay(s);
    if Noticed(s, m) {
      s' := Then(s, s, SeeAck);
    } else {
      s' := Settle(s, s, m);
      s' := FreeSender(s, s', m);
      s' := FreeEnqueuer(s, s', m);
      s' := QueueUp(s, s', m);
      var i :| 0 <= i < |s'.hub.queue.order| && s'.hub.queue.order[i] == KeyOf(m).value;
      s' := ReachHead(s, s', i);
      s' := DeliverHead(s, s', m);
    }
  }

  // ---------------------------------------------------------------- and no other ever is

  /** Nothing can acknowledge m any more. */
  predicate Hopeless(s: State, m: Message) {
    && !Plain(m) && !Answering(s, m) && !Noticed(s, m) && m.id !in s.net.returning
    && (m.parent.Some? ==> m.parent.value in s.past.asked && m.parent.value !in s.net.awaiting)
  }

  /** m is out of the store, or is about to be, and nobody carries it. */
  ghost predicate Dropped(s: State, m: Message) {
    && s.hub.enqueuer != Chosen(m) && (Carries(s.hub.sender) ==> s.hub.sender.msg != m)
    && (BeingRemoved(s, m) || forall u :: u in s.hub.store ==> s.hub.store[u] != m)
  }

  ghost predicate Lost(s: State, m: Message) {
    && Registered(s, m) && m.id !in s.past.acked
    && (Hopeless(s, m) || Dropped(s, m))
  }

  lemma LostAtFirst(s: State, m: Message)
    requires Reachable(s) && Pending(s, m) && !Deliverable(s, m)
    ensures Lost(s, m)
  {
    InvariantReachable(s);
  }

  lemma HopelessStep(s: State, t: Step, m: Message)
    requires IdentityInv(s) && PacketInv(s) && Registered(s, m) && Hopeless(s, m) && Enabled(s, t)
    ensures Hopeless(Apply(s, t), m)
  {
    if t.EdgePersist? || t.EdgeAck? {
      HopelessEdge(s, t, m);
    } else if t.Load? || t.Retransmit? {
      HopelessTransmit(s, t, m);
    } else {
      Frame(s, t);
      HopelessFrame(s, t, Apply(s, t), m);
    }
  }

  lemma HopelessEdge(s: State, t: Step, m: Message)
    requires IdentityInv(s) && PacketInv(s) && Registered(s, m) && Hopeless(s, m) && Enabled(s, t)
    requires t.EdgePersist? || t.EdgeAck?
    ensures Hopeless(Apply(s, t), m)
  {
    if t.EdgeAck? {
      assert Registered(s, s.past.sent[s.net.edge.packet].msg);
    }
  }

  lemma HopelessTransmit(s: State, t: Step, m: Message)
    requires PacketInv(s) && Hopeless(s, m) && Enabled(s, t) && (t.Load? || t.Retransmit?)
    ensures Hopeless(Apply(s, t), m)
  {
    var s' := Apply(s, t);
    assert s'.net.edge == s.net.edge && s.past.sent <= s'.past.sent;
  }

  lemma HopelessFrame(s: State, t: Step, s': State, m: Message)
    requires Hopeless(s, m) && Enabled(s, t) && s' == Apply(s, t)
    requires !t.EdgePersist? && !t.EdgeAck? && !t.Load? && !t.Retransmit?
    requires KeepsHistory(s, t, s') && KeepsEdge(s, t, s') && KeepsWork(s, t, s')
    ensures Hopeless(s', m)
  {
  }

  lemma DroppedStep(s: State, t: Step, m: Message)
    requires IdentityInv(s) && Registered(s, m) && Dropped(s, m) && Enabled(s, t)
    ensures Dropped(Apply(s, t), m)
  {
    if t.DecideEnqueue? || t.StoreAdd? || t.Load? || t.Save? || t.Unstore? || t.Reconnect? {
      DroppedWork(s, t, m);
    } else {
      DataFrame(s, t);
      WorkFrame(s, t);
      DroppedFrame(s, Apply(s, t), m);
    }
  }

  lemma DroppedWork(s: State, t: Step, m: Message)
    requires IdentityInv(s) && Registered(s, m) && Dropped(s, m) && Enabled(s, t)
    requires t.DecideEnqueue? || t.StoreAdd? || t.Load? || t.Save? || t.Unstore? || t.Reconnect?
    ensures Dropped(Apply(s, t), m)
  {
    match t
    case DecideEnqueue(_, _) =>
    case StoreAdd =>
    case Load =>
    case Save(_) =>
    case Unstore =>
    case Reconnect(_) =>
  }

  lemma DroppedFrame(s: State, s': State, m: Message)
    requires Dropped(s, m) && s'.hub.store == s.hub.store
    requires s'.hub.enqueuer.Chosen? ==> s'.hub.enqueuer == s.hub.enqueuer
    requires SameCarried(s, s')
    requires s.hub.sender.Saving? || s.hub.sender.Unstoring? ==> s'.hub.sender == s.hub.sender
    ensures Dropped(s', m)
  {
  }

  lemma LostStep(s: State, t: Step, m: Message)
    requires Inv(s) && Lost(s, m) && Enabled(s, t)
    ensures Lost(Apply(s, t), m)
  {
    Frame(s, t);
    if Hopeless(s, m) {
      HopelessStep(s, t, m);
    } else {
      DroppedStep(s, t, m);
    }
    if t.SeeAck? {
      assert Registered(s, s.hub.sender.msg);
    }
  }

  lemma {:induction false} LostForEver(s: State, m: Message, trace: seq<Step>)
    requires Reachable(s) && Lost(s, m)
    ensures Follow(s, trace).Some? ==> Reachable(Follow(s, trace).value) && Lost(Follow(s, trace).value, m)
  {
    if trace != [] && Follow(s, trace).Some? {
      var n := |trace| - 1;
      LostForEver(s, m, trace[..n]);
      var x := Follow(s, trace[..n]).value;
      InvariantReachable(x);
      LostStep(x, trace[n], m);
      ReachableStep(x, trace[n]);
    }
  }

  /** A pending message can be acknowledged exactly when it is deliverable; otherwise no continuation,
      calm or not, ever acknowledges it. */
  lemma PendingCanBeDeliveredIff(s: State, m: Message)
    requires Reachable(s) && s.hub.live && Pending(s, m)
    ensures (exists s' :: Leads(s, s') && m.id in s'.past.acked) <==> Deliverable(s, m)
    ensures !Deliverable(s, m) ==>
              forall trace :: Follow(s, trace).Some? ==> m.id !in Follow(s, trace).value.past.acked
  {
    if Deliverable(s, m) {
      var s' := CanBeDelivered(s, m);
    } else {
      LostAtFirst(s, m);
      forall trace ensures Follow(s, trace).Some? ==> m.id !in Follow(s, trace).value.past.acked {
        LostForEver(s, m, trace);
      }
    }
  }

  // ---------------------------------------------------------------- draining

  predicate Busy(s: State, u: Uid) {
    || u in s.hub.queue.dirty || u in s.hub.queue.delayed || u in HeldKeys(s.hub.sender)
    || s.hub.enqueuer == Stored(u)
  }

  /** Every key with work to do has a message that the edge takes whenever it comes. */
  ghost predicate PlainWork(s: State) {
    && (forall u :: u in s.hub.store && Busy(s, u) ==> Plain(s.hub.store[u]))
    && (s.hub.enqueuer.Chosen? ==> Plain(s.hub.enqueuer.msg))
  }

  ghost predicate Working(from: State, s: State) {
    At(from, s) && PlainWork(s) && s.net.edge.Waiting?
  }

  lemma RestEdge(from: State, s: State) returns (s': State)
    requires At(from, s) && PlainWork(s)
    ensures Working(from, s')
  {
    s' := s;
    if s'.net.edge.Persisted? { s' := Then(from, s', EdgeMute); }
  }

  lemma RestEnqueuer(from: State, s: State) returns (s': State)
    requires Working(from, s)
    ensures Working(from, s') && s'.hub.enqueuer.Ready?
  {
    s' := s;
    InvariantReachable(s);
    if s'.hub.enqueuer.Chosen? { s' := Then(from, s', StoreAdd); }
    if s'.hub.enqueuer.Stored? {
      var q, u := s'.hub.queue, s'.hub.enqueuer.key;
      InvariantReachable(s');
      WQ.AddValid(q, u);
      s' := Then(from, s', QueueAdd);
    }
  }

  lemma RestSender(from: State, s: State) returns (s': State)
    requires Working(from, s) && s.hub.enqueuer.Ready?
    ensures Working(from, s') && s'.hub.enqueuer.Ready? && s'.hub.sender.Idle?
  {
    s' := s;
    InvariantReachable(s);
    if s'.hub.sender.Got? { s' := Then(from, s', Load); }
    if s'.hub.sender.Sending? {
      s' := GiveUp(from, s');
    } else if s'.hub.sender.Saving? || s'.hub.sender.Unstoring? {
      s' := FinishSaving(from, s');
    } else if s'.hub.sender.Closing? {
      s' := FinishClosing(from, s');
    }
  }

  lemma FireAll(from: State, s: State) returns (s': State)
    requires Working(from, s) && s.hub.enqueuer.Ready? && s.hub.sender.Idle?
    ensures Working(from, s') && s'.hub.enqueuer.Ready? && s'.hub.sender.Idle? && s'.hub.queue.delayed == {}
    decreases |s.hub.queue.delayed|
  {
    if s.hub.queue.delayed == {} {
      s' := s;
    } else {
      InvariantReachable(s);
      var k :| k in s.hub.queue.delayed;
      s' := Then(from, s, DelayOver(k));
      WQ.FireValid(s.hub.queue, k);
      s' := FireAll(from, s');
    }
  }

  /** The head of the queue is dealt with for good. */
  lemma WorkHead(from: State, s: State) returns (s': State)
    requires Working(from, s) && s.hub.enqueuer.Ready? && s.hub.sender.Idle?
    requires s.hub.queue.delayed == {} && s.hub.queue.order != []
    ensures Working(from, s') && s'.hub.enqueuer.Ready? && s'.hub.sender.Idle? && s'.hub.queue.delayed == {}
    ensures |s'.hub.queue.order| < |s.hub.queue.order|
  {
    InvariantReachable(s);
    WQ.GetValid(s.hub.queue);
    var u := s.hub.queue.order[0];
    if u in s.hub.store {
      s' := DeliverHead(from, s, s.hub.store[u]);
      s' := FinishSaving(from, s');
    } else {
      s' := Then(from, s, GetKey);
      s' := Then(from, s', Load);
      s' := FinishClosing(from, s');
    }
  }

  lemma WorkAll(from: State, s: State) returns (s': State)
    requires Working(from, s) && s.hub.enqueuer.Ready? && s.hub.sender.Idle? && s.hub.queue.delayed == {}
    ensures Working(from, s') && Drained(s')
    decreases |s.hub.queue.order|
  {
    if s.hub.queue.order == [] {
      s' := s;
      InvariantReachable(s);
      forall k ensures k !in s.hub.queue.dirty {
        assert k !in s.hub.queue.order;
      }
    } else {
      s' := WorkHead(from, s);
      s' := WorkAll(from, s');
    }
  }

  lemma Drain(from: State, s: State) returns (s': State)
    requires At(from, s) && PlainWork(s)
    ensures At(from, s') && Drained(s')
  {
    s' := RestEdge(from, s);
    s' := RestEnqueuer(from, s');
    s' := RestSender(from, s');
    s' := FireAll(from, s');
    s' := WorkAll(from, s');
  }

  /** From every reachable state of a live session whose work is plain the queue can be drained, and
      then everything stored has been acknowledged and the edge has persisted it. */
  lemma PlainWorkCanBeDrained(s: State)
    requires Reachable(s) && s.hub.live && PlainWork(s)
    ensures exists s' :: Leads(s, s') && Drained(s') &&
              (forall u :: u in s'.hub.store ==>
                 s'.hub.store[u].id in s'.past.acked && PersistedVersion(s', u, s'.hub.store[u].version))
  {
    Stay(s);
    var s' := Drain(s, s);
    InvariantReachable(s');
    forall u | u in s'.hub.store
      ensures s'.hub.store[u].id in s'.past.acked && PersistedVersion(s', u, s'.hub.store[u].version)
    {
      assert !Scheduled(s', u);
      AckedIsPersisted(s', s'.hub.store[u]);
    }
  }
}
