/**
 What every step of the delivery protocol keeps, and what follows for every run:
 no pending message is forgotten, acknowledgements are sound end to end, discards
 are safe, stored deletes absorb, and the version comparison never panics.
 */
module DeliverySafety {
  import opened Common
  import opened Versions
  import opened Messages
  import opened Delivery
  import WQ = WorkQueue

  // ---------------------------------------------------------------- the invariant

  ghost predicate Registered(s: State, m: Message) {
    m.id in s.past.issued && s.past.issued[m.id] == m
  }

  function HeldKeys(p: Sender): set<Uid> {
    if p.Idle? then {} else {p.key}
  }

  /** The queue is well formed, the key being processed is the sender's, and retries are bounded. */
  ghost predicate QueueInv(s: State) {
    && (s.hub.live ==> s.hub.queue.Valid() && s.hub.queue.processing == HeldKeys(s.hub.sender))
    && (s.hub.sender.Sending? ==> s.hub.sender.retries <= MAX_RETRIES)
  }

  /** Every message met anywhere is the one issued under its ID, and is filed under its own UID. */
  ghost predicate IdentityInv(s: State) {
    && (forall id :: id in s.past.issued ==> s.past.issued[id].id == id)
    && (forall u :: u in s.hub.store ==> KeyOf(s.hub.store[u]) == Some(u) && Registered(s, s.hub.store[u]))
    && (forall i :: 0 <= i < |s.past.sent| ==> KeyOf(s.past.sent[i].msg).Some? && Registered(s, s.past.sent[i].msg))
    && (Carries(s.hub.sender) ==> KeyOf(s.hub.sender.msg) == Some(s.hub.sender.key) && Registered(s, s.hub.sender.msg))
    && (s.hub.enqueuer.Chosen? ==> KeyOf(s.hub.enqueuer.msg).Some? && Registered(s, s.hub.enqueuer.msg))
    && (forall m :: m in s.hub.late ==> KeyOf(m).Some? && Registered(s, m))
  }

  /** The queue position, delay, enqueuer or sender that will take care of the message stored under u. */
  ghost predicate Scheduled(s: State, u: Uid)
    requires u in s.hub.store
  {
    || u in s.hub.queue.dirty
    || u in s.hub.queue.delayed
    || s.hub.enqueuer == Stored(u)
    || s.hub.sender == Got(u)
    || (s.hub.sender.Sending? && s.hub.sender.key == u && s.hub.sender.msg == s.hub.store[u])
  }

  ghost predicate PendingInv(s: State) {
    s.hub.live ==> forall u :: u in s.hub.store && s.hub.store[u].id !in s.past.acked ==> Scheduled(s, u)
  }

  ghost predicate PersistedId(s: State, id: nat) {
    exists i :: 0 <= i < |s.past.log| && s.past.log[i] < |s.past.sent| && s.past.sent[s.past.log[i]].msg.id == id
  }

  /** The edge has persisted a message for u that carries this version. */
  ghost predicate PersistedVersion(s: State, u: Uid, version: string) {
    exists i :: 0 <= i < |s.past.log| && s.past.log[i] < |s.past.sent|
             && KeyOf(s.past.sent[s.past.log[i]].msg) == Some(u) && s.past.sent[s.past.log[i]].msg.version == version
  }

  /** Packets on the wire and in the edge's log are transmissions. */
  ghost predicate PacketInv(s: State) {
    && (forall i :: 0 <= i < |s.net.wire| ==> s.net.wire[i] < |s.past.sent|)
    && (forall i :: 0 <= i < |s.past.log| ==> s.past.log[i] < |s.past.sent|)
    && (s.net.edge.Persisted? ==>
          s.net.edge.packet < |s.past.sent| && PersistedId(s, s.past.sent[s.net.edge.packet].msg.id))
  }

  ghost predicate AcksPersistedInv(s: State) {
    forall id :: id in s.past.acks ==> PersistedId(s, id)
  }

  /** Every message answers a request that was asked, if any. */
  ghost predicate AskInv(s: State) {
    && s.net.awaiting <= s.past.asked
    && (forall id :: id in s.past.issued && s.past.issued[id].parent.Some? ==>
          s.past.issued[id].parent.value in s.past.asked)
  }

  /** What a sender sees and saves are acknowledgements of the edge. */
  ghost predicate AckInv(s: State) {
    && (forall id :: id in s.net.returning ==> id in s.past.acks)
    && s.hub.closed <= s.past.acks
    && s.past.acked <= s.past.acks
    && (s.hub.sender.Saving? || s.hub.sender.Unstoring? ==> s.hub.sender.msg.id in s.past.acked)
    && (forall m :: m in s.hub.late ==> m.id in s.past.acks)
    && (s.hub.sender.Unstoring? ==> s.hub.sender.msg.op.Delete?)
  }

  /** There is a message stored for what the sender carries; one that replaced it has not been acknowledged. */
  ghost predicate ReplacedInv(s: State) {
    Carries(s.hub.sender) ==>
      && s.hub.sender.key in s.hub.store
      && (s.hub.store[s.hub.sender.key] != s.hub.sender.msg ==> s.hub.store[s.hub.sender.key].id !in s.past.acked)
  }

  /** A stored delete that was acknowledged is about to be removed. */
  ghost predicate RemovedInv(s: State) {
    forall u :: u in s.hub.store && s.hub.store[u].op.Delete? && s.hub.store[u].id in s.past.acked ==>
      (s.hub.sender.Saving? || s.hub.sender.Unstoring?) && s.hub.sender.key == u && s.hub.sender.msg == s.hub.store[u]
  }

  ghost predicate RecordInv(s: State) {
    forall u :: u in s.hub.records && s.hub.records[u] != "" && s.hub.records[u] != "0" ==>
      PersistedVersion(s, u, s.hub.records[u])
  }

  ghost predicate VersionInv(s: State) {
    && (forall id :: id in s.past.issued ==> s.past.issued[id].version == "" || IsNumeral(s.past.issued[id].version))
    && (forall u :: u in s.hub.store ==> IsDelete(s.hub.store[u]) || IsNumeral(s.hub.store[u].version))
    && (forall u :: u in s.hub.records ==> s.hub.records[u] == "" || IsNumeral(s.hub.records[u]))
    && !s.hub.enqueuer.Panicked?
  }

  /** What the enqueuer knew when it accepted a message still holds when it stores it. */
  ghost predicate ChosenInv(s: State) {
    s.hub.enqueuer.Chosen? ==>
      var m := s.hub.enqueuer.msg;
      && (IsDelete(m) || IsNumeral(m.version))
      && (forall i :: 0 <= i < |s.past.sent| ==> s.past.sent[i].msg.id != m.id)
      && (forall u :: u in s.hub.store ==> s.hub.store[u].id != m.id)
      && (Carries(s.hub.sender) ==> s.hub.sender.msg.id != m.id)
      && (KeyOf(m).Some? && !Forced(m) && KeyOf(m).value in s.hub.store ==>
            && !IsDelete(s.hub.store[KeyOf(m).value])
            && Num(s.hub.store[KeyOf(m).value].version) < Num(m.version))
  }

  ghost predicate Inv(s: State) {
    QueueInv(s) && IdentityInv(s) && PendingInv(s) && PacketInv(s) && AskInv(s) && AcksPersistedInv(s) &&
    AckInv(s) && RecordInv(s) && VersionInv(s) && ChosenInv(s) && ReplacedInv(s) &&
    RemovedInv(s)
  }

  // ---------------------------------------------------------------- preservation

  lemma QueueStep(s: State, t: Step)
    requires QueueInv(s) && Enabled(s, t)
    ensures QueueInv(Apply(s, t))
  {
    match t
    case QueueAdd => if s.hub.live { WQ.AddValid(s.hub.queue, s.hub.enqueuer.key); }
    case GetKey => WQ.GetValid(s.hub.queue);
    case DoneKey => if s.hub.live { WQ.DoneValid(s.hub.queue, s.hub.sender.key); }
    case DelayOver(k) => WQ.FireValid(s.hub.queue, k);
    case Load =>
    case Retransmit =>
    case TimeOut => assert WQ.AddRateLimited(s.hub.queue, s.hub.sender.key).Valid() <==> s.hub.queue.Valid();
    case SeeAck =>
    case Save(_) =>
    case Unstore =>
    case Reconnect(_) =>
    case _ => QueueFrame(s, Apply(s, t));
  }

  lemma QueueFrame(s: State, s': State)
    requires QueueInv(s) && s'.hub.queue == s.hub.queue && s'.hub.sender == s.hub.sender
    requires s'.hub.live ==> s.hub.live
    ensures QueueInv(s')
  {
  }

  lemma IdentityStep(s: State, t: Step)
    requires IdentityInv(s) && Enabled(s, t)
    ensures IdentityInv(Apply(s, t))
  {
    if t.DecideEnqueue? {
      IdentityDecide(s, t);
    } else if t.Load? || t.Retransmit? {
      IdentityTransmit(s, t);
    } else if t.Reconnect? {
      IdentityReconnect(s, t);
    } else {
      Frame(s, t);
      if !t.StoreAdd? && !t.Unstore? {
        IdentityFrame(s, Apply(s, t));
      }
    }
  }

  lemma IdentityFrame(s: State, s': State)
    requires IdentityInv(s) && s'.past.issued == s.past.issued && s'.past.sent == s.past.sent
    requires s'.hub.store == s.hub.store && s'.hub.late <= s.hub.late
    requires s'.hub.enqueuer.Chosen? ==> s'.hub.enqueuer == s.hub.enqueuer
    requires SameCarried(s, s')
    ensures IdentityInv(s')
  {
  }

  lemma IdentityReconnect(s: State, t: Step)
    requires IdentityInv(s) && Enabled(s, t) && t.Reconnect?
    ensures IdentityInv(Apply(s, t))
  {
    assert forall m :: m in Unsaved(s.hub) ==> m == s.hub.sender.msg;
  }

  lemma IdentityDecide(s: State, t: Step)
    requires IdentityInv(s) && Enabled(s, t) && t.DecideEnqueue?
    ensures IdentityInv(Apply(s, t))
  {
    var s' := Apply(s, t);
    forall m | Registered(s, m) ensures Registered(s', m) {}
  }

  lemma IdentityTransmit(s: State, t: Step)
    requires IdentityInv(s) && Enabled(s, t) && (t.Load? || t.Retransmit?)
    ensures IdentityInv(Apply(s, t))
  {
    var s' := Apply(s, t);
    assert s'.past.issued == s.past.issued;
    forall i | 0 <= i < |s'.past.sent| ensures KeyOf(s'.past.sent[i].msg).Some? && Registered(s', s'.past.sent[i].msg) {
      if i < |s.past.sent| { assert s'.past.sent[i] == s.past.sent[i]; }
    }
  }

  lemma PendingStep(s: State, t: Step)
    requires QueueInv(s) && IdentityInv(s) && PendingInv(s) && Enabled(s, t)
    ensures PendingInv(Apply(s, t))
  {
    if t.QueueAdd? || t.GetKey? || t.DelayOver? {
      PendingQueue(s, t);
    } else if t.Load? || t.TimeOut? || t.SeeAck? || t.DoneKey? {
      PendingSender(s, t);
    }
  }

  lemma PendingQueue(s: State, t: Step)
    requires QueueInv(s) && PendingInv(s) && Enabled(s, t) && (t.QueueAdd? || t.GetKey? || t.DelayOver?)
    ensures PendingInv(Apply(s, t))
  {
    match t
    case QueueAdd => if s.hub.live { WQ.AddValid(s.hub.queue, s.hub.enqueuer.key); }
    case GetKey => WQ.GetValid(s.hub.queue);
    case DelayOver(k) => WQ.FireValid(s.hub.queue, k);
  }

  lemma PendingSender(s: State, t: Step)
    requires IdentityInv(s) && PendingInv(s) && Enabled(s, t) && (t.Load? || t.TimeOut? || t.SeeAck? || t.DoneKey?)
    ensures PendingInv(Apply(s, t))
  {
  }

  /** Whatever the edge has persisted stays persisted. */
  lemma PersistedGrows(s: State, t: Step)
    requires Enabled(s, t)
    ensures var s' := Apply(s, t);
            && s.past.sent <= s'.past.sent && s.past.log <= s'.past.log
            && (forall id :: PersistedId(s, id) ==> PersistedId(s', id))
            && (forall u, v :: PersistedVersion(s, u, v) ==> PersistedVersion(s', u, v))
  {
    var s' := Apply(s, t);
    assert forall i :: 0 <= i < |s.past.log| ==> s'.past.log[i] == s.past.log[i];
    assert forall i :: 0 <= i < |s.past.sent| ==> s'.past.sent[i] == s.past.sent[i];
  }

  lemma PacketStep(s: State, t: Step)
    requires PacketInv(s) && Enabled(s, t)
    ensures PacketInv(Apply(s, t))
  {
    if t.EdgePersist? {
      PacketPersist(s);
    } else if t.Load? || t.Retransmit? {
      PacketTransmit(s, t);
    } else {
      Frame(s, t);
      PacketFrame(s, Apply(s, t));
    }
  }

  lemma PacketPersist(s: State)
    requires PacketInv(s) && Enabled(s, EdgePersist)
    ensures PacketInv(Apply(s, EdgePersist))
  {
    var s' := Apply(s, EdgePersist);
    assert s'.past.log[|s.past.log|] == s'.net.edge.packet;
  }

  lemma PacketTransmit(s: State, t: Step)
    requires PacketInv(s) && Enabled(s, t) && (t.Load? || t.Retransmit?)
    ensures PacketInv(Apply(s, t))
  {
    PersistedGrows(s, t);
  }

  lemma PacketFrame(s: State, s': State)
    requires PacketInv(s) && s'.past.sent == s.past.sent && s'.past.log == s.past.log
    requires forall i :: 0 <= i < |s'.net.wire| ==> s'.net.wire[i] in s.net.wire
    requires s'.net.edge == s.net.edge || s'.net.edge.Waiting?
    ensures PacketInv(s')
  {
    assert s'.net.edge.Persisted? ==> PersistedId(s, s.past.sent[s.net.edge.packet].msg.id);
  }

  lemma AcksPersistedStep(s: State, t: Step)
    requires PacketInv(s) && AcksPersistedInv(s) && Enabled(s, t)
    ensures AcksPersistedInv(Apply(s, t))
  {
    PersistedGrows(s, t);
    Frame(s, t);
    var s' := Apply(s, t);
    forall id | id in s'.past.acks ensures PersistedId(s', id) {
      assert PersistedId(s, id);
    }
  }

  lemma AskStep(s: State, t: Step)
    requires AskInv(s) && Enabled(s, t)
    ensures AskInv(Apply(s, t))
  {
    if !t.DecideEnqueue? {
      EdgeFrame(s, t);
      HistoryFrame(s, t);
    }
  }

  lemma AckStep(s: State, t: Step)
    requires AckInv(s) && Enabled(s, t)
    ensures AckInv(Apply(s, t))
  {
    if t.Reconnect? {
      assert forall m :: m in Unsaved(s.hub) ==> m == s.hub.sender.msg;
    } else if t.EdgeAck? || t.AckArrives? {
      AckMoves(s, t);
    } else {
      EdgeFrame(s, t);
      if !t.SeeAck? && !t.Save? {
        AckFrame(s, Apply(s, t));
      }
    }
  }

  lemma AckMoves(s: State, t: Step)
    requires AckInv(s) && Enabled(s, t) && (t.EdgeAck? || t.AckArrives?)
    ensures AckInv(Apply(s, t))
  {
  }

  lemma AckFrame(s: State, s': State)
    requires AckInv(s) && s'.net.returning <= s.net.returning && s'.hub.closed <= s.hub.closed
    requires s'.past.acks == s.past.acks && s'.past.acked == s.past.acked && s'.hub.late <= s.hub.late
    requires s'.hub.sender.Saving? || s'.hub.sender.Unstoring? ==> s'.hub.sender == s.hub.sender
    ensures AckInv(s')
  {
  }

  lemma RecordStep(s: State, t: Step)
    requires IdentityInv(s) && AcksPersistedInv(s) && AckInv(s) && RecordInv(s) && Enabled(s, t)
    ensures RecordInv(Apply(s, t))
  {
    Frame(s, t);
    PersistedGrows(s, t);
    if t.Save? {
      SaveStep(s, Apply(s, t), s.hub.sender.msg, t.saveApi);
    } else if t.LateSave? {
      SaveStep(s, Apply(s, t), t.msg, t.saveApi);
    } else if t.DecideEnqueue? {
      RecordDecide(s, t);
    } else {
      RecordFrame(s, Apply(s, t));
    }
  }

  lemma RecordDecide(s: State, t: Step)
    requires RecordInv(s) && Enabled(s, t) && t.DecideEnqueue?
    requires forall u, v :: PersistedVersion(s, u, v) ==> PersistedVersion(Apply(s, t), u, v)
    ensures RecordInv(Apply(s, t))
  {
  }

  lemma RecordFrame(s: State, s': State)
    requires RecordInv(s) && s'.hub.records == s.hub.records
    requires forall u, v :: PersistedVersion(s, u, v) ==> PersistedVersion(s', u, v)
    ensures RecordInv(s')
  {
  }

  lemma SaveStep(s: State, s': State, m: Message, api: SaveApi)
    requires IdentityInv(s) && AcksPersistedInv(s) && RecordInv(s)
    requires Registered(s, m) && KeyOf(m).Some? && m.id in s.past.acks
    requires s'.hub.records == SaveRecord(s.hub.records, m, api)
    requires forall u, v :: PersistedVersion(s, u, v) ==> PersistedVersion(s', u, v)
    ensures RecordInv(s')
  {
    AckedIsPersisted(s, m);
    forall u | u in s'.hub.records && s'.hub.records[u] != "" && s'.hub.records[u] != "0"
      ensures PersistedVersion(s', u, s'.hub.records[u])
    {
      assert PersistedVersion(s, u, s'.hub.records[u]);
    }
  }

  /** An acknowledged message is one the edge persisted, under its own UID and version. */
  lemma AckedIsPersisted(s: State, m: Message)
    requires IdentityInv(s) && AcksPersistedInv(s)
    requires Registered(s, m) && KeyOf(m).Some? && m.id in s.past.acks
    ensures PersistedVersion(s, KeyOf(m).value, m.version)
  {
    var i :| 0 <= i < |s.past.log| && s.past.log[i] < |s.past.sent| && s.past.sent[s.past.log[i]].msg.id == m.id;
    assert Registered(s, s.past.sent[s.past.log[i]].msg);
  }

  lemma VersionStep(s: State, t: Step)
    requires IdentityInv(s) && VersionInv(s) && ChosenInv(s) && Enabled(s, t)
    ensures VersionInv(Apply(s, t))
  {
    if t.DecideEnqueue? {
      VersionDecide(s, t);
    } else if t.StoreAdd? || t.Unstore? || t.Reconnect? {
      VersionStore(s, t);
    } else {
      Frame(s, t);
      if t.Save? {
        VersionSave(s, Apply(s, t), s.hub.sender.msg, t.saveApi);
      } else if t.LateSave? {
        VersionSave(s, Apply(s, t), t.msg, t.saveApi);
      } else {
        VersionFrame(s, Apply(s, t));
      }
    }
  }

  lemma VersionStore(s: State, t: Step)
    requires VersionInv(s) && ChosenInv(s) && Enabled(s, t) && (t.StoreAdd? || t.Unstore? || t.Reconnect?)
    ensures VersionInv(Apply(s, t))
  {
  }

  lemma VersionFrame(s: State, s': State)
    requires VersionInv(s) && s'.past.issued == s.past.issued
    requires s'.hub.store == s.hub.store && s'.hub.records == s.hub.records
    requires s'.hub.enqueuer.Panicked? ==> s.hub.enqueuer.Panicked?
    ensures VersionInv(s')
  {
  }

  lemma VersionDecide(s: State, t: Step)
    requires VersionInv(s) && Enabled(s, t) && t.DecideEnqueue?
    ensures VersionInv(Apply(s, t))
  {
    ZeroIsNumeral();
  }

  lemma VersionSave(s: State, s': State, m: Message, api: SaveApi)
    requires VersionInv(s) && Registered(s, m) && KeyOf(m).Some?
    requires s'.past.issued == s.past.issued && s'.hub.store == s.hub.store
    requires s'.hub.records == SaveRecord(s.hub.records, m, api)
    requires s'.hub.enqueuer.Panicked? ==> s.hub.enqueuer.Panicked?
    ensures VersionInv(s')
  {
  }

  lemma ChosenStep(s: State, t: Step)
    requires IdentityInv(s) && VersionInv(s) && ChosenInv(s) && Enabled(s, t)
    ensures ChosenInv(Apply(s, t))
  {
    if t.DecideEnqueue? {
      ChosenDecide(s, t);
    } else if t.Load? || t.Retransmit? {
      ChosenTransmit(s, t);
    } else {
      Frame(s, t);
      if !t.StoreAdd? && !t.Unstore? && !t.Reconnect? {
        ChosenFrame(s, Apply(s, t));
      }
    }
  }

  lemma ChosenFrame(s: State, s': State)
    requires ChosenInv(s) && s'.past.sent == s.past.sent && s'.hub.store == s.hub.store
    requires s'.hub.enqueuer.Chosen? ==> s'.hub.enqueuer == s.hub.enqueuer
    requires SameCarried(s, s')
    ensures ChosenInv(s')
  {
  }

  lemma ChosenDecide(s: State, t: Step)
    requires IdentityInv(s) && VersionInv(s) && Enabled(s, t) && t.DecideEnqueue?
    ensures ChosenInv(Apply(s, t))
  {
  }

  lemma ChosenTransmit(s: State, t: Step)
    requires ChosenInv(s) && Enabled(s, t) && (t.Load? || t.Retransmit?)
    ensures ChosenInv(Apply(s, t))
  {
    Frame(s, t);
    ChosenSend(s, Apply(s, t));
  }

  lemma ChosenSend(s: State, s': State)
    requires ChosenInv(s) && s'.hub.store == s.hub.store
    requires s'.hub.enqueuer == s.hub.enqueuer && s.past.sent <= s'.past.sent
    requires SameCarried(s, s') || exists u :: u in s.hub.store && s'.hub.sender.msg == s.hub.store[u]
    requires forall i :: |s.past.sent| <= i < |s'.past.sent| ==>
               Carries(s'.hub.sender) && s'.past.sent[i].msg == s'.hub.sender.msg
    ensures ChosenInv(s')
  {
  }

  lemma ReplacedStep(s: State, t: Step)
    requires IdentityInv(s) && AcksPersistedInv(s) && AckInv(s) && ChosenInv(s) && ReplacedInv(s) && Enabled(s, t)
    ensures ReplacedInv(Apply(s, t))
  {
    if t.StoreAdd? {
      assert s.hub.enqueuer.msg.id !in s.past.acks;
    } else if t.SeeAck? {
      ReplacedSeeAck(s);
    } else if !t.Load? && !t.Unstore? && !t.Reconnect? {
      Frame(s, t);
      ReplacedFrame(s, Apply(s, t));
    }
  }

  lemma ReplacedSeeAck(s: State)
    requires IdentityInv(s) && ReplacedInv(s) && Enabled(s, SeeAck)
    ensures ReplacedInv(Apply(s, SeeAck))
  {
    var p := s.hub.sender;
    if s.hub.store[p.key].id == p.msg.id {
      assert Registered(s, s.hub.store[p.key]) && Registered(s, p.msg);
    }
  }

  lemma ReplacedFrame(s: State, s': State)
    requires ReplacedInv(s) && s'.hub.store == s.hub.store && s'.past.acked == s.past.acked
    requires SameCarried(s, s')
    ensures ReplacedInv(s')
  {
  }

  lemma RemovedStep(s: State, t: Step)
    requires IdentityInv(s) && AcksPersistedInv(s) && AckInv(s) && ChosenInv(s) && RemovedInv(s) && Enabled(s, t)
    ensures RemovedInv(Apply(s, t))
  {
    if t.StoreAdd? {
      RemovedStoreAdd(s);
    } else if t.SeeAck? {
      RemovedSeeAck(s);
    } else if t.Save? || t.Unstore? || t.Reconnect? {
      RemovedMoves(s, t);
    } else {
      DataFrame(s, t);
      EdgeFrame(s, t);
      RemovedFrame(s, Apply(s, t));
    }
  }

  lemma RemovedStoreAdd(s: State)
    requires IdentityInv(s) && AcksPersistedInv(s) && AckInv(s) && ChosenInv(s) && RemovedInv(s) && Enabled(s, StoreAdd)
    ensures RemovedInv(Apply(s, StoreAdd))
  {
    assert s.hub.enqueuer.msg.id !in s.past.acks;
  }

  lemma RemovedMoves(s: State, t: Step)
    requires RemovedInv(s) && Enabled(s, t) && (t.Save? || t.Unstore? || t.Reconnect?)
    ensures RemovedInv(Apply(s, t))
  {
  }

  lemma RemovedSeeAck(s: State)
    requires IdentityInv(s) && RemovedInv(s) && Enabled(s, SeeAck)
    ensures RemovedInv(Apply(s, SeeAck))
  {
    var p := s.hub.sender;
    forall u | u in s.hub.store && s.hub.store[u].id == p.msg.id ensures u == p.key && s.hub.store[u] == p.msg {
      assert Registered(s, s.hub.store[u]) && Registered(s, p.msg);
    }
  }

  lemma RemovedFrame(s: State, s': State)
    requires RemovedInv(s) && s'.hub.store == s.hub.store && s'.past.acked == s.past.acked
    requires s.hub.sender.Saving? || s.hub.sender.Unstoring? ==> s'.hub.sender == s.hub.sender
    ensures RemovedInv(s')
  {
  }

  lemma InvStep(s: State, t: Step)
    requires Inv(s) && Enabled(s, t)
    ensures Inv(Apply(s, t))
  {
    QueueStep(s, t);
    IdentityStep(s, t);
    PendingStep(s, t);
    PacketStep(s, t);
    AskStep(s, t);
    AcksPersistedStep(s, t);
    AckStep(s, t);
    RecordStep(s, t);
    VersionStep(s, t);
    ChosenStep(s, t);
    ReplacedStep(s, t);
    RemovedStep(s, t);
  }

  /** Every state of every run satisfies the invariant. */
  lemma {:induction false} InvariantOfRuns(trace: seq<Step>)
    ensures Exec(trace).Some? ==> Inv(Exec(trace).value)
  {
    if trace != [] && Exec(trace).Some? {
      var n := |trace| - 1;
      InvariantOfRuns(trace[..n]);
      InvStep(Exec(trace[..n]).value, trace[n]);
    }
  }

  lemma InvariantReachable(s: State)
    requires Reachable(s)
    ensures Inv(s)
  {
    var trace :| Exec(trace) == Some(s);
    InvariantOfRuns(trace);
  }

  lemma ReachableStep(s: State, t: Step)
    requires Reachable(s) && Enabled(s, t)
    ensures Reachable(Apply(s, t))
  {
    var trace :| Exec(trace) == Some(s);
    FollowOne(Init(), trace, s, t);
    assert Exec(trace + [t]) == Some(Apply(s, t));
  }

  // ---------------------------------------------------------------- no pending message is forgotten

  /** A stored message whose acknowledgement has not been seen is queued, delayed, in the hands of
      the enqueuer, or itself in the hands of the sender, whatever replaced what in the meantime. */
  lemma NoPendingMessageForgotten(s: State, u: Uid)
    requires Reachable(s) && s.hub.live && u in s.hub.store && s.hub.store[u].id !in s.past.acked
    ensures Scheduled(s, u)
    ensures u in s.hub.queue.dirty && u !in s.hub.queue.processing ==> u in s.hub.queue.order
    ensures u in s.hub.queue.dirty && u in s.hub.queue.processing ==> HeldKeys(s.hub.sender) == {u}
  {
    InvariantReachable(s);
  }

  /** Removing an acknowledged delete from the store loses a pending message exactly when another
      message has taken its place there meanwhile. */
  lemma UnstoreLosesPendingIff(s: State)
    requires Reachable(s) && s.hub.sender.Unstoring? && s.hub.sender.key in s.hub.store
    ensures s.hub.store[s.hub.sender.key].id !in s.past.acked <==> s.hub.store[s.hub.sender.key] != s.hub.sender.msg
  {
    InvariantReachable(s);
  }

  // ---------------------------------------------------------------- acknowledgement soundness

  /** Every recorded version but the initial one is that of a message for the object that the edge
      persisted; every acknowledgement, and every one a sender acts on, is for a persisted message. */
  lemma AcknowledgementSoundness(s: State)
    requires Reachable(s)
    ensures forall u :: u in s.hub.records && s.hub.records[u] != "" && s.hub.records[u] != "0" ==>
              PersistedVersion(s, u, s.hub.records[u])
    ensures forall id :: id in s.past.acks ==> PersistedId(s, id)
    ensures s.past.acked <= s.past.acks && s.hub.closed <= s.past.acks
  {
    InvariantReachable(s);
  }

  // ---------------------------------------------------------------- no panic

  lemma ComparisonNeverPanics(s: State, m: Message, api: EnqueueApi)
    requires Reachable(s)
    ensures !s.hub.enqueuer.Panicked?
    ensures Issuable(s, m) ==> !Decide(m, s.hub.store, s.hub.records, api).Panic?
    ensures forall u :: u in s.hub.store ==> IsDelete(s.hub.store[u]) || IsNumeral(s.hub.store[u].version)
    ensures forall u :: u in s.hub.records && s.hub.records[u] != "" ==> IsNumeral(s.hub.records[u])
  {
    InvariantReachable(s);
  }

  // ---------------------------------------------------------------- discards and deletes

  predicate Versioned(m: Message) {
    KeyOf(m).Some? && !Forced(m) && IsNumeral(m.version)
  }

  predicate ApiOk(api: EnqueueApi) {
    api.get && api.create && api.updateStatus
  }

  /** The exact discard rule when the API works: a versioned message is dropped because the store holds
      a delete or a version at least as new, or else because the record is as new or was never written. */
  lemma DiscardRule(s: State, m: Message, api: EnqueueApi)
    requires Reachable(s) && Issuable(s, m) && Versioned(m) && ApiOk(api)
    ensures var u := KeyOf(m).value;
            Decide(m, s.hub.store, s.hub.records, api) == Discard <==>
              || (u in s.hub.store && (IsDelete(s.hub.store[u]) || Num(m.version) <= Num(s.hub.store[u].version)))
              || (u !in s.hub.store && u in s.hub.records &&
                    (s.hub.records[u] == "" || Num(m.version) <= Num(s.hub.records[u])))
  {
    InvariantReachable(s);
  }

  /** A discard is safe: a delete or a version at least as new is on its way or has been persisted by
      the edge.  The one exception is a record whose status was never written. */
  lemma DiscardIsSafe(s: State, m: Message, api: EnqueueApi)
    requires Reachable(s) && s.hub.live && Issuable(s, m) && Versioned(m) && ApiOk(api)
    requires KeyOf(m).value !in s.hub.store && KeyOf(m).value in s.hub.records ==> s.hub.records[KeyOf(m).value] != ""
    requires Decide(m, s.hub.store, s.hub.records, api) == Discard
    ensures var u := KeyOf(m).value;
            || (u in s.hub.store && (IsDelete(s.hub.store[u]) || Num(m.version) <= Num(s.hub.store[u].version)) &&
                  (Scheduled(s, u) || PersistedId(s, s.hub.store[u].id)))
            || (u in s.hub.records && Num(m.version) <= Num(s.hub.records[u]) &&
                  (Num(m.version) == 0 || PersistedVersion(s, u, s.hub.records[u])))
  {
    InvariantReachable(s);
    ZeroIsNumeral();
    DiscardRule(s, m, api);
  }

  /** Only a forced message replaces a stored delete. */
  lemma DeletesAbsorb(s: State, t: Step, u: Uid)
    requires Reachable(s) && Enabled(s, t)
    requires u in s.hub.store && IsDelete(s.hub.store[u])
    requires u in Apply(s, t).hub.store && Apply(s, t).hub.store[u] != s.hub.store[u]
    ensures Forced(Apply(s, t).hub.store[u])
  {
    InvariantReachable(s);
    Frame(s, t);
  }

  /** While the session lasts, a key leaves the store only because the edge persisted and acknowledged
      a delete of that object. */
  lemma KeyLeavesOnAcknowledgedDelete(s: State, t: Step, u: Uid)
    requires Reachable(s) && Enabled(s, t) && !t.Reconnect?
    requires u in s.hub.store && u !in Apply(s, t).hub.store
    ensures s.hub.sender.Unstoring? && s.hub.sender.msg.op.Delete? && KeyOf(s.hub.sender.msg) == Some(u)
    ensures s.hub.sender.msg.id in s.past.acked && PersistedId(s, s.hub.sender.msg.id)
  {
    InvariantReachable(s);
    Frame(s, t);
  }

  // ---------------------------------------------------------------- channels

  /** No acknowledgement channel is both open and closed, and the message being sent has one. */
  ghost predicate ChannelInv(s: State) {
    s.hub.waiting !! s.hub.closed && (s.hub.sender.Sending? ==> s.hub.sender.msg.id in s.hub.waiting + s.hub.closed)
  }

  lemma ChannelStep(s: State, t: Step)
    requires ChannelInv(s) && Enabled(s, t)
    ensures ChannelInv(Apply(s, t))
  {
    match t
    case Load =>
    case AckArrives(_) =>
    case Reconnect(_) =>
    case Retransmit =>
    case _ => ChannelsStay(s, t);
  }

  lemma ChannelsStay(s: State, t: Step)
    requires Enabled(s, t) && !t.Load? && !t.AckArrives? && !t.Reconnect? && !t.Retransmit?
    ensures Apply(s, t).hub.waiting == s.hub.waiting && Apply(s, t).hub.closed == s.hub.closed
    ensures Apply(s, t).hub.sender.Sending? ==> Apply(s, t).hub.sender == s.hub.sender
  {
  }

  lemma {:induction false} ChannelsOfRuns(trace: seq<Step>)
    ensures Exec(trace).Some? ==> ChannelInv(Exec(trace).value)
  {
    if trace != [] && Exec(trace).Some? {
      var n := |trace| - 1;
      ChannelsOfRuns(trace[..n]);
      ChannelStep(Exec(trace[..n]).value, trace[n]);
    }
  }

  /** In every run: an acknowledgement that arrives for the message being sent is seen, a second one changes
      nothing, and no channel is closed twice. */
  lemma AcknowledgementIsHeard(trace: seq<Step>, s: State, id: nat)
    requires Exec(trace) == Some(s) && id in s.net.returning
    ensures var s' := Apply(s, AckArrives(id));
            && (s.hub.sender.Sending? && s.hub.sender.msg.id == id ==> Enabled(s', SeeAck))
            && (id in s.hub.closed ==> s'.hub == s.hub)
            && (id !in s.hub.waiting + s.hub.closed ==> s'.hub == s.hub)
            && id !in s'.hub.waiting
  {
    ChannelsOfRuns(trace);
  }
}
