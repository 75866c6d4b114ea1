/**
 The reliable-delivery protocol between CloudHub and one edge node, as a
 transition system.  Its actors are
   - the dispatcher loop, the only enqueuer (decide, add to the store, add to the queue),
   - the session's sender (take a key, transmit and retry, see the ack, save the record),
   - the rate limiter, the connection, and the edge (persist, then acknowledge),
   - the requests of the edge, which wait for an answer and give up.
 Every step of one actor may interleave with every step of the others.

 The sync records (ObjectSync and ClusterObjectSync) of the node are one map from
 object UID to the recorded resource version; "" is a record whose status was never written.
 */
module Delivery {
  import opened Common
  import opened Messages
  import opened Versions
  import WQ = WorkQueue

  /** isDeleteMessage: a delete operation, or an object with a deletion timestamp. */
  predicate IsDelete(m: Message) {
    m.op.Delete? || (m.meta.Some? && m.meta.value.deleting)
  }

  /** Messages that bypass the version check. */
  predicate Forced(m: Message) {
    IsDelete(m) || m.op.Response?
  }

  /** AckMessageKeyFunc: the UID of the object; None is its error result. */
  function KeyOf(m: Message): Option<Uid> {
    if m.group.ResourceGroup? && m.meta.Some? then Some(m.meta.value.uid) else None
  }

  // ---------------------------------------------------------------- enqueue decision

  type Store = map<Uid, Message>
  type Records = map<Uid, string>

  datatype Verdict = Accept | Discard | Panic

  /** Which of the API calls made while enqueueing succeed. */
  datatype EnqueueApi = EnqueueApi(get: bool, create: bool, updateStatus: bool)

  /** No record exists, so enqueueing m makes one. */
  predicate CreatesRecord(m: Message, store: Store, records: Records, api: EnqueueApi) {
    && m.version != "" && KeyOf(m).Some? && !Forced(m)
    && KeyOf(m).value !in store && api.get && KeyOf(m).value !in records
  }

  /** enqueueAckMessage up to the point where shouldEnqueue is known. */
  function Decide(m: Message, store: Store, records: Records, api: EnqueueApi): Verdict {
    if m.version == "" && !IsDelete(m) then Discard
    else if KeyOf(m).None? then Discard
    else if Forced(m) then Accept
    else
      var u := KeyOf(m).value;
      if u in store then
        if IsDelete(store[u]) then Discard
        else IfNewer(m.version, store[u].version)
      else if !api.get then Discard
      else if u in records then
        if records[u] == "" then Discard else IfNewer(m.version, records[u])
      else if api.create && api.updateStatus then Accept
      else Discard
  }

  function IfNewer(version: string, known: string): Verdict {
    match CompareResourceVersion(version, known)
    case None => Panic
    case Some(c) => if c > 0 then Accept else Discard
  }

  function RecordsAfterDecide(m: Message, store: Store, records: Records, api: EnqueueApi): Records {
    if CreatesRecord(m, store, records, api) && api.create then
      records[KeyOf(m).value := if api.updateStatus then "0" else ""]
    else records
  }

  // ---------------------------------------------------------------- saving an acknowledgement

  /** Which of the API calls of saveSuccessPoint succeed; create covers an unknown object kind too. */
  datatype SaveApi = SaveApi(get: bool, create: bool, updateStatus: bool, delete: bool)

  function SaveRecord(records: Records, m: Message, api: SaveApi): Records
    requires KeyOf(m).Some?
  {
    var u := KeyOf(m).value;
    if m.op.Delete? then
      if api.delete then records - {u} else records
    else if !api.get then records
    else if u in records then
      if api.updateStatus then records[u := m.version] else records
    else if !api.create then records
    else records[u := if api.updateStatus then m.version else ""]
  }

  // ---------------------------------------------------------------- state

  /** The dispatcher loop: idle, decided to enqueue, between store.Add and queue.Add, or crashed. */
  datatype Enqueuer = Ready | Chosen(msg: Message) | Stored(key: Uid) | Panicked

  /** The sender of the session. */
  datatype Sender =
    | Idle
    | Got(key: Uid)                                      // took a key from the queue
    | Sending(key: Uid, msg: Message, retries: nat)      // transmitted 1 + retries times
    | Saving(key: Uid, msg: Message)                     // saw the acknowledgement
    | Unstoring(key: Uid, msg: Message)                  // delete acknowledged, record removed
    | Closing(key: Uid)                                  // about to call Done

  datatype Edge = Waiting | Persisted(packet: nat)

  /** One transmission, tagged with the session that made it. */
  datatype Packet = Packet(session: nat, msg: Message)

  const MAX_RETRIES: nat := 4

  /** CloudHub and the records, for one node. */
  datatype Hub = Hub(
    live: bool,                    // the current session has not been terminated
    session: nat,                  // number of the current session
    store: Store,                  // AckMessageStore of the current pool
    queue: WQ.Queue,               // AckMessageQueue of the current pool
    enqueuer: Enqueuer,
    sender: Sender,
    waiting: set<nat>,             // ackMessageCache: message IDs with an open ack channel
    closed: set<nat>,              // message IDs whose current ack channel has been closed
    late: set<Message>,            // acknowledged messages old sessions have yet to save
    records: Records
  )

  /** The connection and the edge. */
  datatype Net = Net(
    wire: seq<nat>,                // packets on their way to the edge, oldest first
    edge: Edge,
    awaiting: set<nat>,            // requests of the edge that wait for their answer
    returning: multiset<nat>       // acknowledgements on their way to the cloud, by message ID
  )

  /** History variables. */
  datatype Past = Past(
    asked: set<nat>,               // every request so far
    acks: set<nat>,                // message IDs the edge has acknowledged
    issued: map<nat, Message>,     // every message handed to the dispatcher
    sent: seq<Packet>,             // every transmission
    log: seq<nat>,                 // packets the edge has persisted, oldest first
    acked: set<nat>,               // message IDs a sender saw acknowledged
    saves: seq<Packet>,            // messages whose acknowledgement a live sender saved
    forcedCount: map<Uid, nat>,    // forced messages stored in this session, per object
    generation: map<nat, nat>      // forcedCount of its object when a message was stored
  )

  datatype State = State(hub: Hub, net: Net, past: Past)

  function Init(): State {
    State(Hub(false, 0, map[], WQ.Empty(), Ready, Idle, {}, {}, {}, map[]),
          Net([], Waiting, {}, multiset{}),
          Past({}, {}, map[], [], [], {}, [], map[], map[]))
  }

  function Count(s: State, u: Uid): nat {
    if u in s.past.forcedCount then s.past.forcedCount[u] else 0
  }

  // ---------------------------------------------------------------- steps

  datatype Step =
    | DecideEnqueue(msg: Message, api: EnqueueApi)
    | StoreAdd
    | QueueAdd
    | GetKey
    | Load                            // look the message up, and transmit it
    | Retransmit
    | TimeOut
    | SeeAck
    | Save(saveApi: SaveApi)
    | Unstore
    | DoneKey
    | DelayOver(key: Uid)
    | EdgePersist
    | EdgeMiss                        // the packet is lost, dropped unread, or fails to be persisted
    | EdgeFail                        // an answer is taken by its request and fails to be persisted
    | EdgeAck
    | EdgeMute                        // the edge persisted, but sends no acknowledgement
    | AckArrives(id: nat)
    | AckLost(id: nat)
    | Ask(request: nat)
    | AskOver(request: nat)           // the request has waited long enough
    | Terminate
    | Reconnect(kept: nat)            // new pool and session; kept packets still reach the edge
    | LateSave(msg: Message, saveApi: SaveApi)

  /** The cluster gives messages a fresh ID and a numeral version, or no version; an answer answers
      a request. */
  predicate Issuable(s: State, m: Message) {
    && m.id !in s.past.issued && (m.version == "" || IsNumeral(m.version))
    && (m.parent.Some? ==> m.parent.value in s.past.asked)
  }

  /** The message of the next packet can be delivered to what handles it. */
  predicate Reaches(s: State) {
    && s.net.edge.Waiting? && s.net.wire != [] && s.net.wire[0] < |s.past.sent|
    && var m := s.past.sent[s.net.wire[0]].msg; Handles(m) && (m.parent.Some? ==> m.parent.value in s.net.awaiting)
  }

  predicate Enabled(s: State, t: Step) {
    match t
    case DecideEnqueue(m, _) => s.hub.enqueuer.Ready? && Issuable(s, m)
    case StoreAdd => s.hub.enqueuer.Chosen? && KeyOf(s.hub.enqueuer.msg).Some?
    case QueueAdd => s.hub.enqueuer.Stored?
    case GetKey => s.hub.live && s.hub.sender.Idle? && s.hub.queue.order != []
    case Load => s.hub.live && s.hub.sender.Got?
    case Retransmit => s.hub.live && s.hub.sender.Sending? && s.hub.sender.retries < MAX_RETRIES
    case TimeOut => s.hub.sender.Sending? && s.hub.sender.retries == MAX_RETRIES
    case SeeAck => s.hub.sender.Sending? && s.hub.sender.msg.id in s.hub.closed
    case Save(_) => s.hub.sender.Saving? && KeyOf(s.hub.sender.msg).Some?
    case Unstore => s.hub.sender.Unstoring?
    case DoneKey => s.hub.sender.Closing?
    case DelayOver(k) => s.hub.live && k in s.hub.queue.delayed
    case EdgePersist => Reaches(s)
    case EdgeMiss => s.net.edge.Waiting? && s.net.wire != []
    case EdgeFail => Reaches(s) && s.past.sent[s.net.wire[0]].msg.parent.Some?
    case EdgeAck =>
      && s.net.edge.Persisted? && s.net.edge.packet < |s.past.sent|
      && Acknowledges(s.past.sent[s.net.edge.packet].msg)
    case EdgeMute => s.net.edge.Persisted?
    case AckArrives(id) => id in s.net.returning
    case AckLost(id) => id in s.net.returning
    case Ask(r) => r !in s.past.asked
    case AskOver(r) => r in s.net.awaiting
    case Terminate => s.hub.live
    case Reconnect(kept) => kept <= |s.net.wire|
    case LateSave(m, _) => m in s.hub.late && KeyOf(m).Some?
  }

  // ---------------------------------------------------------------- what each step does

  function AfterDecide(s: State, m: Message, api: EnqueueApi): State {
    var h := s.hub;
    var verdict := Decide(m, h.store, h.records, api);
    s.(hub := h.(records := RecordsAfterDecide(m, h.store, h.records, api),
                 enqueuer := if verdict.Accept? then Chosen(m) else if verdict.Discard? then Ready else Panicked),
       past := s.past.(issued := s.past.issued[m.id := m]))
  }

  function AfterStoreAdd(s: State): State
    requires Enabled(s, StoreAdd)
  {
    var m := s.hub.enqueuer.msg;
    var u := KeyOf(m).value;
    var n := if Forced(m) then Count(s, u) + 1 else Count(s, u);
    s.(hub := s.hub.(store := s.hub.store[u := m], enqueuer := Stored(u)),
       past := s.past.(forcedCount := s.past.forcedCount[u := n], generation := s.past.generation[m.id := n]))
  }

  function AfterQueueAdd(h: Hub): Hub
    requires h.enqueuer.Stored?
  {
    h.(enqueuer := Ready, queue := if h.live then WQ.Add(h.queue, h.enqueuer.key) else h.queue)
  }

  function AfterGet(h: Hub): Hub
    requires h.queue.order != []
  {
    h.(sender := Got(h.queue.order[0]), queue := WQ.Get(h.queue))
  }

  function Transmit(s: State, m: Message): State {
    s.(net := s.net.(wire := s.net.wire + [|s.past.sent|]),
       past := s.past.(sent := s.past.sent + [Packet(s.hub.session, m)]))
  }

  function AfterLoad(s: State): State
    requires s.hub.sender.Got?
  {
    var h := s.hub;
    var u := h.sender.key;
    if u in h.store then
      var m := h.store[u];
      Transmit(s.(hub := h.(sender := Sending(u, m, 0), waiting := h.waiting + {m.id}, closed := h.closed - {m.id})), m)
    else s.(hub := h.(sender := Closing(u)))
  }

  function AfterRetransmit(s: State): State
    requires s.hub.sender.Sending?
  {
    var p := s.hub.sender;
    Transmit(s.(hub := s.hub.(sender := p.(retries := p.retries + 1))), p.msg)
  }

  function AfterTimeOut(h: Hub): Hub
    requires h.sender.Sending?
  {
    h.(sender := Closing(h.sender.key), queue := WQ.AddRateLimited(h.queue, h.sender.key))
  }

  function AfterSeeAck(s: State): State
    requires s.hub.sender.Sending?
  {
    var p := s.hub.sender;
    s.(hub := s.hub.(sender := Saving(p.key, p.msg)), past := s.past.(acked := s.past.acked + {p.msg.id}))
  }

  function AfterSave(s: State, api: SaveApi): State
    requires Enabled(s, Save(api))
  {
    var u, m := s.hub.sender.key, s.hub.sender.msg;
    s.(hub := s.hub.(records := SaveRecord(s.hub.records, m, api),
                     sender := if m.op.Delete? then Unstoring(u, m) else Closing(u)),
       past := s.past.(saves := s.past.saves + [Packet(s.hub.session, m)]))
  }

  function AfterUnstore(h: Hub): Hub
    requires h.sender.Unstoring?
  {
    h.(store := h.store - {h.sender.key}, sender := Closing(h.sender.key))
  }

  function AfterDone(h: Hub): Hub
    requires h.sender.Closing?
  {
    h.(sender := Idle, queue := WQ.Done(h.queue, h.sender.key))
  }

  /** The requests still waiting once m has been taken. */
  function Answered(awaiting: set<nat>, m: Message): set<nat> {
    if m.parent.Some? then awaiting - {m.parent.value} else awaiting
  }

  /** The next packet is off the wire, and its request, if it answers one, has it. */
  function Taken(s: State): Net
    requires Reaches(s)
  {
    s.net.(wire := s.net.wire[1..], awaiting := Answered(s.net.awaiting, s.past.sent[s.net.wire[0]].msg))
  }

  function AfterPersist(s: State): State
    requires Reaches(s)
  {
    s.(net := Taken(s).(edge := Persisted(s.net.wire[0])), past := s.past.(log := s.past.log + [s.net.wire[0]]))
  }

  function AfterEdgeAck(s: State): State
    requires Enabled(s, EdgeAck)
  {
    var id := s.past.sent[s.net.edge.packet].msg.id;
    s.(net := s.net.(returning := s.net.returning + multiset{id}, edge := Waiting),
       past := s.past.(acks := s.past.acks + {id}))
  }

  function AckGone(n: Net, id: nat): Net {
    n.(returning := n.returning - multiset{id})
  }

  function AckSeen(h: Hub, id: nat): Hub {
    if id in h.waiting then h.(waiting := h.waiting - {id}, closed := h.closed + {id}) else h
  }

  /** The messages whose acknowledgement the sender still has to save when its session is replaced. */
  function Unsaved(h: Hub): set<Message> {
    match h.sender
    case Sending(_, m, _) => if m.id in h.closed then {m} else {}
    case Saving(_, m) => {m}
    case _ => {}
  }

  function AfterReconnect(s: State, kept: nat): State
    requires kept <= |s.net.wire|
  {
    var h := s.hub;
    State(Hub(true, h.session + 1, map[], WQ.Empty(), if h.enqueuer.Panicked? then Panicked else Ready, Idle,
              {}, {}, h.late + Unsaved(h), h.records),
          s.net.(wire := s.net.wire[..kept]),
          s.past.(forcedCount := map[]))
  }

  function AfterLateSave(h: Hub, m: Message, api: SaveApi): Hub
    requires KeyOf(m).Some?
  {
    h.(records := SaveRecord(h.records, m, api), late := h.late - {m})
  }

  function Apply(s: State, t: Step): State
    requires Enabled(s, t)
  {
    match t
    case DecideEnqueue(m, api) => AfterDecide(s, m, api)
    case StoreAdd => AfterStoreAdd(s)
    case QueueAdd => s.(hub := AfterQueueAdd(s.hub))
    case GetKey => s.(hub := AfterGet(s.hub))
    case Load => AfterLoad(s)
    case Retransmit => AfterRetransmit(s)
    case TimeOut => s.(hub := AfterTimeOut(s.hub))
    case SeeAck => AfterSeeAck(s)
    case Save(api) => AfterSave(s, api)
    case Unstore => s.(hub := AfterUnstore(s.hub))
    case DoneKey => s.(hub := AfterDone(s.hub))
    case DelayOver(k) => s.(hub := s.hub.(queue := WQ.Fire(s.hub.queue, k)))
    case EdgePersist => AfterPersist(s)
    case EdgeMiss => s.(net := s.net.(wire := s.net.wire[1..]))
    case EdgeFail => s.(net := Taken(s))
    case EdgeAck => AfterEdgeAck(s)
    case EdgeMute => s.(net := s.net.(edge := Waiting))
    case AckArrives(id) => s.(hub := AckSeen(s.hub, id), net := AckGone(s.net, id))
    case AckLost(id) => s.(net := AckGone(s.net, id))
    case Ask(r) => s.(net := s.net.(awaiting := s.net.awaiting + {r}), past := s.past.(asked := s.past.asked + {r}))
    case AskOver(r) => s.(net := s.net.(awaiting := s.net.awaiting - {r}))
    case Terminate => s.(hub := s.hub.(live := false))
    case Reconnect(kept) => AfterReconnect(s, kept)
    case LateSave(m, api) => s.(hub := AfterLateSave(s.hub, m, api))
  }

  /** The state a sequence of steps leads to, when each is enabled in turn. */
  function Follow(s: State, trace: seq<Step>): Option<State> {
    if trace == [] then Some(s)
    else
      var n := |trace| - 1;
      match Follow(s, trace[..n])
      case None => None
      case Some(x) => if Enabled(x, trace[n]) then Some(Apply(x, trace[n])) else None
  }

  function Exec(trace: seq<Step>): Option<State> {
    Follow(Init(), trace)
  }

  lemma FollowOne(from: State, trace: seq<Step>, s: State, t: Step)
    requires Follow(from, trace) == Some(s) && Enabled(s, t)
    ensures Follow(from, trace + [t]) == Some(Apply(s, t))
  {
    assert (trace + [t])[..|trace|] == trace;
  }

  lemma FollowTwo(s: State, t: Step, u: Step)
    requires Enabled(s, t) && Enabled(Apply(s, t), u)
    ensures Follow(s, [t]) == Some(Apply(s, t)) && Follow(s, [t, u]) == Some(Apply(Apply(s, t), u))
  {
    var none: seq<Step> := [];
    FollowOne(s, none, s, t);
    assert none + [t] == [t];
    FollowOne(s, [t], Apply(s, t), u);
    assert [t] + [u] == [t, u];
  }

  ghost predicate Reachable(s: State) {
    exists trace :: Exec(trace) == Some(s)
  }

  predicate Carries(p: Sender) {
    p.Sending? || p.Saving? || p.Unstoring?
  }

  /** Whatever the sender carries afterwards it carried before. */
  predicate SameCarried(s: State, s': State) {
    Carries(s'.hub.sender) ==>
      && Carries(s.hub.sender) && s'.hub.sender.key == s.hub.sender.key && s'.hub.sender.msg == s.hub.sender.msg
  }

  /** What a step t from s to s' leaves alone. */
  predicate KeepsData(s: State, t: Step, s': State) {
    && (!t.StoreAdd? && !t.Unstore? && !t.Reconnect? ==> s'.hub.store == s.hub.store)
    && (!t.DecideEnqueue? && !t.Save? && !t.LateSave? ==> s'.hub.records == s.hub.records)
  }

  predicate KeepsHistory(s: State, t: Step, s': State) {
    && (!t.DecideEnqueue? ==> s'.past.issued == s.past.issued)
    && (!t.Load? && !t.Retransmit? ==> s'.past.sent == s.past.sent)
    && (!t.Save? ==> s'.past.saves == s.past.saves)
    && (!t.StoreAdd? ==> s'.past.generation == s.past.generation)
    && (!t.StoreAdd? && !t.Reconnect? ==> s'.past.forcedCount == s.past.forcedCount)
    && (!t.Reconnect? ==> s'.hub.session == s.hub.session)
  }

  predicate KeepsEdge(s: State, t: Step, s': State) {
    && (!t.Reconnect? ==> s'.hub.late <= s.hub.late)
    && (!t.EdgeAck? ==> s'.past.acks == s.past.acks && s'.net.returning <= s.net.returning)
    && (!t.SeeAck? ==> s'.past.acked == s.past.acked)
    && (!t.EdgePersist? ==> s'.past.log == s.past.log)
    && (!t.AckArrives? ==> s'.hub.closed <= s.hub.closed)
    && (!t.Ask? ==> s'.net.awaiting <= s.net.awaiting && s'.past.asked == s.past.asked)
  }

  predicate KeepsWork(s: State, t: Step, s': State) {
    && (!t.DecideEnqueue? && s'.hub.enqueuer.Chosen? ==> s'.hub.enqueuer == s.hub.enqueuer)
    && (!t.DecideEnqueue? && s'.hub.enqueuer.Panicked? ==> s.hub.enqueuer.Panicked?)
    && (!t.Load? ==> SameCarried(s, s'))
  }

  lemma DataFrame(s: State, t: Step)
    requires Enabled(s, t)
    ensures KeepsData(s, t, Apply(s, t))
  {
    match t
    case DecideEnqueue(_, _) =>
    case _ =>
  }

  lemma HistoryFrame(s: State, t: Step)
    requires Enabled(s, t)
    ensures KeepsHistory(s, t, Apply(s, t))
  {
    match t
    case DecideEnqueue(_, _) =>
    case _ =>
  }

  lemma EdgeFrame(s: State, t: Step)
    requires Enabled(s, t)
    ensures KeepsEdge(s, t, Apply(s, t))
  {
    match t
    case DecideEnqueue(_, _) =>
    case _ =>
  }

  lemma WorkFrame(s: State, t: Step)
    requires Enabled(s, t)
    ensures KeepsWork(s, t, Apply(s, t))
  {
    match t
    case DecideEnqueue(_, _) =>
    case _ =>
  }

  lemma Frame(s: State, t: Step)
    requires Enabled(s, t)
    ensures KeepsData(s, t, Apply(s, t)) && KeepsHistory(s, t, Apply(s, t))
    ensures KeepsEdge(s, t, Apply(s, t)) && KeepsWork(s, t, Apply(s, t))
  {
    DataFrame(s, t);
    HistoryFrame(s, t);
    EdgeFrame(s, t);
    WorkFrame(s, t);
  }
}
