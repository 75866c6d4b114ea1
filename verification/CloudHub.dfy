/**
 The objects behind the delivery protocol, updated in place as the dispatcher and the node
 session update them.  Each method is proved against the functions the transition system is
 built from, and the lemmas at the end tie a whole call to a run of its steps.
 */
module CloudHub {
  import opened Common
  import opened Versions
  import opened Messages
  import opened Delivery
  import WQ = WorkQueue

  /** The ObjectSync and ClusterObjectSync records of one node in the API server. */
  class SyncRecords {
    var table: Records

    constructor ()
      ensures table == map[]
    {
      table := map[];
    }

    method Create(u: Uid)
      modifies this
      ensures table == old(table)[u := ""]
    {
      table := table[u := ""];
    }

    method UpdateStatus(u: Uid, version: string)
      modifies this
      ensures table == old(table)[u := version]
    {
      table := table[u := version];
    }

    method Remove(u: Uid)
      modifies this
      ensures table == old(table) - {u}
    {
      table := table - {u};
    }
  }

  class NodeMessagePool {
    var store: Store
    var queue: WQ.Queue

    constructor ()
      ensures store == map[] && queue == WQ.Empty()
    {
      store, queue := map[], WQ.Empty();
    }
  }

  /** enqueueNamespacedResource and its cluster-scoped twin; None is the panic of the comparison. */
  method EnqueueResource(records: SyncRecords, u: Uid, m: Message, api: EnqueueApi) returns (enqueue: Option<bool>)
    requires KeyOf(m) == Some(u) && m.version != "" && !Forced(m)
    modifies records
    ensures enqueue == match Decide(m, map[], old(records.table), api)
                       case Accept => Some(true) case Discard => Some(false) case Panic => None
    ensures records.table == RecordsAfterDecide(m, map[], old(records.table), api)
  {
    if api.get && u in records.table {
      if records.table[u] == "" {
        return Some(false);
      }
      var c := CompareResourceVersion(m.version, records.table[u]);
      return match c case None => None case Some(x) => Some(x > 0);
    }
    if api.get {
      if !api.create {
        return Some(false);
      }
      records.Create(u);
      if !api.updateStatus {
        return Some(false);
      }
      records.UpdateStatus(u, "0");
      return Some(true);
    }
    return Some(false);
  }

  /** enqueueAckMessage. */
  method EnqueueAckMessage(pool: NodeMessagePool, records: SyncRecords, m: Message, api: EnqueueApi)
    returns (verdict: Verdict)
    modifies pool, records
    ensures verdict == Decide(m, old(pool.store), old(records.table), api)
    ensures records.table == RecordsAfterDecide(m, old(pool.store), old(records.table), api)
    ensures verdict == Accept ==> KeyOf(m).Some?
    ensures verdict == Accept ==> pool.store == old(pool.store)[KeyOf(m).value := m]
    ensures verdict == Accept ==> pool.queue == WQ.Add(old(pool.queue), KeyOf(m).value)
    ensures verdict != Accept ==> pool.store == old(pool.store) && pool.queue == old(pool.queue)
  {
    if m.version == "" && !IsDelete(m) {
      return Discard;
    }
    var key := KeyOf(m);
    if key.None? {
      return Discard;
    }
    var u := key.value;
    var shouldEnqueue := false;
    if Forced(m) {
      shouldEnqueue := true;
    } else if u in pool.store {
      if IsDelete(pool.store[u]) {
        return Discard;
      }
      var c := CompareResourceVersion(m.version, pool.store[u].version);
      if c.None? {
        return Panic;
      }
      shouldEnqueue := c.value > 0;
    } else {
      var r := EnqueueResource(records, u, m, api);
      if r.None? {
        return Panic;
      }
      shouldEnqueue := r.value;
    }
    if !shouldEnqueue {
      return Discard;
    }
    pool.store := pool.store[u := m];
    pool.queue := WQ.Add(pool.queue, u);
    return Accept;
  }

  // ---------------------------------------------------------------- sending with retry

  /** What the select statement finds ready: the ack channel is closed, or the ticker fires. */
  datatype Event = AckClosed | Tick

  datatype SendResult = Acknowledged | TimedOut | TransportError

  /** Nothing but ticks before the n-th event, and no failed write up to the n-th. */
  ghost predicate RetriedUpTo(n: nat, events: nat -> Event, writes: nat -> bool) {
    (forall i :: 0 <= i < n ==> events(i) == Tick) && (forall i :: 0 <= i < n ==> writes(i))
  }

  /** What sending comes to after n ticks, and the number of transmissions it takes. */
  function SendOutcome(n: nat, events: nat -> Event, writes: nat -> bool): (SendResult, nat)
    requires n <= MAX_RETRIES
    decreases MAX_RETRIES - n
  {
    if !writes(n) then (TransportError, n + 1)
    else if events(n) == AckClosed then (Acknowledged, n + 1)
    else if n == MAX_RETRIES then (TimedOut, n + 1)
    else SendOutcome(n + 1, events, writes)
  }

  /** At most five transmissions; the acknowledgement wins when it is seen before the fifth tick and
      no write fails before it; giving up takes five ticks; a failed write ends the session. */
  lemma {:induction false} SendOutcomeMeaning(n: nat, events: nat -> Event, writes: nat -> bool)
    requires n <= MAX_RETRIES && RetriedUpTo(n, events, writes)
    ensures var (result, k) := SendOutcome(n, events, writes);
            && n < k <= 5 && RetriedUpTo(k - 1, events, writes)
            && (result == TransportError <==> !writes(k - 1))
            && (result == Acknowledged <==> writes(k - 1) && events(k - 1) == AckClosed)
            && (result == TimedOut <==> RetriedUpTo(5, events, writes))
    decreases MAX_RETRIES - n
  {
    if writes(n) && events(n) == Tick && n < MAX_RETRIES {
      SendOutcomeMeaning(n + 1, events, writes);
    }
  }

  /** sendMessageWithRetry. */
  method SendMessageWithRetry(events: nat -> Event, writes: nat -> bool)
    returns (result: SendResult, transmissions: nat)
    ensures (result, transmissions) == SendOutcome(0, events, writes)
  {
    var retryCount := 0;
    if !writes(0) {
      return TransportError, 1;
    }
    while true
      invariant 0 <= retryCount <= MAX_RETRIES && writes(retryCount)
      invariant SendOutcome(0, events, writes) == SendOutcome(retryCount, events, writes)
      decreases MAX_RETRIES - retryCount
    {
      match events(retryCount) {
        case AckClosed =>
          return Acknowledged, retryCount + 1;
        case Tick =>
          if retryCount == MAX_RETRIES {
            return TimedOut, retryCount + 1;
          }
          if !writes(retryCount + 1) {
            return TransportError, retryCount + 2;
          }
          retryCount := retryCount + 1;
      }
    }
  }

  // ---------------------------------------------------------------- the session

  class NodeSession {
    const pool: NodeMessagePool
    const records: SyncRecords
    var ackMessageCache: set<nat>     // IDs with an open ack channel
    var closedChannels: set<nat>
    var terminated: bool

    constructor (pool: NodeMessagePool, records: SyncRecords)
      ensures this.pool == pool && this.records == records
      ensures ackMessageCache == {} && closedChannels == {} && !terminated
    {
      this.pool, this.records := pool, records;
      ackMessageCache, closedChannels, terminated := {}, {}, false;
    }

    /** Closes the channel waiting for this message, once; any other acknowledgement changes nothing. */
    method ReceiveMessageAck(id: nat)
      modifies this
      ensures id in old(ackMessageCache) ==>
                ackMessageCache == old(ackMessageCache) - {id} && closedChannels == old(closedChannels) + {id}
      ensures id !in old(ackMessageCache) ==>
                ackMessageCache == old(ackMessageCache) && closedChannels == old(closedChannels)
      ensures terminated == old(terminated)
    {
      if id in ackMessageCache {
        closedChannels := closedChannels + {id};
        ackMessageCache := ackMessageCache - {id};
      }
    }

    /** saveSuccessPoint, deleteSuccessPoint included. */
    method SaveSuccessPoint(m: Message, api: SaveApi)
      requires KeyOf(m).Some?
      modifies pool, records
      ensures records.table == SaveRecord(old(records.table), m, api)
      ensures pool.store == (if m.op.Delete? then old(pool.store) - {KeyOf(m).value} else old(pool.store))
      ensures pool.queue == old(pool.queue)
    {
      var u := KeyOf(m).value;
      if m.op.Delete? {
        if api.delete {
          records.Remove(u);
        }
        pool.store := pool.store - {u};
        return;
      }
      if !api.get {
        return;
      }
      if u !in records.table {
        if !api.create {
          return;
        }
        records.Create(u);
      }
      if api.updateStatus {
        records.UpdateStatus(u, m.version);
      }
    }

    /** syncAckMessage: one key is taken, its message sent, and the outcome booked. */
    method SyncAckMessage(events: nat -> Event, writes: nat -> bool, api: SaveApi)
      returns (exit: bool, sent: Option<Message>, result: SendResult)
      requires pool.queue.order != []
      requires forall u :: u in pool.store ==> KeyOf(pool.store[u]) == Some(u)
      modifies this, pool, records
      ensures var u := old(pool.queue.order[0]);
              var q := WQ.Get(old(pool.queue));
              if u !in old(pool.store) then
                !exit && sent == None && terminated == old(terminated) && pool.store == old(pool.store) &&
                records.table == old(records.table) && pool.queue == WQ.Done(q, u)
              else
                && sent == Some(old(pool.store)[u])
                && ackMessageCache == old(ackMessageCache) + {sent.value.id} && sent.value.id !in closedChannels
                && exit == (result == TransportError) && terminated == (old(terminated) || exit)
                && result == SendOutcome(0, events, writes).0
                && pool.queue == WQ.Done(if result == TimedOut then WQ.AddRateLimited(q, u) else q, u)
                && pool.store == (if result == Acknowledged && sent.value.op.Delete?
                                  then old(pool.store) - {u} else old(pool.store))
                && records.table == (if result == Acknowledged
                                     then SaveRecord(old(records.table), sent.value, api) else old(records.table))
    {
      exit, sent, result := false, None, TimedOut;
      var u := pool.queue.order[0];
      pool.queue := WQ.Get(pool.queue);
      if u in pool.store {
        var m := pool.store[u];
        sent := Some(m);
        ackMessageCache, closedChannels := ackMessageCache + {m.id}, closedChannels - {m.id};
        var n;
        result, n := SendMessageWithRetry(events, writes);
        match result {
          case Acknowledged =>
            SaveSuccessPoint(m, api);
          case TimedOut =>
            pool.queue := WQ.AddRateLimited(pool.queue, u);
          case TransportError =>
            terminated, exit := true, true;
        }
      }
      pool.queue := WQ.Done(pool.queue, u);
    }
  }

  // ---------------------------------------------------------------- calls are runs

  /** EnqueueAckMessage, run without interruption, is one step of the enqueuer when it turns the message
      down, and three when it accepts it. */
  lemma EnqueueIsARun(s: State, m: Message, api: EnqueueApi)
    requires s.hub.live && s.hub.enqueuer.Ready? && Issuable(s, m)
    ensures var verdict := Decide(m, s.hub.store, s.hub.records, api);
            var decided := Apply(s, DecideEnqueue(m, api));
            var after := RecordsAfterDecide(m, s.hub.store, s.hub.records, api);
            && (verdict == Discard ==> decided.hub == s.hub.(records := after))
            && (verdict == Panic ==> decided.hub == s.hub.(records := after, enqueuer := Panicked))
            && (verdict == Accept ==>
                  && KeyOf(m).Some? && Enabled(decided, StoreAdd) && Enabled(Apply(decided, StoreAdd), QueueAdd)
                  && Apply(Apply(decided, StoreAdd), QueueAdd).hub ==
                       s.hub.(records := after, store := s.hub.store[KeyOf(m).value := m],
                              queue := WQ.Add(s.hub.queue, KeyOf(m).value)))
  {
  }

  /** The first half of SyncAckMessage: a key is taken, and its message sent or found missing. */
  lemma TakeIsARun(s: State)
    requires Enabled(s, GetKey)
    ensures var u, q := s.hub.queue.order[0], WQ.Get(s.hub.queue);
            var loaded := Apply(Apply(s, GetKey), Load);
            && loaded.hub.queue == q && loaded.hub.store == s.hub.store && loaded.hub.records == s.hub.records
            && (u in s.hub.store ==> loaded.hub.sender == Sending(u, s.hub.store[u], 0))
            && (u !in s.hub.store ==>
                  Enabled(loaded, DoneKey) &&
                  Apply(loaded, DoneKey).hub == s.hub.(queue := WQ.Done(q, u)))
  {
  }

  /** The sender, in whatever state others have brought the hub meanwhile, has seen how sending ends. */
  ghost predicate Ends(s: State, result: SendResult) {
    && s.hub.live && s.hub.sender.Sending? && KeyOf(s.hub.sender.msg) == Some(s.hub.sender.key)
    && (result == Acknowledged ==> s.hub.sender.msg.id in s.hub.closed)
    && (result == TimedOut ==> s.hub.sender.retries == MAX_RETRIES)
  }

  /** The steps of the sender from there to Done, or to the end of the session. */
  ghost function FinishSync(s: State, result: SendResult, api: SaveApi): State
    requires Ends(s, result)
  {
    match result
    case Acknowledged =>
      var saved := Apply(Apply(s, SeeAck), Save(api));
      Apply(if s.hub.sender.msg.op.Delete? then Apply(saved, Unstore) else saved, DoneKey)
    case TimedOut => Apply(Apply(s, TimeOut), DoneKey)
    case TransportError => Apply(s, Terminate)
  }

  /** The second half of SyncAckMessage books the outcome as those steps do. */
  lemma FinishIsARun(s: State, result: SendResult, api: SaveApi)
    requires Ends(s, result)
    ensures var u, m, h := s.hub.sender.key, s.hub.sender.msg, FinishSync(s, result, api).hub;
            && (result == TransportError ==> h == s.hub.(live := false))
            && (result == TimedOut ==>
                  h == s.hub.(sender := Idle, queue := WQ.Done(WQ.AddRateLimited(s.hub.queue, u), u)))
            && (result == Acknowledged ==>
                  h == s.hub.(sender := Idle, queue := WQ.Done(s.hub.queue, u),
                              records := SaveRecord(s.hub.records, m, api),
                              store := if m.op.Delete? then s.hub.store - {u} else s.hub.store))
  {
  }
}
