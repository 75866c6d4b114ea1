/**
 The edge side of reliable delivery: the hub hands an answer to the request that waits for it, or drops
 it, and everything else to the meta manager, which writes a message to the local database first and
 acknowledges it to the cloud only then.
 */
module EdgeMeta {
  import opened Common
  import opened Messages
  import D = Delivery

  /** A message with its resource path, its content, and the path of the patch row of a pod. */
  datatype Delivered = Delivered(msg: Message, key: string, body: string, patchKey: string)

  datatype Row = Row(resType: ResType, uid: string, body: string)
  type Table = map<string, Row>

  function UidOf(m: Delivered): string {
    if m.msg.meta.Some? then m.msg.meta.value.uid else ""
  }

  /** A statement run against the database. */
  datatype Write = Put(key: string, row: Row) | Remove(key: string) | RemovePod(key: string, uid: string)

  /** What goes to the cloud or to edged. */
  datatype Reply =
    | Ack(parent: nat) | ErrorReply(parent: nat) | Forward(id: nat) | Request(id: nat) | Result(parent: nat)

  function Perform(t: Table, w: Write): Table {
    match w
    case Put(k, row) => t[k := row]
    case Remove(k) => t - {k}
    case RemovePod(k, uid) => if k in t && t[k].uid == uid then t - {k} else t
  }

  function Replay(ws: seq<Write>): Table {
    if ws == [] then map[] else Perform(Replay(ws[..|ws| - 1]), ws[|ws| - 1])
  }

  /** Whether the first and the second database call of a message succeed. */
  datatype Database = Database(first: bool, second: bool)

  predicate Stores(m: Message) {
    m.op.Insert? || m.op.Update? || m.op.Patch? || m.op.Response?
  }

  /** The state a successfully handled message leaves: its row is there, or the deleted row is not. */
  ghost predicate TakenEffect(m: Delivered, t: Table) {
    if Stores(m.msg) then m.key in t && t[m.key] == Row(m.msg.resType, UidOf(m), m.body)
    else if m.msg.op.Delete? && m.msg.resType.Pod? then m.key !in t || t[m.key].uid != UidOf(m)
    else if m.msg.op.Delete? then m.key !in t
    else true
  }

  /** The row under the key of m is that of the object with the UID of m. */
  predicate IsRowOf(m: Delivered, t: Table) {
    m.key in t && t[m.key].uid == match m.msg.meta case Some(meta) => meta.uid case None => ""
  }

  /** What becomes of a message at the edge. */
  datatype Receipt = Missed | Failed | Kept | Acknowledged

  predicate Handled(r: Receipt) {
    r.Kept? || r.Acknowledged?
  }

  /** What becomes of a message that answers no request, when the database works or fails. */
  predicate DirectReceipt(m: Message, ok: bool, r: Receipt) {
    r == if !HandledDirectly(m) then Missed
         else if !ok then Failed
         else if AcknowledgedDirectly(m) then Acknowledged
         else Kept
  }

  /** An error goes to where the message came from, and nothing else anywhere. */
  predicate Refused(m: Message, cloud: seq<Reply>, edged: seq<Reply>) {
    if m.source.Edged? then cloud == [] && edged == [ErrorReply(m.id)] else cloud == [ErrorReply(m.id)] && edged == []
  }

  /** The cloud is asked under a new ID, or, without a connection, the message is refused. */
  predicate Asked(m: Message, connected: bool, newId: nat, cloud: seq<Reply>, edged: seq<Reply>) {
    if connected then cloud == [Request(newId)] && edged == [] else Refused(m, cloud, edged)
  }

  /** What is said about a message that answers no request: acknowledged to the cloud, or refused after a
      failure; what edged has written goes on to the cloud, and edged hears of an update; events and pod
      deletes of edged go on to the cloud unwritten; other messages of edged ask the cloud; and queries are
      answered from the database unless the cloud is to be asked. */
  predicate Replied(m: Message, r: Receipt, readable: bool, connected: bool, newId: nat,
                    cloud: seq<Reply>, edged: seq<Reply>) {
    match r
    case Acknowledged => cloud == [Ack(m.id)] && edged == []
    case Failed => Refused(m, cloud, edged)
    case Kept =>
      if m.op.Patch? && !connected then Refused(m, cloud, edged)
      else if (m.op.Update? && !m.source.Edged?) || (m.op.Response? && m.source.EdgeController?) then
        cloud == [] && edged == []
      else cloud == [Forward(m.id)] && edged == if m.op.Update? then [Result(m.id)] else []
    case Missed =>
      match m.op
      case OtherOperation => cloud == [] && edged == []
      case Query =>
        if (m.resType.Remote? || m.resType.Lease?) && connected then Asked(m, connected, newId, cloud, edged)
        else if readable then cloud == [] && edged == [Result(m.id)]
        else Refused(m, cloud, edged)
      case _ =>
        if m.resType.Event? || m.op.Delete? then cloud == [Forward(m.id)] && edged == []
        else Asked(m, connected, newId, cloud, edged)
  }

  predicate RemoteQuery(m: Message) {
    m.resType.Remote? || m.resType.Lease?
  }

  /** From the cloud, and not a query. */
  predicate FromCloud(m: Message) {
    !m.source.Edged? && !m.op.Query?
  }

  /** The edge of one node: its database, its requests that wait for an answer, and what it has sent. */
  class MetaManager {
    var table: Table
    var requests: set<nat>
    var toCloud: seq<Reply>
    var toEdged: seq<Reply>
    ghost var writes: seq<Write>      // every statement that succeeded
    ghost var handled: set<nat>       // messages handleMessage returned without error for

    /** The table is the effect of the writes, and only handled messages are acknowledged. */
    ghost predicate Valid()
      reads this
    {
      && table == Replay(writes)
      && (forall i :: 0 <= i < |toCloud| && toCloud[i].Ack? ==> toCloud[i].parent in handled)
    }

    constructor ()
      ensures Valid() && table == map[] && toCloud == [] && toEdged == [] && requests == {}
    {
      table, requests, toCloud, toEdged, writes, handled := map[], {}, [], [], [], {};
    }

    method Execute(w: Write)
      requires Valid()
      modifies this
      ensures Valid() && table == Perform(old(table), w) && writes == old(writes) + [w]
      ensures toCloud == old(toCloud) && toEdged == old(toEdged) && handled == old(handled) && requests == old(requests)
    {
      table := Perform(table, w);
      writes := writes + [w];
    }

    /** handleMessage: no error means the message has taken effect in the database. */
    method HandleMessage(m: Delivered, db: Database) returns (ok: bool)
      requires Valid()
      modifies this
      ensures Valid() && old(writes) <= writes
      ensures toCloud == old(toCloud) && toEdged == old(toEdged) && requests == old(requests)
      ensures ok ==> TakenEffect(m, table) && handled == old(handled) + {m.msg.id}
      ensures !ok ==> handled == old(handled) && !(db.first && db.second)
      ensures !db.first && (Stores(m.msg) || m.msg.op.Delete?) ==> !ok && table == old(table)
      ensures ok && (m.msg.op.Insert? || m.msg.op.Update? || m.msg.op.Patch? || m.msg.op.Response?) ==>
                && table == old(table)[m.key := table[m.key]]
                && table[m.key].resType == m.msg.resType && table[m.key].body == m.body
                && (m.msg.meta.Some? ==> table[m.key].uid == m.msg.meta.value.uid)
      ensures ok && m.msg.op.Delete? && !m.msg.resType.Pod? ==> table == old(table) - {m.key}
      ensures m.msg.op.Delete? && m.msg.resType.Pod? && !IsRowOf(m, old(table)) ==> table == old(table)
      ensures m.msg.op.Delete? && m.msg.resType.Pod? && IsRowOf(m, old(table)) && db.first ==>
                ok == db.second && table == old(table) - (if ok then {m.key, m.patchKey} else {m.key})
      ensures m.msg.op.Query? || m.msg.op.OtherOperation? ==> table == old(table)
    {
      ok := true;
      if Stores(m.msg) {
        if !db.first { return false; }
        Execute(Put(m.key, Row(m.msg.resType, UidOf(m), m.body)));
      } else if m.msg.op.Delete? {
        if !db.first { return false; }
        if m.msg.resType.Pod? {
          var present := m.key in table && table[m.key].uid == UidOf(m);
          Execute(RemovePod(m.key, UidOf(m)));
          if present {
            if !db.second { return false; }
            Execute(Remove(m.patchKey));
          }
        } else {
          Execute(Remove(m.key));
        }
      }
      handled := handled + {m.msg.id};
    }

    method SendToCloud(r: Reply)
      requires Valid() && (r.Ack? ==> r.parent in handled)
      modifies this
      ensures Valid() && toCloud == old(toCloud) + [r] && toEdged == old(toEdged)
      ensures table == old(table) && writes == old(writes) && handled == old(handled) && requests == old(requests)
    {
      toCloud := toCloud + [r];
    }

    method SendToEdged(r: Reply)
      requires Valid()
      modifies this
      ensures Valid() && toEdged == old(toEdged) + [r] && toCloud == old(toCloud)
      ensures table == old(table) && writes == old(writes) && handled == old(handled) && requests == old(requests)
    {
      toEdged := toEdged + [r];
    }

    /** feedbackError: edged hears of its own messages, the cloud of all others. */
    method FeedbackError(m: Message)
      requires Valid()
      modifies this
      ensures Valid()
      ensures toEdged == (if m.source.Edged? then old(toEdged) + [ErrorReply(m.id)] else old(toEdged))
      ensures toCloud == (if m.source.Edged? then old(toCloud) else old(toCloud) + [ErrorReply(m.id)])
      ensures table == old(table) && writes == old(writes) && handled == old(handled) && requests == old(requests)
    {
      if m.source.Edged? {
        SendToEdged(ErrorReply(m.id));
      } else {
        SendToCloud(ErrorReply(m.id));
      }
    }

    /** The start of processRemote: the cloud is asked under a new ID, and the request waits. */
    method AskCloud(m: Message, connected: bool, newId: nat)
      requires Valid()
      modifies this
      ensures Valid() && table == old(table) && writes == old(writes) && handled == old(handled)
      ensures requests == (if connected then old(requests) + {newId} else old(requests))
      ensures old(toCloud) <= toCloud && old(toEdged) <= toEdged
      ensures Asked(m, connected, newId, toCloud[|old(toCloud)|..], toEdged[|old(toEdged)|..])
    {
      if connected {
        requests := requests + {newId};
        SendToCloud(Request(newId));
      } else {
        FeedbackError(m);
      }
    }

    /** handleMessage, and the acknowledgement or the error that follows. */
    method HandleAndReply(m: Delivered, db: Database, acknowledge: bool) returns (r: Receipt)
      requires Valid()
      modifies this
      ensures Valid() && requests == old(requests) && old(writes) <= writes
      ensures old(toCloud) <= toCloud && old(toEdged) <= toEdged
      ensures r == Failed ==> handled == old(handled) && !(db.first && db.second)
      ensures r == Failed ==> Refused(m.msg, toCloud[|old(toCloud)|..], toEdged[|old(toEdged)|..])
      ensures r != Failed ==> toEdged == old(toEdged)
      ensures r != Failed ==> r == (if acknowledge then Acknowledged else Kept)
      ensures r != Failed ==> TakenEffect(m, table) && handled == old(handled) + {m.msg.id}
      ensures r != Failed ==> toCloud == old(toCloud) + (if acknowledge then [Ack(m.msg.id)] else [])
    {
      var ok := HandleMessage(m, db);
      if !ok {
        FeedbackError(m.msg);
        return Failed;
      }
      if acknowledge {
        SendToCloud(Ack(m.msg.id));
        return Acknowledged;
      }
      return Kept;
    }

    /** What processing a message that answers no request does. */
    twostate predicate Processed(m: Delivered, db: Database, connected: bool, newId: nat, r: Receipt)
      reads this
    {
      && old(toCloud) <= toCloud && old(toEdged) <= toEdged && old(writes) <= writes
      && DirectReceipt(m.msg, r != Failed, r) && (db.first && db.second ==> DirectReceipt(m.msg, true, r))
      && (Handled(r) ==> TakenEffect(m, table) && handled == old(handled) + {m.msg.id})
      && (!Handled(r) ==> handled == old(handled)) && (r == Missed ==> table == old(table))
      && Replied(m.msg, r, db.first, connected, newId, toCloud[|old(toCloud)|..], toEdged[|old(toEdged)|..])
      && (FromCloud(m.msg) ==> requests == old(requests))
    }

    method ProcessInsert(m: Delivered, db: Database, connected: bool, newId: nat) returns (r: Receipt)
      requires Valid() && m.msg.op.Insert?
      modifies this
      ensures Valid() && Processed(m, db, connected, newId, r)
    {
      r := Missed;
      if m.msg.resType.Event? {
        SendToCloud(Forward(m.msg.id));
      } else if m.msg.source.Edged? {
        AskCloud(m.msg, connected, newId);
      } else {
        r := HandleAndReply(m, db, true);
      }
    }

    method ProcessUpdate(m: Delivered, db: Database, connected: bool, newId: nat) returns (r: Receipt)
      requires Valid() && m.msg.op.Update?
      modifies this
      ensures Valid() && Processed(m, db, connected, newId, r)
    {
      r := Missed;
      if m.msg.resType.Event? {
        SendToCloud(Forward(m.msg.id));
      } else if m.msg.source.Edged? && m.msg.resType.Lease? {
        AskCloud(m.msg, connected, newId);
      } else {
        r := HandleAndReply(m, db, AcknowledgedDirectly(m.msg));
        if r == Kept && m.msg.source.Edged? {
          SendToCloud(Forward(m.msg.id));
          SendToEdged(Result(m.msg.id));
        }
      }
    }

    method ProcessPatch(m: Delivered, db: Database, connected: bool, newId: nat) returns (r: Receipt)
      requires Valid() && m.msg.op.Patch?
      modifies this
      ensures Valid() && Processed(m, db, connected, newId, r)
    {
      r := Missed;
      if m.msg.resType.Event? {
        SendToCloud(Forward(m.msg.id));
        return;
      }
      r := HandleAndReply(m, db, false);
      if r == Kept {
        if connected { SendToCloud(Forward(m.msg.id)); } else { FeedbackError(m.msg); }
      }
    }

    method ProcessResponse(m: Delivered, db: Database, connected: bool, newId: nat) returns (r: Receipt)
      requires Valid() && m.msg.op.Response?
      modifies this
      ensures Valid() && Processed(m, db, connected, newId, r)
    {
      r := HandleAndReply(m, db, false);
      if r == Kept && !m.msg.source.EdgeController? {
        SendToCloud(Forward(m.msg.id));
      }
    }

    method ProcessDelete(m: Delivered, db: Database, connected: bool, newId: nat) returns (r: Receipt)
      requires Valid() && m.msg.op.Delete?
      modifies this
      ensures Valid() && Processed(m, db, connected, newId, r)
    {
      if m.msg.resType.Pod? && m.msg.source.Edged? {
        SendToCloud(Forward(m.msg.id));
        return Missed;
      }
      r := HandleAndReply(m, db, true);
    }

    method ProcessQuery(m: Delivered, db: Database, connected: bool, newId: nat)
      requires Valid() && m.msg.op.Query?
      modifies this
      ensures Valid() && Processed(m, db, connected, newId, Missed)
    {
      if RemoteQuery(m.msg) && connected {
        AskCloud(m.msg, connected, newId);
      } else if db.first {
        SendToEdged(Result(m.msg.id));
      } else {
        FeedbackError(m.msg);
      }
    }

    /** process, for messages that answer no request. */
    method Process(m: Delivered, db: Database, connected: bool, newId: nat) returns (r: Receipt)
      requires Valid()
      modifies this
      ensures Valid() && Processed(m, db, connected, newId, r)
      ensures r == Acknowledged <==> Ack(m.msg.id) in toCloud[|old(toCloud)|..]
      ensures forall id :: Ack(id) in toCloud[|old(toCloud)|..] ==> id == m.msg.id
    {
      match m.msg.op {
        case Insert => r := ProcessInsert(m, db, connected, newId);
        case Update => r := ProcessUpdate(m, db, connected, newId);
        case Patch => r := ProcessPatch(m, db, connected, newId);
        case Response => r := ProcessResponse(m, db, connected, newId);
        case Delete => r := ProcessDelete(m, db, connected, newId);
        case Query =>
          ProcessQuery(m, db, connected, newId);
          r := Missed;
        case OtherOperation => r := Missed;
      }
    }

    /** What the hub does with a message from the cloud: an answer is for the request that waits for it,
        or for nobody. */
    method Receive(m: Delivered, db: Database, connected: bool, newId: nat) returns (r: Receipt)
      requires Valid()
      modifies this
      ensures Valid() && old(toCloud) <= toCloud && old(writes) <= writes
      ensures Allowed(m.msg, old(requests), r)
      ensures FromCloud(m.msg) ==> requests == Left(m.msg, old(requests), r)
      ensures Handled(r) ==> TakenEffect(m, table) && handled == old(handled) + {m.msg.id}
      ensures !Handled(r) ==> handled == old(handled)
      ensures r == Acknowledged <==> Ack(m.msg.id) in toCloud[|old(toCloud)|..]
      ensures db.first && db.second && Allowed(m.msg, old(requests), Acknowledged) ==> r == Acknowledged
      ensures m.msg.parent.Some? && r == Missed ==> toCloud == old(toCloud) && toEdged == old(toEdged)
      ensures m.msg.parent.Some? && r == Failed ==>
                toCloud == old(toCloud) && toEdged == old(toEdged) + [ErrorReply(m.msg.parent.value)]
      ensures m.msg.parent.Some? && r == Acknowledged ==>
                toCloud == old(toCloud) + [Ack(m.msg.id)] && toEdged == old(toEdged) + [Result(m.msg.parent.value)]
      ensures m.msg.parent.None? ==> Processed(m, db, connected, newId, r)
    {
      if m.msg.parent.Some? {
        var request := m.msg.parent.value;
        if request !in requests {
          return Missed;
        }
        requests := requests - {request};
        var ok := HandleMessage(m, db);
        if !ok {
          SendToEdged(ErrorReply(request));
          return Failed;
        }
        SendToEdged(Result(request));
        SendToCloud(Ack(m.msg.id));
        return Acknowledged;
      }
      r := Process(m, db, connected, newId);
    }
  }

  // ---------------------------------------------------------------- a receipt is a run

  /** What can become of a message while these requests wait. */
  predicate Allowed(m: Message, requests: set<nat>, r: Receipt) {
    && (r != Missed ==> Handles(m) && (m.parent.Some? ==> m.parent.value in requests))
    && (r == Kept ==> !Acknowledges(m)) && (r == Acknowledged ==> Acknowledges(m))
  }

  /** The requests that still wait. */
  function Left(m: Message, requests: set<nat>, r: Receipt): set<nat> {
    if r == Missed then requests else D.Answered(requests, m)
  }

  /** The steps of the delivery protocol that a receipt stands for. */
  function EdgeRun(m: Message, r: Receipt): seq<D.Step> {
    match r
    case Missed => [D.EdgeMiss]
    case Failed => if m.parent.Some? then [D.EdgeFail] else [D.EdgeMiss]
    case Kept => [D.EdgePersist, D.EdgeMute]
    case Acknowledged => [D.EdgePersist, D.EdgeAck]
  }

  /** The packet at the head of the wire carries m, and the edge is ready for it. */
  ghost predicate Next(s: D.State, m: Message) {
    && s.net.edge.Waiting? && s.net.wire != [] && s.net.wire[0] < |s.past.sent|
    && s.past.sent[s.net.wire[0]].msg == m
  }

  lemma MissIsARun(s: D.State, m: Message, r: Receipt)
    requires Next(s, m) && Allowed(m, s.net.awaiting, r) && !Handled(r)
    ensures D.Enabled(s, EdgeRun(m, r)[0]) && EdgeRun(m, r) == [EdgeRun(m, r)[0]]
    ensures D.Apply(s, EdgeRun(m, r)[0]) ==
              s.(net := s.net.(wire := s.net.wire[1..], awaiting := Left(m, s.net.awaiting, r)))
  {
  }

  /** The state after the next packet has been persisted, and acknowledged or not. */
  function Taken(s: D.State, m: Message, acknowledged: bool): D.State
    requires s.net.wire != []
  {
    var returning := if acknowledged then s.net.returning + multiset{m.id} else s.net.returning;
    var acks := if acknowledged then s.past.acks + {m.id} else s.past.acks;
    s.(net := s.net.(wire := s.net.wire[1..], awaiting := D.Answered(s.net.awaiting, m), returning := returning),
       past := s.past.(log := s.past.log + [s.net.wire[0]], acks := acks))
  }

  lemma TakeIsARun(s: D.State, m: Message, r: Receipt)
    requires Next(s, m) && Allowed(m, s.net.awaiting, r) && Handled(r)
    ensures var run := EdgeRun(m, r);
            && |run| == 2 && D.Enabled(s, run[0]) && D.Enabled(D.Apply(s, run[0]), run[1])
            && D.Apply(D.Apply(s, run[0]), run[1]) == Taken(s, m, r == Acknowledged)
  {
  }

  /** Receiving the message of the next packet is a run of the edge's steps: it changes the edge's requests
      as Receive does, logs the packet if the message was handled, and sends an acknowledgement if Receive did. */
  lemma ReceiveIsARun(s: D.State, m: Message, r: Receipt)
    requires Next(s, m) && Allowed(m, s.net.awaiting, r)
    ensures D.Follow(s, EdgeRun(m, r)) ==
              Some(if Handled(r) then Taken(s, m, r == Acknowledged)
                   else s.(net := s.net.(wire := s.net.wire[1..], awaiting := Left(m, s.net.awaiting, r))))
  {
    var run := EdgeRun(m, r);
    if Handled(r) {
      TakeIsARun(s, m, r);
      D.FollowTwo(s, run[0], run[1]);
      assert run == [run[0], run[1]];
    } else {
      MissIsARun(s, m, r);
      var none: seq<D.Step> := [];
      D.FollowOne(s, none, s, run[0]);
      assert none + [run[0]] == run;
    }
  }

  // ---------------------------------------------------------------- which row survives

  predicate PutsAt(w: Write, k: string) {
    w.Put? && w.key == k
  }

  /** A later write that takes away the row put for this key and UID. */
  predicate Clears(w: Write, k: string, uid: string) {
    (w.Put? && w.key == k) || (w.Remove? && w.key == k) || (w.RemovePod? && w.key == k && w.uid == uid)
  }

  /** The row at a key is the one some write put there with no clearing write after it: a pod delete
      clears only its own UID, so a pod recreated under the name of a deleted one survives. */
  lemma {:induction false} RowSurvivesIff(ws: seq<Write>, k: string, row: Row)
    ensures (k in Replay(ws) && Replay(ws)[k] == row) <==>
              exists i :: 0 <= i < |ws| && ws[i] == Put(k, row) &&
                (forall j :: i < j < |ws| ==> !Clears(ws[j], k, row.uid))
  {
    if ws != [] {
      var n := |ws| - 1;
      var pre, w := ws[..n], ws[n];
      RowSurvivesIff(pre, k, row);
      if w == Put(k, row) {
        assert ws[n] == Put(k, row);
      } else if Clears(w, k, row.uid) {
        assert Clears(ws[n], k, row.uid);
      } else if k in Replay(pre) && Replay(pre)[k] == row {
        var i :| 0 <= i < |pre| && pre[i] == Put(k, row) &&
          (forall j :: i < j < |pre| ==> !Clears(pre[j], k, row.uid));
        assert ws[i] == Put(k, row);
        forall j | i < j < |ws| ensures !Clears(ws[j], k, row.uid) {
          assert j < n ==> ws[j] == pre[j];
        }
      } else {
        forall i | 0 <= i < |ws| && ws[i] == Put(k, row)
          ensures exists j :: i < j < |ws| && Clears(ws[j], k, row.uid)
        {
          assert pre[i] == Put(k, row);
          var j :| i < j < |pre| && Clears(pre[j], k, row.uid);
          assert ws[j] == pre[j];
        }
      }
    }
  }
}
