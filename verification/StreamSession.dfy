/**
 The cloud end of the stream tunnel: API-server connections share one tunnel per edge node and
 are told apart by the connection ID in each frame.
 */
module StreamSession {
  import opened Common
  import TunnelCodec

  type byte = TunnelCodec.byte

  // ---------------------------------------------------------------- the objects

  class ApiConnection {
    var messageId: nat
    var received: seq<byte>
    var edgePeerDone: bool

    constructor ()
      ensures received == [] && !edgePeerDone
    {
      messageId, received, edgePeerDone := 0, [], false;
    }
  }

  class StreamServer {
    var nextMessageId: nat

    constructor ()
      ensures nextMessageId == 0
    {
      nextMessageId := 0;
    }
  }

  /** A session as the set of connection IDs registered in it. */
  datatype Tunnel = Tunnel(closed: bool, table: set<nat>)

  function WithId(t: Tunnel, id: nat): Tunnel {
    if t.closed then t else t.(table := t.table + {id})
  }

  function WithoutId(t: Tunnel, id: nat): Tunnel {
    t.(table := t.table - {id})
  }

  datatype Kind = RemoveConnect | DataFrame | OtherFrame

  /** What one WriteToAPIServer call does: accept some bytes, or fail. */
  datatype Write = Accepted(n: nat) | WriteError

  datatype Outcome = Done | UnknownConnection | Failed

  class Session {
    var tunnelClosed: bool
    var apiServerConn: map<nat, ApiConnection>

    /** Every key is the ID of the connection it leads to. */
    ghost predicate Valid()
      reads this, apiServerConn.Values
    {
      forall id :: id in apiServerConn ==> apiServerConn[id].messageId == id
    }

    ghost function View(): Tunnel
      reads this
    {
      Tunnel(tunnelClosed, apiServerConn.Keys)
    }

    /** The session is tunnel name of m: same table, and each connection has received what m says. */
    ghost predicate Shows(m: Mux, name: string)
      reads this, apiServerConn.Values
    {
      && name in m.tunnels && m.tunnels[name] == View()
      && (forall id :: id in apiServerConn ==> id in m.received && m.received[id] == apiServerConn[id].received)
    }

    constructor ()
      ensures Valid() && View() == Tunnel(false, {})
    {
      tunnelClosed, apiServerConn := false, map[];
    }

    /** AddAPIServerConnection: the ID is consumed even when the tunnel has closed. */
    method AddConnection(server: StreamServer, connection: ApiConnection, ghost m: Mux, ghost name: string)
      returns (ok: bool)
      requires Valid()
      modifies this, server, connection
      ensures connection !in old(apiServerConn.Values) ==> Valid()
      ensures ok == !old(tunnelClosed) && View() == WithId(old(View()), server.nextMessageId)
      ensures server.nextMessageId == (old(server.nextMessageId) + 1) % UINT64_LIMIT
      ensures ok ==> connection.messageId == server.nextMessageId
      ensures apiServerConn == if ok then old(apiServerConn)[server.nextMessageId := connection] else old(apiServerConn)
      ensures connection.received == old(connection.received)
      ensures MuxInv(m) && old(Shows(m, name)) && m.next == old(server.nextMessageId) < UINT64_LIMIT - 1 &&
              old(connection.received) == [] ==>
                Shows(Step(m, Add(name)), name) && server.nextMessageId == Step(m, Add(name)).next
    {
      server.nextMessageId := (server.nextMessageId + 1) % UINT64_LIMIT;
      if tunnelClosed {
        return false;
      }
      connection.messageId := server.nextMessageId;
      apiServerConn := apiServerConn[server.nextMessageId := connection];
      return true;
    }

    /** DeleteAPIServerConnection. */
    method DeleteConnection(connection: ApiConnection, ghost m: Mux, ghost name: string)
      requires Valid()
      modifies this
      ensures Valid() && View() == WithoutId(old(View()), connection.messageId)
      ensures apiServerConn == old(apiServerConn) - {connection.messageId}
      ensures old(Shows(m, name)) ==> Shows(Step(m, Delete(name, connection.messageId)), name)
    {
      apiServerConn := apiServerConn - {connection.messageId};
    }

    /** Close tells every connection that its peer is gone; the table stays as it is. */
    method Close(ghost m: Mux, ghost name: string)
      requires Valid()
      modifies this, apiServerConn.Values
      ensures Valid() && View() == old(View()).(closed := true) && apiServerConn == old(apiServerConn)
      ensures forall c :: c in apiServerConn.Values ==> c.edgePeerDone && c.received == old(c.received)
      ensures old(Shows(m, name)) ==> Shows(Step(m, Event.Close(name)), name)
    {
      var ids := apiServerConn.Keys;
      while ids != {}
        invariant Valid() && apiServerConn == old(apiServerConn) && ids <= apiServerConn.Keys
        invariant tunnelClosed == old(tunnelClosed)
        invariant forall id :: id in apiServerConn && id !in ids ==> apiServerConn[id].edgePeerDone
        invariant forall c :: c in apiServerConn.Values ==>
                    c.received == old(c.received) && c.messageId == old(c.messageId)
        decreases |ids|
      {
        var id :| id in ids;
        assert apiServerConn[id] in apiServerConn.Values;
        apiServerConn[id].edgePeerDone := true;
        ids := ids - {id};
      }
      tunnelClosed := true;
    }

    /** ProxyTunnelMessageToApiserver: the frame reaches the connection registered under its ID, or none. */
    method ProxyMessage(id: nat, kind: Kind, data: seq<byte>, writes: nat -> Write, ghost m: Mux, ghost name: string)
      returns (outcome: Outcome)
      requires Valid()
      requires forall i :: writes(i).Accepted? ==> writes(i).n > 0
      modifies apiServerConn.Values
      ensures Valid()
      ensures outcome == UnknownConnection <==> id !in apiServerConn
      ensures outcome == Failed ==> kind.DataFrame?
      ensures id in apiServerConn ==>
                var c := apiServerConn[id];
                && (outcome == Done && kind.DataFrame? ==> c.received == old(c.received) + data)
                && (outcome == Done && !kind.DataFrame? ==> c.received == old(c.received))
                && (outcome == Failed ==> exists k :: 0 <= k <= |data| && c.received == old(c.received) + data[..k])
      ensures (forall i :: writes(i).Accepted?) ==> outcome != Failed
      ensures forall c :: c in apiServerConn.Values && (id in apiServerConn ==> c != apiServerConn[id]) ==>
                c.received == old(c.received)
      ensures forall c :: c in apiServerConn.Values ==> c.messageId == old(c.messageId)
      ensures old(Shows(m, name)) && kind.DataFrame? && outcome != Failed ==> Shows(Step(m, Data(name, id, data)), name)
      ensures old(Shows(m, name)) && outcome == Failed ==>
                exists k :: 0 <= k <= |data| && Shows(Step(m, Data(name, id, data[..k])), name)
      ensures old(Shows(m, name)) && !kind.DataFrame? ==> Shows(m, name)
      ensures forall c :: c in apiServerConn.Values ==>
                (c.edgePeerDone <==>
                   old(c.edgePeerDone) || (kind.RemoveConnect? && id in apiServerConn && c == apiServerConn[id]))
    {
      if id !in apiServerConn {
        return UnknownConnection;
      }
      var kubeCon := apiServerConn[id];
      match kind {
        case RemoveConnect =>
          kubeCon.edgePeerDone := true;
          outcome := Done;
        case DataFrame =>
          outcome := WriteAll(kubeCon, data, writes);
          assert forall other :: other in apiServerConn && other != id ==> apiServerConn[other] != kubeCon;
        case OtherFrame =>
          outcome := Done;
      }
    }
  }

  /** Partial writes go on until all data is written; a failing write leaves a prefix of it written. */
  method WriteAll(kubeCon: ApiConnection, data: seq<byte>, writes: nat -> Write) returns (outcome: Outcome)
    requires forall i :: writes(i).Accepted? ==> writes(i).n > 0
    modifies kubeCon
    ensures kubeCon.messageId == old(kubeCon.messageId) && kubeCon.edgePeerDone == old(kubeCon.edgePeerDone)
    ensures outcome != UnknownConnection
    ensures outcome == Done ==> kubeCon.received == old(kubeCon.received) + data
    ensures outcome == Failed ==> exists k :: 0 <= k <= |data| && kubeCon.received == old(kubeCon.received) + data[..k]
    ensures (forall i :: writes(i).Accepted?) ==> outcome != Failed
  {
    var i, call := 0, 0;
    while i < |data|
      invariant 0 <= i <= |data|
      invariant kubeCon.messageId == old(kubeCon.messageId) && kubeCon.edgePeerDone == old(kubeCon.edgePeerDone)
      invariant kubeCon.received == old(kubeCon.received) + data[..i]
      decreases |data| - i
    {
      match writes(call) {
        case WriteError =>
          return Failed;
        case Accepted(n) =>
          var step := if n <= |data| - i then n else |data| - i;
          kubeCon.received := kubeCon.received + data[i..i + step];
          assert data[..i + step] == data[..i] + data[i..i + step];
          i, call := i + step, call + 1;
      }
    }
    assert data[..|data|] == data;
    return Done;
  }

  // ---------------------------------------------------------------- all sessions, over every run

  /** The shared counter, the sessions, and what each connection ever registered has received. */
  datatype Mux = Mux(next: nat, tunnels: map<string, Tunnel>, received: map<nat, seq<byte>>)

  datatype Event =
    | Open(session: string)
    | Add(session: string)
    | Delete(session: string, id: nat)
    | Close(session: string)
    | Data(session: string, id: nat, data: seq<byte>)

  predicate Registered(m: Mux, session: string, id: nat) {
    session in m.tunnels && id in m.tunnels[session].table
  }

  predicate Accepting(m: Mux, session: string) {
    session in m.tunnels && !m.tunnels[session].closed
  }

  function Step(m: Mux, e: Event): Mux {
    match e
    case Open(s) => if s in m.tunnels then m else m.(tunnels := m.tunnels[s := Tunnel(false, {})])
    case Add(s) =>
      var id := m.next + 1;
      if Accepting(m, s) then
        Mux(id, m.tunnels[s := WithId(m.tunnels[s], id)], m.received[id := []])
      else m.(next := id)
    case Delete(s, id) =>
      if s in m.tunnels then m.(tunnels := m.tunnels[s := WithoutId(m.tunnels[s], id)]) else m
    case Close(s) => if s in m.tunnels then m.(tunnels := m.tunnels[s := m.tunnels[s].(closed := true)]) else m
    case Data(s, id, d) =>
      if Registered(m, s, id) && id in m.received then m.(received := m.received[id := m.received[id] + d]) else m
  }

  function Exec(m: Mux, trace: seq<Event>): Mux {
    if trace == [] then m else Step(Exec(m, trace[..|trace| - 1]), trace[|trace| - 1])
  }

  function Start(): Mux {
    Mux(0, map[], map[])
  }

  /** IDs are at most the counter, belong to one session, and have a connection. */
  ghost predicate MuxInv(m: Mux) {
    && (forall s, id: nat :: Registered(m, s, id) ==> 0 < id <= m.next && id in m.received)
    && (forall s, t, id: nat :: Registered(m, s, id) && Registered(m, t, id) ==> s == t)
    && (forall id :: id in m.received ==> 0 < id <= m.next)
  }

  lemma MuxStep(m: Mux, e: Event)
    requires MuxInv(m)
    ensures MuxInv(Step(m, e))
  {
    var m' := Step(m, e);
    forall s, id: nat | Registered(m', s, id)
      ensures Registered(m, s, id) || (e.Add? && Accepting(m, s) && e.session == s && id == m.next + 1)
    {
    }
    assert forall id :: id in m.received ==> id in m'.received;
  }

  /** A step of one session changes nothing for the connections of another. */
  lemma StepIsLocal(m: Mux, e: Event, other: string)
    requires MuxInv(m) && other in m.tunnels && e.session != other
    ensures other in Step(m, e).tunnels && Step(m, e).tunnels[other] == m.tunnels[other]
    ensures forall id :: id in m.tunnels[other].table ==>
              id in m.received && id in Step(m, e).received && Step(m, e).received[id] == m.received[id]
  {
    forall id | id in m.tunnels[other].table ensures id in m.received && id <= m.next && !Registered(m, e.session, id) {
      assert Registered(m, other, id);
    }
  }

  /** No connection ID is registered in two sessions at once, in any run. */
  lemma {:induction false} IdsAreDistinct(m: Mux, trace: seq<Event>)
    requires MuxInv(m)
    ensures MuxInv(Exec(m, trace))
  {
    if trace != [] {
      IdsAreDistinct(m, trace[..|trace| - 1]);
      MuxStep(Exec(m, trace[..|trace| - 1]), trace[|trace| - 1]);
    }
  }

  /** Nothing is added to a session that has closed. */
  lemma {:induction false} NothingAddedAfterClose(m: Mux, session: string, trace: seq<Event>)
    requires session in m.tunnels && m.tunnels[session].closed
    ensures var m' := Exec(m, trace);
            session in m'.tunnels && m'.tunnels[session].closed &&
            m'.tunnels[session].table <= m.tunnels[session].table
  {
    if trace != [] {
      NothingAddedAfterClose(m, session, trace[..|trace| - 1]);
    }
  }

  /** All data addressed to a connection through its own session, in order. */
  function Bytes(trace: seq<Event>, session: string, id: nat): seq<byte> {
    if trace == [] then []
    else
      var e := trace[|trace| - 1];
      Bytes(trace[..|trace| - 1], session, id) +
      (if e.Data? && e.session == session && e.id == id then e.data else [])
  }

  /** While registered, a connection has received exactly the data sent under its ID, in order. */
  lemma {:induction false} BytesConserved(m: Mux, session: string, id: nat, trace: seq<Event>)
    requires MuxInv(m) && Registered(m, session, id)
    requires Delete(session, id) !in trace
    ensures var m' := Exec(m, trace);
            && MuxInv(m') && Registered(m', session, id)
            && m'.received[id] == m.received[id] + Bytes(trace, session, id)
  {
    if trace != [] {
      var n := |trace| - 1;
      BytesConserved(m, session, id, trace[..n]);
      var before, e := Exec(m, trace[..n]), trace[n];
      assert e in trace && e != Delete(session, id);
      MuxStep(before, e);
    }
  }

  /** Once removed, it receives nothing more. */
  lemma {:induction false} NothingAfterDelete(m: Mux, id: nat, trace: seq<Event>)
    requires MuxInv(m) && id in m.received && forall s :: !Registered(m, s, id)
    ensures var m' := Exec(m, trace);
            MuxInv(m') && id in m'.received && m'.received[id] == m.received[id] && forall s :: !Registered(m', s, id)
  {
    if trace != [] {
      var n := |trace| - 1;
      NothingAfterDelete(m, id, trace[..n]);
      var before, e := Exec(m, trace[..n]), trace[n];
      MuxStep(before, e);
      forall s ensures !Registered(Step(before, e), s, id) {
        assert !Registered(before, s, id);
      }
    }
  }

  lemma {:induction false} ExecAppend(m: Mux, a: seq<Event>, b: seq<Event>)
    ensures Exec(m, a + b) == Exec(Exec(m, a), b)
  {
    if b == [] {
      assert a + b == a;
    } else {
      assert (a + b)[..|a + b| - 1] == a + b[..|b| - 1];
      ExecAppend(m, a, b[..|b| - 1]);
    }
  }

  /** Whole life of a connection, in any run of all sessions: added after pre, used during used, deleted,
      and whatever comes later; it has received exactly what used sent to it. */
  lemma ConnectionLife(pre: seq<Event>, session: string, used: seq<Event>, later: seq<Event>)
    requires Accepting(Exec(Start(), pre), session)
    requires Delete(session, Exec(Start(), pre).next + 1) !in used
    ensures var id := Exec(Start(), pre).next + 1;
            var end := Exec(Start(), pre + [Add(session)] + used + [Delete(session, id)] + later);
            id in end.received && end.received[id] == Bytes(used, session, id)
  {
    var m0 := Exec(Start(), pre);
    var id := m0.next + 1;
    IdsAreDistinct(Start(), pre);
    ExecAppend(Start(), pre, [Add(session)]);
    var m1 := Step(m0, Add(session));
    assert Exec(m0, [Add(session)]) == m1;
    MuxStep(m0, Add(session));
    ExecAppend(Start(), pre + [Add(session)], used);
    BytesConserved(m1, session, id, used);
    var m2 := Exec(m1, used);
    ExecAppend(Start(), pre + [Add(session)] + used, [Delete(session, id)]);
    var m3 := Step(m2, Delete(session, id));
    assert Exec(m2, [Delete(session, id)]) == m3;
    MuxStep(m2, Delete(session, id));
    forall s ensures !Registered(m3, s, id) {
      assert Registered(m3, s, id) ==> Registered(m2, s, id);
    }
    NothingAfterDelete(m3, id, later);
    ExecAppend(Start(), pre + [Add(session)] + used + [Delete(session, id)], later);
  }
}
