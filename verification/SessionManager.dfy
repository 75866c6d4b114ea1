/**
 Bookkeeping of sessions and message pools as edge nodes connect, reconnect and disconnect.
 */
module SessionManager {
  import opened Common

  // ---------------------------------------------------------------- the objects

  /** The map without the entry of n, provided that entry is v. */
  function Without<V(==)>(m: map<string, V>, n: string, v: V): map<string, V> {
    if n in m && m[n] == v then m - {n} else m
  }

  class MessagePool {
    constructor () {}
  }

  class NodeSession {
    const nodeId: string
    var terminated: bool

    constructor (nodeId: string)
      ensures this.nodeId == nodeId && !terminated
    {
      this.nodeId, terminated := nodeId, false;
    }
  }

  class Manager {
    var nodeNumber: int
    var nodeSessions: map<string, NodeSession>

    /** The counter is the number of registered sessions, and each is registered under its own node. */
    ghost predicate Valid()
      reads this
    {
      nodeNumber == |nodeSessions| && forall n :: n in nodeSessions ==> nodeSessions[n].nodeId == n
    }

    constructor ()
      ensures Valid() && nodeSessions == map[]
    {
      nodeNumber, nodeSessions := 0, map[];
    }

    /** AddSession terminates the session it replaces. */
    method AddSession(session: NodeSession)
      requires Valid()
      modifies this, nodeSessions.Values
      ensures Valid() && nodeSessions == old(nodeSessions)[session.nodeId := session]
      ensures session.nodeId in old(nodeSessions) ==> old(nodeSessions)[session.nodeId].terminated
      ensures forall s :: s in old(nodeSessions.Values) && s.nodeId != session.nodeId ==>
                s.terminated == old(s.terminated)
    {
      var node := session.nodeId;
      if node in nodeSessions {
        var oldSession := nodeSessions[node];
        assert oldSession in nodeSessions.Values;
        oldSession.terminated := true;
        MapSizeWithout(nodeSessions, node);
        nodeSessions, nodeNumber := nodeSessions - {node}, nodeNumber - 1;
      }
      MapSizeWith(nodeSessions, node, session);
      nodeSessions, nodeNumber := nodeSessions[node := session], nodeNumber + 1;
    }

    /** DeleteSession leaves a newer session of the node alone. */
    method DeleteSession(session: NodeSession)
      requires Valid()
      modifies this
      ensures Valid()
      ensures nodeSessions == Without(old(nodeSessions), session.nodeId, session)
    {
      var node := session.nodeId;
      if node !in nodeSessions || nodeSessions[node] != session {
        return;
      }
      MapSizeWithout(nodeSessions, node);
      nodeSessions, nodeNumber := nodeSessions - {node}, nodeNumber - 1;
    }
  }

  /** The pools of the dispatcher. */
  class Dispatcher {
    var pools: map<string, MessagePool>

    constructor ()
      ensures pools == map[]
    {
      pools := map[];
    }

    method AddPool(node: string, pool: MessagePool)
      modifies this
      ensures pools == old(pools)[node := pool]
    {
      pools := pools[node := pool];
    }

    method DeletePool(node: string, pool: MessagePool)
      modifies this
      ensures pools == Without(old(pools), node, pool)
    {
      if node in pools && pools[node] == pool {
        pools := pools - {node};
      }
    }

    /** GetNodeMessagePool makes a pool for a node that has none. */
    method GetPool(node: string) returns (pool: MessagePool)
      modifies this
      ensures node in old(pools) ==> pools == old(pools) && pool == pools[node]
      ensures node !in old(pools) ==> pools == old(pools)[node := pool] && fresh(pool)
    {
      if node !in pools {
        var made := new MessagePool();
        pools := pools[node := made];
      }
      return pools[node];
    }
  }

  // ---------------------------------------------------------------- connections, over every run

  /** Where a connection is in its life: HandleConnection makes these calls in this order. */
  datatype Phase = Pooled | Running | PoolDropped | Gone

  /** Connection c has its own session and its own pool, both named c here; other pools are strays
      made for nodes without one. */
  datatype PoolId = Own(c: nat) | Stray

  datatype Hub = Hub(
    node: map<nat, string>,            // the node of each connection so far
    phase: map<nat, Phase>,
    sessions: map<string, nat>,
    nodeNumber: int,
    pools: map<string, PoolId>,
    terminated: set<nat>
  )

  datatype Call =
    | AddPool(c: nat, n: string)
    | AddSession(c: nat)
    | DeletePool(c: nat)
    | DeleteSession(c: nat)
    | GetPool(n: string)

  function Start(): Hub {
    Hub(map[], map[], map[], 0, map[], {})
  }

  predicate In(h: Hub, c: nat, p: Phase) {
    c in h.phase && c in h.node && h.phase[c] == p
  }

  predicate Enabled(h: Hub, call: Call) {
    match call
    case AddPool(c, _) => c !in h.phase && c !in h.node
    case AddSession(c) => In(h, c, Pooled)
    case DeletePool(c) => In(h, c, Running)
    case DeleteSession(c) => In(h, c, PoolDropped)
    case GetPool(_) => true
  }

  function Apply(h: Hub, call: Call): Hub
    requires Enabled(h, call)
  {
    match call
    case AddPool(c, n) => h.(node := h.node[c := n], phase := h.phase[c := Pooled], pools := h.pools[n := Own(c)])
    case AddSession(c) =>
      var n := h.node[c];
      var old_ := if n in h.sessions then {h.sessions[n]} else {};
      h.(sessions := h.sessions[n := c], nodeNumber := h.nodeNumber - |old_| + 1,
         terminated := h.terminated + old_, phase := h.phase[c := Running])
    case DeletePool(c) =>
      var n := h.node[c];
      h.(pools := Without(h.pools, n, Own(c)), phase := h.phase[c := PoolDropped])
    case DeleteSession(c) =>
      var n := h.node[c];
      var mine := n in h.sessions && h.sessions[n] == c;
      h.(sessions := Without(h.sessions, n, c),
         nodeNumber := if mine then h.nodeNumber - 1 else h.nodeNumber,
         phase := h.phase[c := Gone])
    case GetPool(n) => if n in h.pools then h else h.(pools := h.pools[n := Stray])
  }

  function Exec(calls: seq<Call>): Option<Hub> {
    if calls == [] then Some(Start())
    else
      var k := |calls| - 1;
      match Exec(calls[..k])
      case None => None
      case Some(h) => if Enabled(h, calls[k]) then Some(Apply(h, calls[k])) else None
  }

  /** The counter counts the sessions; a registered session is one of its node that has started and not
      gone; and every running connection that is no longer registered has been terminated. */
  ghost predicate BookInv(h: Hub) {
    && h.nodeNumber == |h.sessions|
    && h.node.Keys == h.phase.Keys
    && (forall n :: n in h.sessions ==>
          (In(h, h.sessions[n], Running) || In(h, h.sessions[n], PoolDropped)) && h.node[h.sessions[n]] == n)
    && (forall c :: In(h, c, Running) ==>
          c in h.terminated || (h.node[c] in h.sessions && h.sessions[h.node[c]] == c))
  }

  lemma BookStep(h: Hub, call: Call)
    requires BookInv(h) && Enabled(h, call)
    ensures BookInv(Apply(h, call))
  {
    match call
    case AddPool(c, n) => BookOther(h, call);
    case AddSession(c) => BookAddSession(h, c);
    case DeletePool(c) => BookOther(h, call);
    case DeleteSession(c) => BookDeleteSession(h, c);
    case GetPool(n) => BookOther(h, call);
  }

  lemma BookAddSession(h: Hub, c: nat)
    requires BookInv(h) && Enabled(h, AddSession(c))
    ensures BookInv(Apply(h, AddSession(c)))
  {
    MapSizeWith(h.sessions, h.node[c], c);
    BookAdded(h, Apply(h, AddSession(c)), c);
  }

  /** The session of c takes the place of the one registered for its node, which is terminated. */
  lemma BookAdded(h: Hub, h': Hub, c: nat)
    requires BookInv(h) && In(h, c, Pooled) && h'.nodeNumber == |h'.sessions| && h'.node == h.node
    requires h'.sessions == h.sessions[h.node[c] := c] && h'.phase == h.phase[c := Running]
    requires h.terminated <= h'.terminated
    requires h.node[c] in h.sessions ==> h.sessions[h.node[c]] in h'.terminated
    ensures BookInv(h')
  {
    forall d | In(h', d, Running)
      ensures d in h'.terminated || (h'.node[d] in h'.sessions && h'.sessions[h'.node[d]] == d)
    {
      assert d != c ==> In(h, d, Running);
    }
  }

  lemma BookDeleteSession(h: Hub, c: nat)
    requires BookInv(h) && Enabled(h, DeleteSession(c))
    ensures BookInv(Apply(h, DeleteSession(c)))
  {
    if h.node[c] in h.sessions {
      MapSizeWithout(h.sessions, h.node[c]);
    }
  }

  lemma BookOther(h: Hub, call: Call)
    requires BookInv(h) && Enabled(h, call) && !call.AddSession? && !call.DeleteSession?
    ensures BookInv(Apply(h, call))
  {
    var h' := Apply(h, call);
    assert h'.sessions == h.sessions && h'.terminated == h.terminated && h'.nodeNumber == h.nodeNumber;
    assert forall d :: d in h.node ==> d in h'.node && h'.node[d] == h.node[d];
    assert forall d :: In(h', d, Running) ==> In(h, d, Running);
  }

  /** In every run the counter equals the number of sessions, and no replaced session is left running. */
  lemma {:induction false} BookkeepingOfRuns(calls: seq<Call>)
    ensures Exec(calls).Some? ==> BookInv(Exec(calls).value)
  {
    if calls != [] && Exec(calls).Some? {
      var k := |calls| - 1;
      BookkeepingOfRuns(calls[..k]);
      BookStep(Exec(calls[..k]).value, calls[k]);
    }
  }

  /** No pool of a connection outlives it, and it is the pool of that connection's node. */
  ghost predicate PoolsLive(h: Hub) {
    forall n :: n in h.pools && h.pools[n].Own? ==>
      (In(h, h.pools[n].c, Pooled) || In(h, h.pools[n].c, Running)) && h.node[h.pools[n].c] == n
  }

  /** Only started connections have been terminated, and none that is registered. */
  ghost predicate OnlyReplaced(h: Hub) {
    && (forall c :: c in h.terminated ==> c in h.phase && h.phase[c] != Pooled)
    && (forall n :: n in h.sessions ==> h.sessions[n] !in h.terminated)
  }

  lemma PoolsLiveStep(h: Hub, call: Call)
    requires PoolsLive(h) && Enabled(h, call)
    ensures PoolsLive(Apply(h, call))
  {
    var h' := Apply(h, call);
    forall n | n in h'.pools && h'.pools[n].Own?
      ensures (In(h', h'.pools[n].c, Pooled) || In(h', h'.pools[n].c, Running)) && h'.node[h'.pools[n].c] == n
    {
      if !(call.AddPool? && call.n == n) {
        assert n in h.pools && h.pools[n] == h'.pools[n];
      }
    }
  }

  lemma OnlyReplacedStep(h: Hub, call: Call)
    requires BookInv(h) && OnlyReplaced(h) && Enabled(h, call)
    ensures OnlyReplaced(Apply(h, call))
  {
    if call.AddSession? {
      OnlyReplacedAdd(h, call.c);
    } else {
      var h' := Apply(h, call);
      assert h'.terminated == h.terminated;
      assert forall n :: n in h'.sessions ==> n in h.sessions && h'.sessions[n] == h.sessions[n];
    }
  }

  lemma OnlyReplacedAdd(h: Hub, c: nat)
    requires BookInv(h) && OnlyReplaced(h) && Enabled(h, AddSession(c))
    ensures OnlyReplaced(Apply(h, AddSession(c)))
  {
    var h', n := Apply(h, AddSession(c)), h.node[c];
    assert c !in h.terminated;
    forall k | k in h'.sessions ensures h'.sessions[k] !in h'.terminated {
      if k != n {
        assert h.node[h.sessions[k]] == k;
        assert n in h.sessions ==> h.node[h.sessions[n]] == n;
      }
    }
  }

  /** In every run: pools go with their connections, and a session is terminated only because another has
      taken its place. */
  lemma {:induction false} NothingOutlivesItsConnection(calls: seq<Call>)
    ensures Exec(calls).Some? ==> PoolsLive(Exec(calls).value) && OnlyReplaced(Exec(calls).value)
  {
    if calls != [] && Exec(calls).Some? {
      var k := |calls| - 1;
      BookkeepingOfRuns(calls[..k]);
      NothingOutlivesItsConnection(calls[..k]);
      PoolsLiveStep(Exec(calls[..k]).value, calls[k]);
      OnlyReplacedStep(Exec(calls[..k]).value, calls[k]);
    }
  }

  /** The teardown of a connection never takes away the session or the pool of another. */
  lemma TeardownKeepsOthers(h: Hub, call: Call, c: nat, other: nat)
    requires Enabled(h, call) && (call == DeletePool(c) || call == DeleteSession(c)) && other != c
    ensures forall n :: n in h.sessions && h.sessions[n] == other ==>
              n in Apply(h, call).sessions && Apply(h, call).sessions[n] == other
    ensures forall n :: n in h.pools && h.pools[n] == Own(other) ==>
              n in Apply(h, call).pools && Apply(h, call).pools[n] == Own(other)
  {
  }

  /** The pool of a node changes only when a connection of the node adds its own, when the connection whose pool
      it is drops it, or when there is none and one is asked for, which there then is. */
  lemma PoolsStay(h: Hub, call: Call, n: string)
    requires PoolsLive(h) && Enabled(h, call)
    ensures var h' := Apply(h, call);
            && (call == GetPool(n) ==> n in h'.pools)
            && (n in h.pools && (n !in h'.pools || h'.pools[n] != h.pools[n]) ==>
                  || (call.AddPool? && call.n == n && n in h'.pools && h'.pools[n] == Own(call.c))
                  || (call.DeletePool? && h.node[call.c] == n && h.pools[n] == Own(call.c) && n !in h'.pools))
            && (n !in h.pools && n in h'.pools ==>
                  || (call.AddPool? && call.n == n && h'.pools[n] == Own(call.c))
                  || (call == GetPool(n) && h'.pools[n] == Stray))
  {
  }

  // ---------------------------------------------------------------- session and pool agree

  /** The connection that last added a pool for n. */
  function LastPool(calls: seq<Call>, n: string): Option<nat> {
    if calls == [] then None
    else
      var k := |calls| - 1;
      if calls[k].AddPool? && calls[k].n == n then Some(calls[k].c) else LastPool(calls[..k], n)
  }

  predicate AddsSession(h: Option<Hub>, call: Call, n: string) {
    h.Some? && call.AddSession? && call.c in h.value.node && h.value.node[call.c] == n
  }

  /** The connection of n that last added its session. */
  function LastSession(calls: seq<Call>, n: string): Option<nat> {
    if calls == [] then None
    else
      var k := |calls| - 1;
      if AddsSession(Exec(calls[..k]), calls[k], n) then Some(calls[k].c) else LastSession(calls[..k], n)
  }

  /** A registered session is the last one added for its node; a pool of a connection is the last one
      added, and stays until its connection drops it. */
  ghost predicate Tracked(calls: seq<Call>, h: Hub, n: string) {
    TracksPool(h, n, LastPool(calls, n)) && TracksSession(h, n, LastSession(calls, n))
  }

  lemma LastAfter(calls: seq<Call>, call: Call, n: string)
    ensures LastPool(calls + [call], n) == if call.AddPool? && call.n == n then Some(call.c) else LastPool(calls, n)
    ensures LastSession(calls + [call], n) ==
              if AddsSession(Exec(calls), call, n) then Some(call.c) else LastSession(calls, n)
  {
    assert (calls + [call])[..|calls|] == calls;
  }

  lemma TrackedStep(calls: seq<Call>, h: Hub, call: Call, n: string)
    requires Exec(calls) == Some(h) && Tracked(calls, h, n) && Enabled(h, call)
    ensures Tracked(calls + [call], Apply(h, call), n)
  {
    LastAfter(calls, call, n);
    PoolStep(h, call, n, LastPool(calls, n));
    SessionStep(h, call, n, LastSession(calls, n));
  }

  ghost predicate TracksSession(h: Hub, n: string, last: Option<nat>) {
    n in h.sessions ==> last == Some(h.sessions[n])
  }

  ghost predicate TracksPool(h: Hub, n: string, last: Option<nat>) {
    && (n in h.pools && h.pools[n].Own? ==> last == Some(h.pools[n].c))
    && (last.Some? ==> last.value in h.node && h.node[last.value] == n)
    && (last.Some? && (In(h, last.value, Pooled) || In(h, last.value, Running)) ==>
          n in h.pools && h.pools[n] == Own(last.value))
  }

  lemma SessionStep(h: Hub, call: Call, n: string, last: Option<nat>)
    requires TracksSession(h, n, last) && Enabled(h, call)
    ensures TracksSession(Apply(h, call), n, if AddsSession(Some(h), call, n) then Some(call.c) else last)
  {
    match call
    case AddPool(_, _) =>
    case AddSession(_) =>
    case DeletePool(_) =>
    case DeleteSession(_) =>
    case GetPool(_) =>
  }

  lemma PoolStep(h: Hub, call: Call, n: string, last: Option<nat>)
    requires TracksPool(h, n, last) && Enabled(h, call)
    ensures TracksPool(Apply(h, call), n, if call.AddPool? && call.n == n then Some(call.c) else last)
  {
    match call
    case AddPool(_, _) =>
    case AddSession(_) =>
    case DeletePool(_) =>
    case DeleteSession(_) =>
    case GetPool(_) =>
  }

  lemma {:induction false} TrackedOfRuns(calls: seq<Call>, n: string)
    ensures Exec(calls).Some? ==> Tracked(calls, Exec(calls).value, n)
  {
    if calls != [] && Exec(calls).Some? {
      var k := |calls| - 1;
      TrackedOfRuns(calls[..k], n);
      TrackedStep(calls[..k], Exec(calls[..k]).value, calls[k], n);
      assert calls[..k] + [calls[k]] == calls;
    }
  }

  /** The registered, running session of n sends from the pool that the dispatcher fills. */
  predicate FilledPool(h: Hub, n: string) {
    n in h.sessions && n in h.pools && h.pools[n] == Own(h.sessions[n])
  }

  /** In every run, the registered, running session of a node sends from the pool that is filled exactly
      when the connection that last added its session is the one that last added its pool. */
  lemma FilledPoolIff(calls: seq<Call>, h: Hub, n: string)
    requires Exec(calls) == Some(h) && n in h.sessions && In(h, h.sessions[n], Running)
    ensures FilledPool(h, n) <==> LastPool(calls, n) == LastSession(calls, n)
  {
    TrackedOfRuns(calls, n);
  }

  // ---------------------------------------------------------------- connects that do not overlap

  ghost predicate Connecting(h: Hub, c: nat, n: string) {
    In(h, c, Pooled) && h.node[c] == n
  }

  ghost predicate Quiet(h: Hub, n: string) {
    forall c :: !Connecting(h, c, n)
  }

  /** No connection of n adds its pool while another of n has yet to add its session. */
  ghost predicate SerialRun(calls: seq<Call>, n: string) {
    forall k :: 0 <= k < |calls| && calls[k].AddPool? && calls[k].n == n && Exec(calls[..k]).Some? ==>
      Quiet(Exec(calls[..k]).value, n)
  }

  /** A connect under way is the last to have added a pool; without one, the last is also the last to have
      added a session. */
  ghost predicate SerialInv(calls: seq<Call>, h: Hub, n: string) {
    && (forall c: nat :: Connecting(h, c, n) ==> LastPool(calls, n) == Some(c))
    && (Quiet(h, n) ==> LastPool(calls, n) == LastSession(calls, n))
  }

  lemma SerialStep(calls: seq<Call>, h: Hub, call: Call, n: string)
    requires Exec(calls) == Some(h) && SerialInv(calls, h, n) && Enabled(h, call)
    requires call.AddPool? && call.n == n ==> Quiet(h, n)
    ensures SerialInv(calls + [call], Apply(h, call), n)
  {
    var h' := Apply(h, call);
    assert (calls + [call])[..|calls|] == calls;
    if call.AddPool? && call.n == n {
      assert Connecting(h', call.c, n);
      forall c: nat | Connecting(h', c, n) ensures c == call.c {
        assert !Connecting(h, c, n);
      }
    } else if call.AddSession? && h.node[call.c] == n {
      assert Connecting(h, call.c, n);
      forall c: nat ensures !Connecting(h', c, n) {
        assert Connecting(h', c, n) ==> Connecting(h, c, n);
      }
    } else {
      assert forall c: nat :: Connecting(h', c, n) <==> Connecting(h, c, n);
    }
  }

  lemma {:induction false} SerialOfRuns(calls: seq<Call>, n: string)
    requires SerialRun(calls, n)
    ensures Exec(calls).Some? ==> SerialInv(calls, Exec(calls).value, n)
  {
    if calls != [] && Exec(calls).Some? {
      var k := |calls| - 1;
      assert forall j :: 0 <= j <= k ==> calls[..k][..j] == calls[..j];
      SerialOfRuns(calls[..k], n);
      SerialStep(calls[..k], Exec(calls[..k]).value, calls[k], n);
      assert calls[..k] + [calls[k]] == calls;
    }
  }

  /** So it does, whenever no connect of the node is under way, in every run in which the connects of
      the node do not overlap. */
  lemma PoolsAgreeInSerialRuns(calls: seq<Call>, h: Hub, n: string)
    requires Exec(calls) == Some(h) && SerialRun(calls, n)
    requires Quiet(h, n) && n in h.sessions && In(h, h.sessions[n], Running)
    ensures FilledPool(h, n)
  {
    SerialOfRuns(calls, n);
    FilledPoolIff(calls, h, n);
  }

  // ---------------------------------------------------------------- connects that do

  /** Connections 1 and 2 of one node add their pools, and then the first and the second of these add their
      sessions. */
  function Overlapping(first: nat, second: nat): seq<Call> {
    [AddPool(1, "edge"), AddPool(2, "edge"), AddSession(first), AddSession(second)]
  }

  /** Both have added their pools. */
  function BothPooled(): Hub {
    Hub(map[1 := "edge", 2 := "edge"], map[1 := Pooled, 2 := Pooled], map[], 0, map["edge" := Own(2)], {})
  }

  lemma ExecOne(calls: seq<Call>, h: Hub, call: Call)
    requires Exec(calls) == Some(h) && Enabled(h, call)
    ensures Exec(calls + [call]) == Some(Apply(h, call))
  {
    assert (calls + [call])[..|calls|] == calls;
  }

  lemma BothPooledRun()
    ensures Exec([AddPool(1, "edge"), AddPool(2, "edge")]) == Some(BothPooled())
  {
    var a, b := AddPool(1, "edge"), AddPool(2, "edge");
    var none: seq<Call> := [];
    ExecOne(none, Start(), a);
    ExecOne(none + [a], Apply(Start(), a), b);
    assert none + [a] + [b] == [a, b];
    assert Apply(Apply(Start(), a), b) == BothPooled();
  }

  lemma OverlappingRun(first: nat, second: nat) returns (h: Hub)
    requires (first == 1 && second == 2) || (first == 2 && second == 1)
    ensures Exec(Overlapping(first, second)) == Some(h) && Quiet(h, "edge")
    ensures h.sessions == map["edge" := second] && h.pools == map["edge" := Own(2)]
    ensures In(h, second, Running) && h.terminated == {first}
  {
    var pools := [AddPool(1, "edge"), AddPool(2, "edge")];
    BothPooledRun();
    ExecOne(pools, BothPooled(), AddSession(first));
    h := Apply(BothPooled(), AddSession(first));
    ExecOne(pools + [AddSession(first)], h, AddSession(second));
    h := Apply(h, AddSession(second));
    assert pools + [AddSession(first)] + [AddSession(second)] == Overlapping(first, second);
  }

  /** Overlapping connects can strand a session: it stays registered and running, no connect is under
      way, and the dispatcher fills another pool.  In the other order they do no harm. */
  lemma OverlappingConnectsStrandASession()
    ensures exists h :: Exec(Overlapping(2, 1)) == Some(h) && Quiet(h, "edge") && "edge" in h.sessions &&
              In(h, h.sessions["edge"], Running) && h.sessions["edge"] !in h.terminated && !FilledPool(h, "edge")
    ensures exists h :: Exec(Overlapping(1, 2)) == Some(h) && Quiet(h, "edge") && FilledPool(h, "edge")
  {
    var h := OverlappingRun(2, 1);
    h := OverlappingRun(1, 2);
  }
}
