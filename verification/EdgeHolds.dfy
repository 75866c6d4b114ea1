/**
 What the edge holds.  In every run without forced messages and late saves for an object, the edge still
 holds what the record says, or something newer, and nothing that is on its way to it is older; after a
 reconcile pass it holds the version of the object.
 */
module EdgeHolds {
  import opened Common
  import opened Versions
  import opened Messages
  import opened Delivery
  import opened DeliverySafety
  import opened DeliveryOrder
  import opened DeliveryRecords
  import opened Reconcile
  import opened Underway
  import opened Convergence
  import opened ConvergenceResults

  // ---------------------------------------------------------------- the invariant

  /** From the i-th transmission on, nothing older than n was sent for u. */
  ghost predicate Since(s: State, u: Uid, i: int, n: nat) {
    forall j :: 0 <= i <= j < |s.past.sent| && For(s.past.sent[j].msg, u) ==> n <= Num(s.past.sent[j].msg.version)
  }

  /** Since m was first sent, nothing older was sent for u. */
  ghost predicate NothingOlder(s: State, u: Uid, m: Message) {
    forall i :: 0 <= i < |s.past.sent| && s.past.sent[i].msg == m ==> Since(s, u, i, Num(m.version))
  }

  ghost predicate NeverSent(s: State, m: Message) {
    forall i :: 0 <= i < |s.past.sent| ==> s.past.sent[i].msg != m
  }

  /** The edge has persisted a packet for u since whose transmission nothing older than n was sent. */
  ghost predicate Floor(s: State, u: Uid, n: nat) {
    exists k :: k in s.past.log && k < |s.past.sent| && For(s.past.sent[k].msg, u) && Since(s, u, k, n)
  }

  ghost predicate HoldsInv(s: State, u: Uid) {
    && (Recorded(s, u) > 0 ==> Floor(s, u, Recorded(s, u)))
    && (u in s.hub.store ==> NothingOlder(s, u, s.hub.store[u]))
    && (CarriesFor(s, u) ==>
          && NothingOlder(s, u, s.hub.sender.msg)
          && (u in s.hub.store && s.hub.store[u] != s.hub.sender.msg ==> NeverSent(s, s.hub.store[u])))
  }

  // ---------------------------------------------------------------- preservation

  lemma HoldsStep(s: State, t: Step, u: Uid)
    requires Inv(s) && Ahead(s, u) && HoldsInv(s, u) && Enabled(s, t) && Quiet(t, u)
    ensures HoldsInv(Apply(s, t), u)
  {
    if t.DecideEnqueue? {
      HoldsDecide(s, t, u);
    } else if t.StoreAdd? {
      HoldsStoreAdd(s, u);
    } else if t.Load? || t.Retransmit? {
      HoldsTransmit(s, t, u);
    } else if t.Save? {
      HoldsSave(s, t, u);
    } else if t.EdgePersist? || t.Unstore? || t.LateSave? || t.Reconnect? {
      HoldsElsewhere(s, t, u);
    } else {
      Frame(s, t);
      HoldsFrame(s, Apply(s, t), u);
    }
  }

  lemma HoldsFrame(s: State, s': State, u: Uid)
    requires HoldsInv(s, u) && s'.past.sent == s.past.sent && s.past.log <= s'.past.log
    requires Recorded(s', u) == Recorded(s, u) || Recorded(s', u) == 0
    requires u in s'.hub.store ==> u in s.hub.store && s'.hub.store[u] == s.hub.store[u]
    requires SameCarried(s, s')
    ensures HoldsInv(s', u)
  {
    if Recorded(s', u) > 0 {
      var k :| k in s.past.log && k < |s.past.sent| && For(s.past.sent[k].msg, u) && Since(s, u, k, Recorded(s, u));
      assert k in s'.past.log && Since(s', u, k, Recorded(s', u));
    }
    assert forall i, n: nat :: Since(s, u, i, n) ==> Since(s', u, i, n);
  }

  lemma HoldsElsewhere(s: State, t: Step, u: Uid)
    requires HoldsInv(s, u) && Enabled(s, t) && Quiet(t, u)
    requires t.EdgePersist? || t.Unstore? || t.LateSave? || t.Reconnect?
    ensures HoldsInv(Apply(s, t), u)
  {
    HoldsFrame(s, Apply(s, t), u);
  }

  lemma HoldsDecide(s: State, t: Step, u: Uid)
    requires HoldsInv(s, u) && Enabled(s, t) && t.DecideEnqueue?
    ensures HoldsInv(Apply(s, t), u)
  {
    ZeroIsNumeral();
    HoldsFrame(s, Apply(s, t), u);
  }

  lemma HoldsStoreAdd(s: State, u: Uid)
    requires IdentityInv(s) && ChosenInv(s) && HoldsInv(s, u) && Enabled(s, StoreAdd)
    ensures HoldsInv(Apply(s, StoreAdd), u)
  {
    var s' := Apply(s, StoreAdd);
    if KeyOf(s.hub.enqueuer.msg) == Some(u) {
      assert NeverSent(s', s.hub.enqueuer.msg);
      HoldsFrame(s, s'.(hub := s'.hub.(store := s.hub.store)), u);
    } else {
      HoldsFrame(s, s', u);
    }
  }

  /** A transmission that is not older keeps the bound. */
  lemma SinceGrows(s: State, s': State, p: Packet, u: Uid, i: int, n: nat)
    requires Since(s, u, i, n) && s'.past.sent == s.past.sent + [p]
    requires For(p.msg, u) ==> n <= Num(p.msg.version)
    ensures Since(s', u, i, n)
  {
  }

  lemma FloorGrows(s: State, s': State, p: Packet, u: Uid, n: nat)
    requires Floor(s, u, n) && s'.past.sent == s.past.sent + [p] && s'.past.log == s.past.log
    requires For(p.msg, u) ==> n <= Num(p.msg.version)
    ensures Floor(s', u, n)
  {
    var k :| k in s.past.log && k < |s.past.sent| && For(s.past.sent[k].msg, u) && Since(s, u, k, n);
    SinceGrows(s, s', p, u, k, n);
    assert s'.past.sent[k] == s.past.sent[k];
  }

  lemma NothingOlderGrows(s: State, s': State, p: Packet, u: Uid, m: Message)
    requires NothingOlder(s, u, m) && s'.past.sent == s.past.sent + [p]
    requires For(p.msg, u) ==> p.msg == m || NeverSent(s, m)
    ensures NothingOlder(s', u, m)
  {
    forall i | 0 <= i < |s'.past.sent| && s'.past.sent[i].msg == m ensures Since(s', u, i, Num(m.version)) {
      if i < |s.past.sent| {
        assert s.past.sent[i].msg == m;
        SinceGrows(s, s', p, u, i, Num(m.version));
      }
    }
  }

  lemma HoldsTransmit(s: State, t: Step, u: Uid)
    requires IdentityInv(s) && Ahead(s, u) && HoldsInv(s, u) && Enabled(s, t) && (t.Load? || t.Retransmit?)
    ensures HoldsInv(Apply(s, t), u)
  {
    var s' := Apply(s, t);
    if Carries(s'.hub.sender) {
      HoldsSend(s, s', Packet(s.hub.session, s'.hub.sender.msg), u);
    } else {
      HoldsFrame(s, s', u);
    }
  }

  /** The sender sends what it carries, or has just loaded. */
  lemma HoldsSend(s: State, s': State, p: Packet, u: Uid)
    requires IdentityInv(s) && Ahead(s, u) && HoldsInv(s, u)
    requires s'.past.sent == s.past.sent + [p] && s'.past.log == s.past.log
    requires s'.hub.store == s.hub.store && s'.hub.records == s.hub.records
    requires Carries(s'.hub.sender) && p.msg == s'.hub.sender.msg && KeyOf(p.msg) == Some(s'.hub.sender.key)
    requires || (Carries(s.hub.sender) && s.hub.sender.key == s'.hub.sender.key && s.hub.sender.msg == p.msg)
             || (s'.hub.sender.key in s.hub.store && s.hub.store[s'.hub.sender.key] == p.msg)
    ensures HoldsInv(s', u)
  {
    if Recorded(s, u) > 0 {
      FloorGrows(s, s', p, u, Recorded(s, u));
    }
    if u in s.hub.store {
      NothingOlderGrows(s, s', p, u, s.hub.store[u]);
    }
    if CarriesFor(s', u) {
      NothingOlderGrows(s, s', p, u, p.msg);
    }
  }

  /** The edge holds what it has acknowledged. */
  lemma AckedIsFloor(s: State, u: Uid)
    requires IdentityInv(s) && AckInv(s) && AcksPersistedInv(s) && s.hub.sender.Saving? && s.hub.sender.key == u
    requires NothingOlder(s, u, s.hub.sender.msg)
    ensures Floor(s, u, Num(s.hub.sender.msg.version))
  {
    var m := s.hub.sender.msg;
    assert PersistedId(s, m.id);
    var i :| 0 <= i < |s.past.log| && s.past.log[i] < |s.past.sent| && s.past.sent[s.past.log[i]].msg.id == m.id;
    assert Registered(s, m) && Registered(s, s.past.sent[s.past.log[i]].msg);
    assert Since(s, u, s.past.log[i], Num(m.version));
  }

  lemma HoldsSave(s: State, t: Step, u: Uid)
    requires IdentityInv(s) && AckInv(s) && AcksPersistedInv(s) && HoldsInv(s, u) && Enabled(s, t) && t.Save?
    ensures HoldsInv(Apply(s, t), u)
  {
    if s.hub.sender.key == u {
      AckedIsFloor(s, u);
    }
    HoldsSaved(s, Apply(s, t), u);
  }

  /** The record is what it was, nothing, or what the edge has acknowledged. */
  lemma HoldsSaved(s: State, s': State, u: Uid)
    requires HoldsInv(s, u) && s'.past.sent == s.past.sent && s'.past.log == s.past.log
    requires s'.hub.store == s.hub.store && SameCarried(s, s')
    requires || Recorded(s', u) == Recorded(s, u) || Recorded(s', u) == 0
             || Floor(s, u, Recorded(s', u))
    ensures HoldsInv(s', u)
  {
    if Recorded(s', u) == Recorded(s, u) || Recorded(s', u) == 0 {
      HoldsFrame(s, s', u);
    } else {
      HoldsFrame(s, s'.(hub := s'.hub.(records := s.hub.records)), u);
      assert Floor(s', u, Recorded(s', u));
    }
  }

  lemma {:induction false} HoldsOfRuns(trace: seq<Step>, u: Uid)
    requires QuietFor(trace, u)
    ensures Exec(trace).Some? ==> HoldsInv(Exec(trace).value, u)
  {
    if trace != [] && Exec(trace).Some? {
      var n := |trace| - 1;
      InvariantOfRuns(trace[..n]);
      AheadOfRuns(trace[..n], u);
      HoldsOfRuns(trace[..n], u);
      HoldsStep(Exec(trace[..n]).value, trace[n], u);
    }
  }

  // ---------------------------------------------------------------- the edge holds what the record says

  /** The message for u that was persisted last. */
  function LastFor(sent: seq<Packet>, log: seq<nat>, u: Uid): Option<Message> {
    if log == [] then None
    else
      var n := |log| - 1;
      if log[n] < |sent| && For(sent[log[n]].msg, u) then Some(sent[log[n]].msg) else LastFor(sent, log[..n], u)
  }

  /** It was sent no earlier than any other that was persisted. */
  lemma {:induction false} LastIsLatest(sent: seq<Packet>, log: seq<nat>, u: Uid, k: nat) returns (j: nat)
    requires Increasing(log) && k in log && k < |sent| && For(sent[k].msg, u)
    ensures j in log && k <= j < |sent| && For(sent[j].msg, u) && LastFor(sent, log, u) == Some(sent[j].msg)
  {
    var n := |log| - 1;
    var i :| 0 <= i < |log| && log[i] == k;
    if log[n] < |sent| && For(sent[log[n]].msg, u) {
      j := log[n];
    } else {
      assert log[..n][i] == k;
      j := LastIsLatest(sent, log[..n], u, k);
    }
  }

  function EdgeHas(s: State, u: Uid): Option<Message> {
    LastFor(s.past.sent, s.past.log, u)
  }

  /** The j-th transmission is for u, and on its way to the edge. */
  predicate Coming(s: State, j: nat, u: Uid) {
    j in s.net.wire && j < |s.past.sent| && For(s.past.sent[j].msg, u)
  }

  /** In every run without forced messages and late saves for u, reconnects included: what the edge persisted
      last for u is at least as new as the record, and so is everything for u that is on its way there. */
  lemma EdgeHoldsRecord(trace: seq<Step>, s: State, u: Uid)
    requires QuietFor(trace, u) && Exec(trace) == Some(s) && Recorded(s, u) > 0
    ensures EdgeHas(s, u).Some? && Num(EdgeHas(s, u).value.version) >= Recorded(s, u)
    ensures forall j: nat :: Coming(s, j, u) ==> Num(s.past.sent[j].msg.version) >= Recorded(s, u)
  {
    HoldsOfRuns(trace, u);
    OrderOfRuns(trace);
    var n := Recorded(s, u);
    var k :| k in s.past.log && k < |s.past.sent| && For(s.past.sent[k].msg, u) && Since(s, u, k, n);
    var j := LastIsLatest(s.past.sent, s.past.log, u, k);
  }

  // ---------------------------------------------------------------- after a reconcile pass

  lemma NotAheadStep(s: State, t: Step, u: Uid, found: Lookup)
    requires NotAhead(s, u, found) && Enabled(s, t)
    requires t.DecideEnqueue? && For(t.msg, u) ==> t.msg.version == found.version
    ensures NotAhead(Apply(s, t), u, found)
  {
    HistoryFrame(s, t);
  }

  /** A visit issues nothing for u but its version. */
  lemma VisitIsQuiet(p: Pass, w: Uid, id: nat, cluster: Cluster, u: Uid)
    requires w in p.seen && w in cluster && u in cluster && cluster[u].Found? && cluster[u].uid == u
    requires !cluster[u].deleting && Sent(p, w, id, cluster).Some?
    ensures var t := Sent(p, w, id, cluster).value;
            t.DecideEnqueue? && Quiet(t, u) && (For(t.msg, u) ==> t.msg.version == cluster[u].version)
  {
  }

  /** A pass is a run of the protocol, without forced messages and late saves for an object that exists. */
  lemma {:induction false} PassIsARun(history: seq<Step>, start: State, trace: seq<PassStep>, cluster: Cluster,
                                      p: Pass, u: Uid)
    returns (run: seq<Step>)
    requires Exec(history) == Some(start) && QuietFor(history, u) && PassExec(start, trace, cluster) == Some(p)
    requires CalmPass(trace, u) && u in cluster && NotAhead(start, u, cluster[u]) && !cluster[u].deleting
    ensures Exec(run) == Some(p.s) && QuietFor(run, u) && NotAhead(p.s, u, cluster[u])
  {
    if trace == [] {
      run := history;
    } else {
      var n := |trace| - 1;
      var before := PassExec(start, trace[..n], cluster).value;
      run := PassIsARun(history, start, trace[..n], cluster, before, u);
      assert trace[n] in trace;
      match trace[n]
      case Visit(w, id) =>
        if Sent(before, w, id, cluster).Some? {
          VisitIsQuiet(before, w, id, cluster, u);
          run := OneMore(run, before.s, Sent(before, w, id, cluster).value, cluster[u], u);
        }
      case Protocol(t) => run := OneMore(run, before.s, t, cluster[u], u);
    }
  }

  lemma OneMore(run: seq<Step>, s: State, t: Step, found: Lookup, u: Uid) returns (run': seq<Step>)
    requires Exec(run) == Some(s) && QuietFor(run, u) && Enabled(s, t) && Quiet(t, u) && NotAhead(s, u, found)
    requires t.DecideEnqueue? && For(t.msg, u) ==> t.msg.version == found.version
    ensures Exec(run') == Some(Apply(s, t)) && QuietFor(run', u) && NotAhead(Apply(s, t), u, found)
  {
    FollowOne(Init(), run, s, t);
    NotAheadStep(s, t, u, found);
    run' := run + [t];
  }

  lemma {:induction false} LastWasSent(sent: seq<Packet>, log: seq<nat>, u: Uid)
    requires LastFor(sent, log, u).Some?
    ensures exists j :: 0 <= j < |sent| && sent[j].msg == LastFor(sent, log, u).value && For(sent[j].msg, u)
  {
    var n := |log| - 1;
    if !(log[n] < |sent| && For(sent[log[n]].msg, u)) {
      LastWasSent(sent, log[..n], u);
    }
  }

  /** A message sent for u is not ahead of the object. */
  lemma SentNotAhead(s: State, j: nat, u: Uid, found: Lookup)
    requires Reachable(s) && NotAhead(s, u, found) && j < |s.past.sent| && For(s.past.sent[j].msg, u)
    ensures Canonical(s.past.sent[j].msg.version) && Num(s.past.sent[j].msg.version) <= Num(found.version)
  {
    InvariantReachable(s);
    assert Registered(s, s.past.sent[j].msg);
  }

  /** From any live state, after a run in which saves succeed and no forced message or late save concerns u,
      if nothing issued for u is ahead of the object: after its visit, once u is settled, the edge holds the
      version of the object, and so does everything for u that is on its way there. */
  lemma EdgeHoldsObject(history: seq<Step>, start: State, trace: seq<PassStep>, cluster: Cluster, p: Pass, u: Uid)
    requires Saved(history, start) && QuietFor(history, u) && Through(start, trace, cluster, p, u)
    requires u in start.hub.records && start.hub.records[u] != "" && NotAhead(start, u, cluster[u])
    requires !cluster[u].deleting && cluster[u].version != "0"
    ensures EdgeHas(p.s, u).Some? && EdgeHas(p.s, u).value.version == cluster[u].version
    ensures forall j: nat :: Coming(p.s, j, u) ==> p.s.past.sent[j].msg.version == cluster[u].version
  {
    var s, v := p.s, cluster[u].version;
    RecordEqualsObject(history, start, trace, cluster, p, u);
    var run := PassIsARun(history, start, trace, cluster, p, u);
    TrimmedPositive(v);
    EdgeHoldsRecord(run, s, u);
    LastWasSent(s.past.sent, s.past.log, u);
    var j :| 0 <= j < |s.past.sent| && s.past.sent[j].msg == EdgeHas(s, u).value && For(s.past.sent[j].msg, u);
    SentNotAhead(s, j, u, cluster[u]);
    CanonicalUnique(EdgeHas(s, u).value.version, v);
    forall c: nat | Coming(s, c, u) ensures s.past.sent[c].msg.version == v {
      SentNotAhead(s, c, u, cluster[u]);
      CanonicalUnique(s.past.sent[c].msg.version, v);
    }
  }
}
