/**
 Order of versions.  The generation of a stored message counts the forced
 (delete-marked or Response) messages stored for its object in the session so far, itself
 included; two messages of one generation have no forced message stored between them.
 */
module DeliveryOrder {
  import opened Common
  import opened Versions
  import opened Messages
  import opened Delivery
  import opened DeliverySafety

  function Generation(s: State, m: Message): nat {
    if m.id in s.past.generation then s.past.generation[m.id] else 0
  }

  /** b does not fall behind a: a later generation, or the same one and a version at least as new. */
  predicate NotOlder(s: State, a: Message, b: Message) {
    || Generation(s, a) < Generation(s, b)
    || (Generation(s, a) == Generation(s, b) &&
          (Forced(a) || (!Forced(b) && Num(a.version) <= Num(b.version))))
  }

  predicate Same(p: Packet, session: nat, u: Uid) {
    p.session == session && KeyOf(p.msg) == Some(u)
  }

  /** Two transmissions for one object in one session. */
  predicate Alike(p: Packet, q: Packet) {
    p.session == q.session && KeyOf(p.msg) == KeyOf(q.msg)
  }

  // ---------------------------------------------------------------- the invariant

  ghost predicate HistoryInv(s: State) {
    && s.past.generation.Keys <= s.past.issued.Keys
    && (s.hub.enqueuer.Chosen? ==> s.hub.enqueuer.msg.id !in s.past.generation)
    && (forall u :: u in s.hub.store ==>
          s.hub.store[u].id in s.past.generation && Generation(s, s.hub.store[u]) == Count(s, u))
    && (forall i :: 0 <= i < |s.past.sent| ==>
          s.past.sent[i].session <= s.hub.session && s.past.sent[i].msg.id in s.past.generation)
    && (Carries(s.hub.sender) ==> Packet(s.hub.session, s.hub.sender.msg) in s.past.sent)
    && (forall i :: 0 <= i < |s.past.saves| ==> s.past.saves[i] in s.past.sent)
  }

  /** Behind what the store allows next, for one transmitted message. */
  predicate BehindStore(s: State, m: Message, u: Uid) {
    if u in s.hub.store then NotOlder(s, m, s.hub.store[u])
    else
      || Generation(s, m) < Count(s, u)
      || (Generation(s, m) == Count(s, u) && Forced(m))
  }

  /** Nothing transmitted in this session is newer than what the store, or its absence, allows next. */
  ghost predicate BehindStoreInv(s: State) {
    forall i, u :: 0 <= i < |s.past.sent| && Same(s.past.sent[i], s.hub.session, u) ==>
      BehindStore(s, s.past.sent[i].msg, u)
  }

  ghost predicate BehindSenderInv(s: State) {
    Carries(s.hub.sender) ==>
      forall i :: 0 <= i < |s.past.sent| && Same(s.past.sent[i], s.hub.session, s.hub.sender.key) ==>
        NotOlder(s, s.past.sent[i].msg, s.hub.sender.msg)
  }

  ghost predicate SentInv(s: State) {
    forall i, j :: 0 <= i < j < |s.past.sent| && Alike(s.past.sent[i], s.past.sent[j]) ==>
      NotOlder(s, s.past.sent[i].msg, s.past.sent[j].msg)
  }

  ghost predicate SavedInv(s: State) {
    forall i, j :: 0 <= i < j < |s.past.saves| && Alike(s.past.saves[i], s.past.saves[j]) ==>
      NotOlder(s, s.past.saves[i].msg, s.past.saves[j].msg)
  }

  ghost predicate Increasing(xs: seq<nat>) {
    forall i, j :: 0 <= i < j < |xs| ==> xs[i] < xs[j]
  }

  /** The edge persists packets in the order they were sent. */
  ghost predicate FifoInv(s: State) {
    && Increasing(s.past.log) && Increasing(s.net.wire)
    && (forall i, j :: 0 <= i < |s.past.log| && 0 <= j < |s.net.wire| ==> s.past.log[i] < s.net.wire[j])
    && (forall i :: 0 <= i < |s.past.log| ==> s.past.log[i] < |s.past.sent|)
    && (forall j :: 0 <= j < |s.net.wire| ==> s.net.wire[j] < |s.past.sent|)
  }

  ghost predicate OrderInv(s: State) {
    && HistoryInv(s) && BehindStoreInv(s) && BehindSenderInv(s)
    && SentInv(s) && SavedInv(s) && FifoInv(s)
  }

  // ---------------------------------------------------------------- preservation

  predicate Keeps(a: map<nat, nat>, b: map<nat, nat>) {
    forall id :: id in a ==> id in b && b[id] == a[id]
  }

  /** Generations are assigned once. */
  lemma GenerationsKept(s: State, t: Step)
    requires HistoryInv(s) && Enabled(s, t)
    ensures Keeps(s.past.generation, Apply(s, t).past.generation)
  {
    HistoryFrame(s, t);
  }

  lemma HistoryStep(s: State, t: Step)
    requires IdentityInv(s) && HistoryInv(s) && Enabled(s, t)
    ensures HistoryInv(Apply(s, t))
  {
    if t.Load? || t.Retransmit? {
      HistoryTransmit(s, t);
    } else if t.StoreAdd? {
      HistoryStoreAdd(s);
    } else if t.DecideEnqueue? {
      HistoryDecide(s, t);
    } else if t.Save? {
      HistorySave(s, t);
    } else if t.Reconnect? {
      HistoryReconnect(s, t);
    } else {
      Frame(s, t);
      HistoryUntouched(s, Apply(s, t));
    }
  }

  lemma HistoryTransmit(s: State, t: Step)
    requires HistoryInv(s) && Enabled(s, t) && (t.Load? || t.Retransmit?)
    ensures HistoryInv(Apply(s, t))
  {
    var s' := Apply(s, t);
    if |s'.past.sent| > |s.past.sent| {
      assert s'.past.sent[|s.past.sent|] == Packet(s.hub.session, s'.hub.sender.msg);
    }
    assert forall p :: p in s.past.sent ==> p in s'.past.sent;
  }

  lemma HistoryReconnect(s: State, t: Step)
    requires HistoryInv(s) && Enabled(s, t) && t.Reconnect?
    ensures HistoryInv(Apply(s, t))
  {
  }

  lemma HistoryUntouched(s: State, s': State)
    requires HistoryInv(s)
    requires s'.past.generation == s.past.generation && s'.past.issued == s.past.issued && s'.past.sent == s.past.sent
    requires s'.past.forcedCount == s.past.forcedCount && s'.past.saves == s.past.saves
    requires s'.hub.session == s.hub.session && (s'.hub.enqueuer == s.hub.enqueuer || !s'.hub.enqueuer.Chosen?)
    requires forall u :: u in s'.hub.store ==> u in s.hub.store && s'.hub.store[u] == s.hub.store[u]
    requires SameCarried(s, s')
    ensures HistoryInv(s')
  {
    assert forall m :: Generation(s', m) == Generation(s, m);
  }

  lemma HistoryStoreAdd(s: State)
    requires IdentityInv(s) && HistoryInv(s) && Enabled(s, StoreAdd)
    ensures HistoryInv(Apply(s, StoreAdd))
  {
    GenerationsKept(s, StoreAdd);
  }

  lemma HistoryDecide(s: State, t: Step)
    requires IdentityInv(s) && HistoryInv(s) && Enabled(s, t) && t.DecideEnqueue?
    ensures HistoryInv(Apply(s, t))
  {
  }

  lemma HistorySave(s: State, t: Step)
    requires HistoryInv(s) && Enabled(s, t) && t.Save?
    ensures HistoryInv(Apply(s, t))
  {
  }

  lemma BehindStoreStep(s: State, t: Step)
    requires IdentityInv(s) && ChosenInv(s) && AckInv(s)
    requires HistoryInv(s) && BehindStoreInv(s) && BehindSenderInv(s) && Enabled(s, t)
    ensures BehindStoreInv(Apply(s, t))
  {
    if t.StoreAdd? {
      BehindStoreAdd(s);
    } else if t.Unstore? {
      BehindUnstore(s);
    } else if t.Load? || t.Retransmit? {
      BehindTransmit(s, t);
    } else if t.Reconnect? {
      NothingSentYet(s, t);
    } else {
      BehindStoreFrame(s, Apply(s, t));
    }
  }

  lemma BehindStoreFrame(s: State, s': State)
    requires BehindStoreInv(s) && s'.hub.store == s.hub.store
    requires s'.past.sent == s.past.sent && s'.hub.session == s.hub.session
    requires s'.past.generation == s.past.generation && s'.past.forcedCount == s.past.forcedCount
    ensures BehindStoreInv(s')
  {
    forall i, u | 0 <= i < |s'.past.sent| && Same(s'.past.sent[i], s'.hub.session, u)
      ensures BehindStore(s', s'.past.sent[i].msg, u)
    {
      assert BehindStore(s, s.past.sent[i].msg, u);
    }
  }

  lemma NothingSentYet(s: State, t: Step)
    requires HistoryInv(s) && Enabled(s, t) && t.Reconnect?
    ensures BehindStoreInv(Apply(s, t)) && BehindSenderInv(Apply(s, t))
  {
  }

  lemma BehindStoreAdd(s: State)
    requires IdentityInv(s) && ChosenInv(s) && HistoryInv(s) && BehindStoreInv(s) && Enabled(s, StoreAdd)
    ensures BehindStoreInv(Apply(s, StoreAdd))
  {
    GenerationsKept(s, StoreAdd);
    var s' := Apply(s, StoreAdd);
    forall i, u | 0 <= i < |s'.past.sent| && Same(s'.past.sent[i], s'.hub.session, u)
      ensures BehindStore(s', s'.past.sent[i].msg, u)
    {
      assert Generation(s', s'.past.sent[i].msg) == Generation(s, s.past.sent[i].msg);
      assert BehindStore(s, s.past.sent[i].msg, u);
    }
  }

  lemma BehindUnstore(s: State)
    requires IdentityInv(s) && AckInv(s) && HistoryInv(s) && BehindStoreInv(s) && BehindSenderInv(s)
    requires Enabled(s, Unstore)
    ensures BehindStoreInv(Apply(s, Unstore))
  {
    var d :| 0 <= d < |s.past.sent| && s.past.sent[d] == Packet(s.hub.session, s.hub.sender.msg);
    assert BehindStore(s, s.past.sent[d].msg, s.hub.sender.key);
    var s' := Apply(s, Unstore);
    forall i, u | 0 <= i < |s'.past.sent| && Same(s'.past.sent[i], s'.hub.session, u)
      ensures BehindStore(s', s'.past.sent[i].msg, u)
    {
      assert BehindStore(s, s.past.sent[i].msg, u);
    }
  }

  lemma BehindTransmit(s: State, t: Step)
    requires IdentityInv(s) && HistoryInv(s) && BehindStoreInv(s) && Enabled(s, t) && (t.Load? || t.Retransmit?)
    ensures BehindStoreInv(Apply(s, t))
  {
    var s' := Apply(s, t);
    assert s'.hub.store == s.hub.store && s'.past.generation == s.past.generation && s'.hub.session == s.hub.session;
    if t.Retransmit? {
      var d :| 0 <= d < |s.past.sent| && s.past.sent[d] == Packet(s.hub.session, s.hub.sender.msg);
      assert BehindStore(s, s.past.sent[d].msg, s.hub.sender.key);
    }
  }

  lemma BehindSenderStep(s: State, t: Step)
    requires IdentityInv(s) && HistoryInv(s) && BehindStoreInv(s) && BehindSenderInv(s) && Enabled(s, t)
    ensures BehindSenderInv(Apply(s, t))
  {
    if t.Load? || t.Retransmit? {
      BehindSenderTransmit(s, t);
    } else if t.Reconnect? {
      NothingSentYet(s, t);
    } else {
      Frame(s, t);
      GenerationsKept(s, t);
      BehindSenderFrame(s, Apply(s, t));
    }
  }

  lemma BehindSenderFrame(s: State, s': State)
    requires HistoryInv(s) && BehindSenderInv(s) && s'.past.sent == s.past.sent && s'.hub.session == s.hub.session
    requires Keeps(s.past.generation, s'.past.generation)
    requires SameCarried(s, s')
    ensures BehindSenderInv(s')
  {
    if Carries(s'.hub.sender) {
      assert s.hub.sender.msg.id in s.past.generation;
      forall i | 0 <= i < |s'.past.sent| && Same(s'.past.sent[i], s'.hub.session, s'.hub.sender.key)
        ensures NotOlder(s', s'.past.sent[i].msg, s'.hub.sender.msg)
      {
        assert NotOlder(s, s.past.sent[i].msg, s.hub.sender.msg);
      }
    }
  }

  lemma BehindSenderTransmit(s: State, t: Step)
    requires IdentityInv(s) && BehindStoreInv(s) && BehindSenderInv(s)
    requires Enabled(s, t) && (t.Load? || t.Retransmit?)
    ensures BehindSenderInv(Apply(s, t))
  {
    var s' := Apply(s, t);
    if Carries(s'.hub.sender) {
      forall i | 0 <= i < |s'.past.sent| && Same(s'.past.sent[i], s'.hub.session, s'.hub.sender.key)
        ensures NotOlder(s', s'.past.sent[i].msg, s'.hub.sender.msg)
      {
        if i < |s.past.sent| {
          assert s'.past.sent[i] == s.past.sent[i];
          assert BehindStore(s, s.past.sent[i].msg, s.hub.sender.key);
        }
      }
    }
  }

  lemma SentStep(s: State, t: Step)
    requires IdentityInv(s) && HistoryInv(s) && BehindStoreInv(s) && BehindSenderInv(s) && SentInv(s)
    requires Enabled(s, t)
    ensures SentInv(Apply(s, t))
  {
    if t.Load? || t.Retransmit? {
      SentTransmit(s, t);
    } else {
      Frame(s, t);
      GenerationsKept(s, t);
      SentFrame(s, Apply(s, t));
    }
  }

  lemma SentFrame(s: State, s': State)
    requires HistoryInv(s) && SentInv(s) && s'.past.sent == s.past.sent
    requires Keeps(s.past.generation, s'.past.generation)
    ensures SentInv(s')
  {
  }

  lemma SentTransmit(s: State, t: Step)
    requires IdentityInv(s) && HistoryInv(s) && BehindStoreInv(s) && BehindSenderInv(s) && SentInv(s)
    requires Enabled(s, t) && (t.Load? || t.Retransmit?)
    ensures SentInv(Apply(s, t))
  {
    var s' := Apply(s, t);
    forall i, j | 0 <= i < j < |s'.past.sent| && Alike(s'.past.sent[i], s'.past.sent[j])
      ensures NotOlder(s', s'.past.sent[i].msg, s'.past.sent[j].msg)
    {
      assert s'.past.sent[i] == s.past.sent[i];
      if j < |s.past.sent| {
        assert s'.past.sent[j] == s.past.sent[j];
      } else {
        assert Same(s.past.sent[i], s.hub.session, s.hub.sender.key);
      }
    }
  }

  lemma SavedStep(s: State, t: Step)
    requires IdentityInv(s) && HistoryInv(s) && BehindSenderInv(s) && SavedInv(s) && Enabled(s, t)
    ensures SavedInv(Apply(s, t))
  {
    if t.Save? {
      SavedSave(s, t);
    } else {
      HistoryFrame(s, t);
      GenerationsKept(s, t);
      SavedFrame(s, Apply(s, t));
    }
  }

  lemma SavedFrame(s: State, s': State)
    requires HistoryInv(s) && SavedInv(s) && s'.past.saves == s.past.saves
    requires Keeps(s.past.generation, s'.past.generation)
    ensures SavedInv(s')
  {
    forall i, j | 0 <= i < j < |s'.past.saves| && Alike(s'.past.saves[i], s'.past.saves[j])
      ensures NotOlder(s', s'.past.saves[i].msg, s'.past.saves[j].msg)
    {
      assert s.past.saves[i] in s.past.sent && s.past.saves[j] in s.past.sent;
      assert NotOlder(s, s.past.saves[i].msg, s.past.saves[j].msg);
    }
  }

  lemma SavedSave(s: State, t: Step)
    requires IdentityInv(s) && HistoryInv(s) && BehindSenderInv(s) && SavedInv(s) && Enabled(s, t) && t.Save?
    ensures SavedInv(Apply(s, t))
  {
    var s' := Apply(s, t);
    forall i, j | 0 <= i < j < |s'.past.saves| && Alike(s'.past.saves[i], s'.past.saves[j])
      ensures NotOlder(s', s'.past.saves[i].msg, s'.past.saves[j].msg)
    {
      assert s'.past.saves[i] == s.past.saves[i];
      if j == |s.past.saves| {
        var k :| 0 <= k < |s.past.sent| && s.past.sent[k] == s.past.saves[i];
        assert Same(s.past.sent[k], s.hub.session, s.hub.sender.key);
      }
    }
  }

  lemma FifoStep(s: State, t: Step)
    requires FifoInv(s) && Enabled(s, t)
    ensures FifoInv(Apply(s, t))
  {
    if t.EdgePersist? {
      FifoPersist(s);
    } else if t.Load? || t.Retransmit? {
      FifoTransmit(s, t);
    } else {
      HistoryFrame(s, t);
      EdgeFrame(s, t);
      WireShrinks(s, t);
      FifoFrame(s, Apply(s, t));
    }
  }

  lemma WireShrinks(s: State, t: Step)
    requires Enabled(s, t) && !t.Load? && !t.Retransmit?
    ensures exists a, b :: 0 <= a <= b <= |s.net.wire| && Apply(s, t).net.wire == s.net.wire[a..b]
  {
    var n := |s.net.wire|;
    assert s.net.wire == s.net.wire[0..n];
    match t
    case EdgePersist => assert Apply(s, t).net.wire == s.net.wire[1..n];
    case EdgeMiss => assert Apply(s, t).net.wire == s.net.wire[1..n];
    case EdgeFail => assert Apply(s, t).net.wire == s.net.wire[1..n];
    case Reconnect(kept) => assert Apply(s, t).net.wire == s.net.wire[0..kept];
    case _ =>
  }

  lemma FifoFrame(s: State, s': State)
    requires FifoInv(s) && s'.past.sent == s.past.sent && s'.past.log == s.past.log
    requires exists a, b :: 0 <= a <= b <= |s.net.wire| && s'.net.wire == s.net.wire[a..b]
    ensures FifoInv(s')
  {
  }

  lemma FifoTransmit(s: State, t: Step)
    requires FifoInv(s) && Enabled(s, t) && (t.Load? || t.Retransmit?)
    ensures FifoInv(Apply(s, t))
  {
    FifoSend(s, Apply(s, t));
  }

  lemma FifoSend(s: State, s': State)
    requires FifoInv(s) && s'.past.log == s.past.log && |s'.past.sent| >= |s.past.sent|
    requires || s'.net.wire == s.net.wire
             || (s'.net.wire == s.net.wire + [|s.past.sent|] && |s'.past.sent| > |s.past.sent|)
    ensures FifoInv(s')
  {
  }

  lemma FifoPersist(s: State)
    requires FifoInv(s) && Enabled(s, EdgePersist)
    ensures FifoInv(Apply(s, EdgePersist))
  {
  }

  lemma OrderStep(s: State, t: Step)
    requires Inv(s) && OrderInv(s) && Enabled(s, t)
    ensures OrderInv(Apply(s, t))
  {
    HistoryStep(s, t);
    BehindStoreStep(s, t);
    BehindSenderStep(s, t);
    SentStep(s, t);
    SavedStep(s, t);
    FifoStep(s, t);
  }

  lemma {:induction false} OrderOfRuns(trace: seq<Step>)
    ensures Exec(trace).Some? ==> OrderInv(Exec(trace).value)
  {
    if trace != [] && Exec(trace).Some? {
      var n := |trace| - 1;
      InvariantOfRuns(trace[..n]);
      OrderOfRuns(trace[..n]);
      OrderStep(Exec(trace[..n]).value, trace[n]);
    }
  }

  lemma OrderReachable(s: State)
    requires Reachable(s)
    ensures OrderInv(s)
  {
    var trace :| Exec(trace) == Some(s);
    OrderOfRuns(trace);
  }

  // ---------------------------------------------------------------- the theorems

  /** p before q never means a step back: generations do not fall, and within one generation the
      versions of unforced messages do not fall. */
  ghost predicate InOrder(s: State, p: Packet, q: Packet) {
    Alike(p, q) ==>
      && Generation(s, p.msg) <= Generation(s, q.msg)
      && (Generation(s, p.msg) == Generation(s, q.msg) && !Forced(p.msg) ==>
            !Forced(q.msg) && Num(p.msg.version) <= Num(q.msg.version))
  }

  /** On the wire, over all transmissions of every run. */
  lemma TransmittedInOrder(s: State, i: nat, j: nat)
    requires Reachable(s) && i < j < |s.past.sent|
    ensures InOrder(s, s.past.sent[i], s.past.sent[j])
  {
    OrderReachable(s);
  }

  /** At the edge: the log, followed by what is still on the wire, is in order. */
  lemma PersistedInOrder(s: State, i: nat, j: nat)
    requires Reachable(s) && i < j < |s.past.log + s.net.wire|
    ensures (s.past.log + s.net.wire)[i] < (s.past.log + s.net.wire)[j] < |s.past.sent|
    ensures InOrder(s, s.past.sent[(s.past.log + s.net.wire)[i]], s.past.sent[(s.past.log + s.net.wire)[j]])
  {
    OrderReachable(s);
    InvariantReachable(s);
  }

  /** In the records: the versions one session writes are in order. */
  lemma RecordedInOrder(s: State, i: nat, j: nat)
    requires Reachable(s) && i < j < |s.past.saves|
    ensures InOrder(s, s.past.saves[i], s.past.saves[j])
  {
    OrderReachable(s);
  }

  /** In the store: an unforced message only ever replaces a strictly older version. */
  lemma StoredInOrder(s: State, t: Step, u: Uid)
    requires Reachable(s) && Enabled(s, t) && u in s.hub.store && u in Apply(s, t).hub.store
    requires Apply(s, t).hub.store[u] != s.hub.store[u] && !Forced(Apply(s, t).hub.store[u])
    ensures Num(s.hub.store[u].version) < Num(Apply(s, t).hub.store[u].version)
    ensures Generation(Apply(s, t), Apply(s, t).hub.store[u]) == Generation(s, s.hub.store[u])
  {
    InvariantReachable(s);
    OrderReachable(s);
    Frame(s, t);
    if t.StoreAdd? {
      StoreAddInOrder(s, u);
    }
  }

  lemma StoreAddInOrder(s: State, u: Uid)
    requires IdentityInv(s) && ChosenInv(s) && HistoryInv(s) && Enabled(s, StoreAdd)
    requires u in s.hub.store && KeyOf(s.hub.enqueuer.msg) == Some(u) && !Forced(s.hub.enqueuer.msg)
    ensures Num(s.hub.store[u].version) < Num(s.hub.enqueuer.msg.version)
    ensures Generation(Apply(s, StoreAdd), s.hub.enqueuer.msg) == Generation(s, s.hub.store[u])
  {
  }
}
