/**
 What happens to the record of one object: it never falls unless a session that was replaced saves
 late or a forced message intervenes, and a record whose status was never written keeps out every
 versioned message until a forced one comes.
 */
module DeliveryRecords {
  import opened Common
  import opened Versions
  import opened Messages
  import opened Delivery
  import opened DeliverySafety

  predicate For(m: Message, u: Uid) {
    KeyOf(m) == Some(u)
  }

  /** The step neither issues a forced message for u nor lets a replaced session save one for u. */
  predicate Quiet(t: Step, u: Uid) {
    match t
    case DecideEnqueue(m, _) => For(m, u) ==> !Forced(m)
    case LateSave(m, _) => !For(m, u)
    case _ => true
  }

  // ---------------------------------------------------------------- records never fall

  /** 0 when there is no record, or nothing was written into it. */
  function Recorded(s: State, u: Uid): nat {
    if u in s.hub.records then Num(s.hub.records[u]) else 0
  }

  /** What is chosen, carried and stored for u is unforced and at least as new as the record, and what is
      carried is at most as new as what is stored. */
  ghost predicate Ahead(s: State, u: Uid) {
    && (u in s.hub.store ==> !Forced(s.hub.store[u]) && Recorded(s, u) <= Num(s.hub.store[u].version))
    && (Carries(s.hub.sender) && s.hub.sender.key == u ==>
          && !Forced(s.hub.sender.msg) && Recorded(s, u) <= Num(s.hub.sender.msg.version)
          && u in s.hub.store && Num(s.hub.sender.msg.version) <= Num(s.hub.store[u].version))
    && (s.hub.enqueuer.Chosen? && For(s.hub.enqueuer.msg, u) ==>
          !Forced(s.hub.enqueuer.msg) && Recorded(s, u) <= Num(s.hub.enqueuer.msg.version))
  }

  lemma AheadStep(s: State, t: Step, u: Uid)
    requires IdentityInv(s) && VersionInv(s) && ChosenInv(s) && AckInv(s)
    requires Ahead(s, u) && Enabled(s, t) && Quiet(t, u)
    ensures Ahead(Apply(s, t), u)
  {
    if t.DecideEnqueue? {
      AheadDecide(s, t, u);
    } else if t.StoreAdd? {
      AheadStoreAdd(s, u);
    } else if t.Load? {
      AheadLoad(s, u);
    } else if t.Save? {
      AheadSave(s, t, u);
    } else if t.LateSave? {
      AheadLateSave(s, t, u);
    } else if t.Unstore? {
      AheadUnstore(s, u);
    } else if !t.Reconnect? {
      DataFrame(s, t);
      WorkFrame(s, t);
      AheadFrame(s, Apply(s, t), u);
    }
  }

  lemma AheadFrame(s: State, s': State, u: Uid)
    requires Ahead(s, u) && s'.hub.store == s.hub.store && s'.hub.records == s.hub.records
    requires s'.hub.enqueuer.Chosen? ==> s'.hub.enqueuer == s.hub.enqueuer
    requires SameCarried(s, s')
    ensures Ahead(s', u)
  {
  }

  lemma AheadDecide(s: State, t: Step, u: Uid)
    requires IdentityInv(s) && VersionInv(s) && Ahead(s, u) && Enabled(s, t) && Quiet(t, u) && t.DecideEnqueue?
    ensures Ahead(Apply(s, t), u)
  {
    ZeroIsNumeral();
  }

  lemma AheadStoreAdd(s: State, u: Uid)
    requires IdentityInv(s) && ChosenInv(s) && Ahead(s, u) && Enabled(s, StoreAdd)
    ensures Ahead(Apply(s, StoreAdd), u)
  {
  }

  lemma AheadLoad(s: State, u: Uid)
    requires Ahead(s, u) && Enabled(s, Load)
    ensures Ahead(Apply(s, Load), u)
  {
  }

  lemma AheadSave(s: State, t: Step, u: Uid)
    requires IdentityInv(s) && ChosenInv(s) && Ahead(s, u) && Enabled(s, t) && t.Save?
    ensures Ahead(Apply(s, t), u)
  {
  }

  lemma AheadLateSave(s: State, t: Step, u: Uid)
    requires Ahead(s, u) && Enabled(s, t) && Quiet(t, u) && t.LateSave?
    ensures Ahead(Apply(s, t), u)
  {
  }

  lemma AheadUnstore(s: State, u: Uid)
    requires AckInv(s) && Ahead(s, u) && Enabled(s, Unstore)
    ensures Ahead(Apply(s, Unstore), u)
  {
  }

  lemma {:induction false} AheadOfRuns(trace: seq<Step>, u: Uid)
    requires forall t :: t in trace ==> Quiet(t, u)
    ensures Exec(trace).Some? ==> Ahead(Exec(trace).value, u)
  {
    if trace != [] && Exec(trace).Some? {
      var n := |trace| - 1;
      InvariantOfRuns(trace[..n]);
      AheadOfRuns(trace[..n], u);
      AheadStep(Exec(trace[..n]).value, trace[n], u);
    }
  }

  /** In every run without forced messages and late saves for u, reconnects included, no step lowers
      the record of u or takes it away. */
  lemma RecordNeverFalls(trace: seq<Step>, t: Step, u: Uid)
    requires forall x :: x in trace ==> Quiet(x, u)
    requires Exec(trace).Some? && Enabled(Exec(trace).value, t) && Quiet(t, u) && u in Exec(trace).value.hub.records
    ensures var s, s' := Exec(trace).value, Apply(Exec(trace).value, t);
            u in s'.hub.records && Num(s.hub.records[u]) <= Num(s'.hub.records[u])
  {
    InvariantOfRuns(trace);
    AheadOfRuns(trace, u);
    StepRaises(Exec(trace).value, t, u);
  }

  lemma StepRaises(s: State, t: Step, u: Uid)
    requires IdentityInv(s) && Ahead(s, u) && Enabled(s, t) && Quiet(t, u) && u in s.hub.records
    ensures u in Apply(s, t).hub.records && Num(s.hub.records[u]) <= Num(Apply(s, t).hub.records[u])
  {
    DataFrame(s, t);
    if t.Save? {
      SaveRaises(s, t, u);
    }
  }

  lemma SaveRaises(s: State, t: Step, u: Uid)
    requires IdentityInv(s) && Ahead(s, u) && Enabled(s, t) && t.Save? && u in s.hub.records
    ensures u in Apply(s, t).hub.records && Num(s.hub.records[u]) <= Num(Apply(s, t).hub.records[u])
  {
  }

  // ---------------------------------------------------------------- a status that was never written

  /** The record of u exists without a status, and nothing is under way for u that would write it. */
  ghost predicate Neglected(s: State, u: Uid) {
    && u in s.hub.records && s.hub.records[u] == "" && u !in s.hub.store
    && (s.hub.enqueuer.Chosen? ==> !For(s.hub.enqueuer.msg, u))
    && (Carries(s.hub.sender) ==> s.hub.sender.key != u)
    && (forall m :: m in s.hub.late ==> !For(m, u))
  }

  lemma NeglectedStep(s: State, t: Step, u: Uid)
    requires IdentityInv(s) && Neglected(s, u) && Enabled(s, t) && Quiet(t, u)
    ensures Neglected(Apply(s, t), u)
  {
    if t.Reconnect? {
      assert forall m :: m in Unsaved(s.hub) ==> m == s.hub.sender.msg;
    } else {
      Frame(s, t);
    }
  }

  /** Through every continuation without a forced message for u, the record stays unwritten and every
      versioned message for u is discarded. */
  lemma {:induction false} NeglectedForGood(s: State, trace: seq<Step>, u: Uid, m: Message, api: EnqueueApi)
    requires Reachable(s) && Neglected(s, u) && (forall t :: t in trace ==> Quiet(t, u))
    requires Follow(s, trace).Some? && For(m, u) && Versioned(m)
    ensures var s' := Follow(s, trace).value;
            && Reachable(s') && Neglected(s', u)
            && Decide(m, s'.hub.store, s'.hub.records, api) == Discard
            && RecordsAfterDecide(m, s'.hub.store, s'.hub.records, api) == s'.hub.records
  {
    if trace != [] {
      var n := |trace| - 1;
      NeglectedForGood(s, trace[..n], u, m, api);
      var x := Follow(s, trace[..n]).value;
      InvariantReachable(x);
      NeglectedStep(x, trace[n], u);
      ReachableStep(x, trace[n]);
    }
  }

  /** One failing status update is enough: from the start, a message whose record is created but not
      written leaves the record of its object neglected. */
  lemma FailedStatusNeglects(m: Message)
    requires Issuable(Init(), m) && Versioned(m)
    ensures var t := DecideEnqueue(m, EnqueueApi(true, true, false));
            Enabled(Init(), t) && Reachable(Apply(Init(), t)) && Neglected(Apply(Init(), t), KeyOf(m).value)
  {
    assert Exec([]) == Some(Init());
    ReachableStep(Init(), DecideEnqueue(m, EnqueueApi(true, true, false)));
  }
}
