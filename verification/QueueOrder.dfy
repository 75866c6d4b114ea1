/**
 The sender takes keys in the order in which they came: nothing but the sender's own progress moves a
 waiting key, so no stream of new messages starves one.
 */
module QueueOrder {
  import opened Common
  import opened Messages
  import opened Delivery
  import WQ = WorkQueue

  /** A waiting key moves up by one place when a key is taken, and by no other step of the session. */
  lemma PlaceInLine(s: State, t: Step, i: nat)
    requires Enabled(s, t) && !t.Reconnect? && i < |s.hub.queue.order| && (t.GetKey? ==> i > 0)
    ensures var after, j := Apply(s, t).hub.queue.order, if t.GetKey? then i - 1 else i;
            j < |after| && after[j] == s.hub.queue.order[i]
  {
    match t
    case QueueAdd => WQ.FirstInFirstOut(s.hub.queue, s.hub.enqueuer.key);
    case DoneKey => WQ.FirstInFirstOut(s.hub.queue, s.hub.sender.key);
    case TimeOut => WQ.FirstInFirstOut(s.hub.queue, s.hub.sender.key);
    case DelayOver(k) => WQ.FirstInFirstOut(s.hub.queue, k);
    case GetKey => WQ.FirstInFirstOut(s.hub.queue, s.hub.queue.order[0]);
    case _ => QueueStays(s, t);
  }

  lemma QueueStays(s: State, t: Step)
    requires Enabled(s, t) && !t.QueueAdd? && !t.DoneKey? && !t.TimeOut? && !t.DelayOver? && !t.GetKey? && !t.Reconnect?
    ensures Apply(s, t).hub.queue == s.hub.queue
  {
  }

  /** How many keys are taken. */
  function Gets(trace: seq<Step>): nat {
    if trace == [] then 0 else Gets(trace[..|trace| - 1]) + (if trace[|trace| - 1].GetKey? then 1 else 0)
  }

  /** In every continuation of a session, whatever is enqueued meanwhile: the key with i others before it is
      the one that is taken after i others. */
  lemma {:induction false} TakenInTurn(s: State, trace: seq<Step>, i: nat)
    requires i < |s.hub.queue.order| && Gets(trace) <= i && (forall t :: t in trace ==> !t.Reconnect?)
    requires Follow(s, trace).Some?
    ensures var s', j := Follow(s, trace).value, i - Gets(trace);
            && j < |s'.hub.queue.order| && s'.hub.queue.order[j] == s.hub.queue.order[i]
            && (j == 0 && Enabled(s', GetKey) ==> Apply(s', GetKey).hub.sender == Got(s.hub.queue.order[i]))
  {
    if trace != [] {
      var n := |trace| - 1;
      TakenInTurn(s, trace[..n], i);
      assert trace[n] in trace;
      PlaceInLine(Follow(s, trace[..n]).value, trace[n], i - Gets(trace[..n]));
    }
  }
}
