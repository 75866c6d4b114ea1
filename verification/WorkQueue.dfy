/**
 The client-go work queue that CloudHub keeps per edge node: an ordered list of
 keys, the set of keys that need work (dirty), the set being worked on
 (processing) and the keys waiting out a rate-limit delay.
 */
module WorkQueue {
  import opened Common

  type Key = string

  datatype Queue = Queue(order: seq<Key>, dirty: set<Key>, processing: set<Key>, delayed: set<Key>)
  {
    /** The order lists, once each, the keys that are dirty and not being processed. */
    ghost predicate Valid() {
      && Distinct(order)
      && (forall k :: k in order <==> k in dirty && k !in processing)
    }
  }

  function Empty(): Queue {
    Queue([], {}, {}, {})
  }

  function Add(q: Queue, k: Key): Queue {
    if k in q.dirty then q
    else if k in q.processing then q.(dirty := q.dirty + {k})
    else q.(dirty := q.dirty + {k}, order := q.order + [k])
  }

  function Get(q: Queue): Queue
    requires q.order != []
  {
    q.(order := q.order[1..],
       processing := q.processing + {q.order[0]},
       dirty := q.dirty - {q.order[0]})
  }

  function Done(q: Queue, k: Key): Queue {
    var p := q.(processing := q.processing - {k});
    if k in q.dirty then p.(order := q.order + [k]) else p
  }

  function AddRateLimited(q: Queue, k: Key): Queue {
    q.(delayed := q.delayed + {k})
  }

  /** The rate-limit delay of a key has passed. */
  function Fire(q: Queue, k: Key): Queue {
    Add(q.(delayed := q.delayed - {k}), k)
  }

  lemma AddValid(q: Queue, k: Key)
    requires q.Valid()
    ensures Add(q, k).Valid() && Add(q, k).dirty == q.dirty + {k}
    ensures Add(q, k).processing == q.processing && Add(q, k).delayed == q.delayed
  {
    var r := Add(q, k);
    assert r.order == q.order || r.order == q.order + [k];
    forall x ensures x in r.order <==> x in r.dirty && x !in r.processing {
      assert x in q.order + [k] <==> x in q.order || x == k;
    }
  }

  lemma GetValid(q: Queue)
    requires q.Valid() && q.order != []
    ensures Get(q).Valid() && q.order[0] in q.dirty && q.order[0] !in q.processing
  {
    var r, h := Get(q), q.order[0];
    assert h in q.order;
    assert q.order == [h] + r.order;
    forall x ensures x in r.order <==> x in r.dirty && x !in r.processing {
      assert x in q.order <==> x == h || x in r.order;
    }
  }

  lemma DoneValid(q: Queue, k: Key)
    requires q.Valid() && k in q.processing
    ensures Done(q, k).Valid()
  {
    var r := Done(q, k);
    assert r.order == q.order || r.order == q.order + [k];
    forall x ensures x in r.order <==> x in r.dirty && x !in r.processing {
      assert x in q.order + [k] <==> x in q.order || x == k;
    }
  }

  lemma FireValid(q: Queue, k: Key)
    requires q.Valid()
    ensures Fire(q, k).Valid() && Fire(q, k).dirty == q.dirty + {k}
    ensures Fire(q, k).processing == q.processing && Fire(q, k).delayed == q.delayed - {k}
  {
    AddValid(q.(delayed := q.delayed - {k}), k);
  }

  /** First in, first out: a key that starts to wait goes to the end, and only the head is ever taken. */
  lemma FirstInFirstOut(q: Queue, k: Key)
    ensures Add(q, k).order == q.order || Add(q, k).order == q.order + [k]
    ensures Done(q, k).order == q.order || Done(q, k).order == q.order + [k]
    ensures Fire(q, k).order == q.order || Fire(q, k).order == q.order + [k]
    ensures AddRateLimited(q, k).order == q.order
    ensures q.order != [] ==> q.order == [q.order[0]] + Get(q).order
  {
  }
}
