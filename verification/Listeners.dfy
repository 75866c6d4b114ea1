/**
 Watch listeners of the dynamic controller: indexed by node and by resource, and brought in
 line with the watches an edge node reports.
 */
module Listeners {
  type Id = string
  type Node = string
  type Resource = string

  datatype Listener = Listener(id: Id, node: Node, resource: Resource)
  type Index = map<string, map<Id, Listener>>

  // ---------------------------------------------------------------- one index

  function AddTo(index: Index, key: string, l: Listener): Index {
    if key in index then index[key := index[key][l.id := l]] else index[key := map[l.id := l]]
  }

  function RemoveFrom(index: Index, key: string, id: Id): Index {
    if key !in index then index
    else if index[key] - {id} == map[] then index - {key}
    else index[key := index[key] - {id}]
  }

  predicate Holds(index: Index, key: string, l: Listener) {
    key in index && l.id in index[key] && index[key][l.id] == l
  }

  function Ids(index: Index, key: string): set<Id> {
    if key in index then index[key].Keys else {}
  }

  /** No inner map is empty, and inner keys are listener IDs. */
  ghost predicate Tidy(index: Index) {
    forall k :: k in index ==> index[k] != map[] && forall id :: id in index[k] ==> index[k][id].id == id
  }

  lemma AddToHolds(index: Index, key: string, l: Listener)
    requires Tidy(index)
    ensures Tidy(AddTo(index, key, l)) && Ids(AddTo(index, key, l), key) == Ids(index, key) + {l.id}
    ensures forall k, x :: Holds(AddTo(index, key, l), k, x) <==>
              (k == key && x == l) || (Holds(index, k, x) && !(k == key && x.id == l.id))
    ensures forall k :: k != key ==> Ids(AddTo(index, key, l), k) == Ids(index, k)
  {
    var after := AddTo(index, key, l);
    assert l.id in after[key];
  }

  lemma RemoveFromHolds(index: Index, key: string, id: Id)
    requires Tidy(index)
    ensures Tidy(RemoveFrom(index, key, id)) && Ids(RemoveFrom(index, key, id), key) == Ids(index, key) - {id}
    ensures forall k, x :: Holds(RemoveFrom(index, key, id), k, x) <==> Holds(index, k, x) && !(k == key && x.id == id)
    ensures forall k :: k != key ==> Ids(RemoveFrom(index, key, id), k) == Ids(index, k)
  {
    if key in index && index[key] - {id} == map[] {
      assert index[key].Keys <= {id} + (index[key] - {id}).Keys;
    }
  }

  // ---------------------------------------------------------------- both indexes

  /** The two indexes describe the same listeners, each filed under its own node and resource. */
  ghost predicate Agree(byNode: Index, byResource: Index) {
    && Tidy(byNode) && Tidy(byResource)
    && (forall k, l :: Holds(byNode, k, l) ==> k == l.node)
    && (forall k, l :: Holds(byResource, k, l) ==> k == l.resource)
    && (forall l: Listener :: Holds(byNode, l.node, l) <==> Holds(byResource, l.resource, l))
  }

  /** A listener with this ID is on the same node exactly when it is for the same resource. */
  ghost predicate Settled(byNode: Index, l: Listener) {
    forall x: Listener :: Holds(byNode, x.node, x) && x.id == l.id ==> (x.node == l.node <==> x.resource == l.resource)
  }

  /** Adding keeps the indexes in agreement exactly when no listener shares the ID and only one of node
      and resource. */
  lemma AddAgreesIff(byNode: Index, byResource: Index, l: Listener)
    requires Agree(byNode, byResource)
    ensures Agree(AddTo(byNode, l.node, l), AddTo(byResource, l.resource, l)) <==> Settled(byNode, l)
  {
    AddToHolds(byNode, l.node, l);
    AddToHolds(byResource, l.resource, l);
    var n, r := AddTo(byNode, l.node, l), AddTo(byResource, l.resource, l);
    if !Settled(byNode, l) {
      var x: Listener :| Holds(byNode, x.node, x) && x.id == l.id && !(x.node == l.node <==> x.resource == l.resource);
      assert Holds(byResource, x.resource, x);
      assert Holds(n, x.node, x) <==> !Holds(r, x.resource, x);
    }
  }

  /** Likewise for deleting. */
  lemma DeleteAgreesIff(byNode: Index, byResource: Index, l: Listener)
    requires Agree(byNode, byResource)
    ensures Agree(RemoveFrom(byNode, l.node, l.id), RemoveFrom(byResource, l.resource, l.id)) <==> Settled(byNode, l)
  {
    RemoveFromHolds(byNode, l.node, l.id);
    RemoveFromHolds(byResource, l.resource, l.id);
    var n, r := RemoveFrom(byNode, l.node, l.id), RemoveFrom(byResource, l.resource, l.id);
    if !Settled(byNode, l) {
      var x: Listener :| Holds(byNode, x.node, x) && x.id == l.id && !(x.node == l.node <==> x.resource == l.resource);
      assert Holds(byResource, x.resource, x);
      assert Holds(n, x.node, x) <==> !Holds(r, x.resource, x);
    }
  }

  /** Listener "id" watches one resource of a node; adding "id" for another resource of that node, or
      deleting it there, leaves the indexes in disagreement. */
  lemma SharedIdClashes()
    ensures exists byNode, byResource, l: Listener ::
              && Agree(byNode, byResource)
              && !Agree(AddTo(byNode, l.node, l), AddTo(byResource, l.resource, l))
              && !Agree(RemoveFrom(byNode, l.node, l.id), RemoveFrom(byResource, l.resource, l.id))
  {
    var x, l := Listener("id", "edge", "pods"), Listener("id", "edge", "nodes");
    var byNode: Index, byResource: Index := map["edge" := map["id" := x]], map["pods" := map["id" := x]];
    assert forall k, y :: Holds(byNode, k, y) <==> k == "edge" && y == x;
    assert forall k, y :: Holds(byResource, k, y) <==> k == "pods" && y == x;
    assert byNode["edge"] != map[] && byResource["pods"] != map[];
    assert Holds(byNode, x.node, x) && !Settled(byNode, l);
    AddAgreesIff(byNode, byResource, l);
    DeleteAgreesIff(byNode, byResource, l);
  }

  // ---------------------------------------------------------------- the handler center

  /** Both indexes hold the same listeners for every node but one. */
  ghost predicate SameElsewhere(a: Index, b: Index, node: Node) {
    forall n :: n != node ==> (n in b <==> n in a) && (n in a ==> b[n] == a[n])
  }

  datatype Home = Home(node: Node, resource: Resource)

  /** A watch the edge reports; resource is what its key parses to. */
  datatype App = App(id: Id, node: Node, resource: Resource)

  function ListenerOf(app: App): Listener {
    Listener(app.id, app.node, app.resource)
  }

  /** The ID of the listener determines its node and resource. */
  predicate AtHome(l: Listener, home: Id -> Home) {
    home(l.id) == Home(l.node, l.resource)
  }

  predicate AppsAtHome(apps: map<Id, App>, home: Id -> Home) {
    forall id :: id in apps ==> AtHome(ListenerOf(apps[id]), home)
  }

  /** The watches are keyed by their own ID and name the node. */
  predicate AppsOf(apps: map<Id, App>, node: Node) {
    forall id :: id in apps ==> apps[id].id == id && apps[id].node == node
  }

  datatype SyncResult = Completed(failed: set<Id>) | Rejected

  /** No inner map is empty, listeners are filed under their own node, and every resource that is listed or
      watched has a handler. */
  ghost predicate WellFiled(byNode: Index, byResource: Index, handlers: set<Resource>) {
    && Tidy(byNode) && Tidy(byResource)
    && (forall k, l :: Holds(byNode, k, l) ==> k == l.node && l.resource in handlers)
    && (forall r :: r in byResource ==> r in handlers)
  }

  lemma AddWellFiled(byNode: Index, byResource: Index, handlers: set<Resource>, l: Listener)
    requires WellFiled(byNode, byResource, handlers)
    ensures WellFiled(AddTo(byNode, l.node, l), AddTo(byResource, l.resource, l), handlers + {l.resource})
  {
    AddToHolds(byNode, l.node, l);
    AddToHolds(byResource, l.resource, l);
  }

  lemma RemoveWellFiled(byNode: Index, byResource: Index, handlers: set<Resource>, l: Listener)
    requires WellFiled(byNode, byResource, handlers)
    ensures WellFiled(RemoveFrom(byNode, l.node, l.id), RemoveFrom(byResource, l.resource, l.id), handlers)
  {
    RemoveFromHolds(byNode, l.node, l.id);
    RemoveFromHolds(byResource, l.resource, l.id);
  }

  /** The indexes agree, and IDs determine node and resource. */
  ghost predicate Settle(byNode: Index, byResource: Index, home: Id -> Home) {
    Agree(byNode, byResource) && forall l: Listener :: Holds(byNode, l.node, l) ==> AtHome(l, home)
  }

  lemma AddSettles(byNode: Index, byResource: Index, home: Id -> Home, l: Listener)
    requires Settle(byNode, byResource, home) && AtHome(l, home)
    ensures Settle(AddTo(byNode, l.node, l), AddTo(byResource, l.resource, l), home)
  {
    AddAgreesIff(byNode, byResource, l);
    AddToHolds(byNode, l.node, l);
  }

  lemma RemoveSettles(byNode: Index, byResource: Index, home: Id -> Home, l: Listener)
    requires Settle(byNode, byResource, home) && AtHome(l, home)
    ensures Settle(RemoveFrom(byNode, l.node, l.id), RemoveFrom(byResource, l.resource, l.id), home)
  {
    DeleteAgreesIff(byNode, byResource, l);
    RemoveFromHolds(byNode, l.node, l.id);
  }

  /** These watches have joined the listeners of the node, and nothing else has changed there. */
  ghost predicate Joined(before: Index, after: Index, node: Node, apps: map<Id, App>, ids: set<Id>) {
    forall l :: Holds(after, node, l) <==>
      Holds(before, node, l) || (l.id in ids && l.id in apps && l == ListenerOf(apps[l.id]))
  }

  /** One more watch of the node joins. */
  lemma JoinsToo(before: Index, after: Index, node: Node, apps: map<Id, App>, ids: set<Id>, id: Id)
    requires Tidy(after) && Joined(before, after, node, apps, ids) && id !in Ids(after, node)
    requires id in apps && apps[id].id == id
    ensures Joined(before, AddTo(after, node, ListenerOf(apps[id])), node, apps, ids + {id})
  {
    AddToHolds(after, node, ListenerOf(apps[id]));
  }

  lemma JoinedIds(before: Index, after: Index, node: Node, apps: map<Id, App>, ids: set<Id>)
    requires Tidy(before) && Tidy(after) && Joined(before, after, node, apps, ids)
    requires ids <= apps.Keys && AppsOf(apps, node)
    ensures Ids(after, node) == Ids(before, node) + ids
  {
    forall id ensures id in Ids(after, node) <==> id in Ids(before, node) + ids {
      assert id in Ids(after, node) ==> Holds(after, node, after[node][id]);
      assert id in Ids(before, node) ==> Holds(before, node, before[node][id]);
      assert id in ids ==> Holds(after, node, ListenerOf(apps[id]));
    }
  }

  lemma AddedElsewhere(before: Index, after: Index, node: Node, l: Listener)
    requires SameElsewhere(before, after, node)
    ensures SameElsewhere(before, AddTo(after, node, l), node)
  {
  }

  class HandlerCenter {
    var byNode: Index
    var byResource: Index
    var handlers: set<Resource>

    ghost predicate Sound()
      reads this
    {
      WellFiled(byNode, byResource, handlers)
    }

    ghost predicate Valid(home: Id -> Home)
      reads this
    {
      Sound() && Settle(byNode, byResource, home)
    }

    constructor ()
      ensures forall home :: Valid(home)
      ensures byNode == map[] && byResource == map[] && handlers == {}
    {
      byNode, byResource, handlers := map[], map[], {};
    }

    /** AddListener; listOk: the lister of the resource answers.  The handler is made either way. */
    method AddListener(l: Listener, listOk: bool, ghost home: Id -> Home) returns (ok: bool)
      requires Sound()
      modifies this
      ensures Sound() && ok == listOk && handlers == old(handlers) + {l.resource}
      ensures byNode == if ok then AddTo(old(byNode), l.node, l) else old(byNode)
      ensures byResource == if ok then AddTo(old(byResource), l.resource, l) else old(byResource)
      ensures old(Valid(home)) && AtHome(l, home) ==> Valid(home)
    {
      AddWellFiled(byNode, byResource, handlers, l);
      handlers := handlers + {l.resource};
      if !listOk {
        return false;
      }
      if Settle(byNode, byResource, home) && AtHome(l, home) {
        AddSettles(byNode, byResource, home, l);
      }
      byNode := AddTo(byNode, l.node, l);
      byResource := AddTo(byResource, l.resource, l);
      return true;
    }

    /** DeleteListener reaches the index through the handler of the resource, which must exist. */
    method DeleteListener(l: Listener, ghost home: Id -> Home)
      requires Sound() && l.resource in handlers
      modifies this
      ensures Sound() && handlers == old(handlers)
      ensures byNode == RemoveFrom(old(byNode), l.node, l.id)
      ensures byResource == RemoveFrom(old(byResource), l.resource, l.id)
      ensures old(Valid(home)) && AtHome(l, home) ==> Valid(home)
    {
      RemoveWellFiled(byNode, byResource, handlers, l);
      if Settle(byNode, byResource, home) && AtHome(l, home) {
        RemoveSettles(byNode, byResource, home, l);
      }
      byNode := RemoveFrom(byNode, l.node, l.id);
      byResource := RemoveFrom(byResource, l.resource, l.id);
    }

    /** The deletes of ProcessWatchSync. */
    method DeleteMissing(node: Node, apps: map<Id, App>, ghost home: Id -> Home)
      requires Sound()
      modifies this
      ensures Sound() && Ids(byNode, node) == Ids(old(byNode), node) * apps.Keys
      ensures forall l :: Holds(byNode, node, l) <==> Holds(old(byNode), node, l) && l.id in apps
      ensures SameElsewhere(old(byNode), byNode, node)
      ensures old(Valid(home)) ==> Valid(home)
    {
      var inCloud := if node in byNode then byNode[node] else map[];
      ghost var kept := inCloud.Keys * apps.Keys;
      var todo := inCloud.Keys - apps.Keys;
      assert inCloud.Keys == kept + todo;
      while todo != {}
        invariant Sound() && todo <= inCloud.Keys && todo !! kept
        invariant Ids(byNode, node) == kept + todo
        invariant forall l :: Holds(byNode, node, l) <==> Holds(old(byNode), node, l) && l.id in kept + todo
        invariant forall id :: id in todo ==> Holds(byNode, node, inCloud[id]) && inCloud[id].id == id
        invariant SameElsewhere(old(byNode), byNode, node)
        invariant old(Valid(home)) ==> Valid(home)
        decreases todo
      {
        var id :| id in todo;
        WithoutOne(kept, todo, id);
        todo := todo - {id};
        RemoveFromHolds(byNode, node, id);
        DeleteListener(inCloud[id], home);
      }
    }

    /** processWatchApp: permission, then the listener. */
    method ProcessWatchApp(app: App, permitted: bool, listOk: bool, ghost home: Id -> Home) returns (ok: bool)
      requires Sound()
      modifies this
      ensures Sound() && ok == (permitted && listOk)
      ensures byNode == if ok then AddTo(old(byNode), app.node, ListenerOf(app)) else old(byNode)
      ensures byResource == if ok then AddTo(old(byResource), app.resource, ListenerOf(app)) else old(byResource)
      ensures old(Valid(home)) && AtHome(ListenerOf(app), home) ==> Valid(home)
    {
      if !permitted {
        return false;
      }
      ok := AddListener(ListenerOf(app), listOk, home);
    }

    /** The additions of ProcessWatchSync; permitted and listOk are the answers for each watch. */
    method AddNew(node: Node, apps: map<Id, App>, added: set<Id>, authorize: bool, permitted: Id -> bool,
                  listOk: Id -> bool, ghost home: Id -> Home) returns (r: SyncResult)
      requires Sound() && added <= apps.Keys && added !! Ids(byNode, node)
      modifies this
      ensures Sound() && (old(Valid(home)) && AppsAtHome(apps, home) ==> Valid(home))
      ensures AppsOf(apps, node) ==>
                && r.Completed? && r.failed == Failing(added, permitted, listOk)
                && Ids(byNode, node) == Ids(old(byNode), node) + (added - r.failed)
                && Joined(old(byNode), byNode, node, apps, added - r.failed)
                && SameElsewhere(old(byNode), byNode, node)
      ensures authorize ==> SameElsewhere(old(byNode), byNode, node)
      ensures r.Rejected? <==> authorize && exists id :: id in added && apps[id].node != node
    {
      var todo, failed := added, {};
      ghost var done: set<Id> := {};
      while todo != {}
        invariant Sound() && todo <= added && done == added - todo
        invariant failed == Failing(done, permitted, listOk)
        invariant AppsOf(apps, node) ==> Joined(old(byNode), byNode, node, apps, done - failed)
        invariant AppsOf(apps, node) || authorize ==> SameElsewhere(old(byNode), byNode, node)
        invariant authorize ==> forall id :: id in done ==> apps[id].node == node
        invariant old(Valid(home)) && AppsAtHome(apps, home) ==> Valid(home)
        decreases todo
      {
        var id :| id in todo;
        if authorize && apps[id].node != node {
          return Rejected;
        }
        if AppsOf(apps, node) {
          JoinedIds(old(byNode), byNode, node, apps, done - failed);
          JoinsToo(old(byNode), byNode, node, apps, done - failed, id);
        }
        if AppsOf(apps, node) || authorize {
          AddedElsewhere(old(byNode), byNode, node, ListenerOf(apps[id]));
        }
        var ok := ProcessWatchApp(apps[id], permitted(id), listOk(id), home);
        OneMore(added, todo, done, id);
        OneMoreResult(done, id, permitted, listOk);
        if !ok {
          failed := failed + {id};
        }
        todo, done := todo - {id}, done + {id};
      }
      if AppsOf(apps, node) {
        JoinedIds(old(byNode), byNode, node, apps, added - failed);
      }
      return Completed(failed);
    }

    /** ProcessWatchSync: with watches that name the node, exactly the reported ones remain, less the
        failures; the listeners of other nodes are untouched. */
    method ProcessWatchSync(node: Node, apps: map<Id, App>, authorize: bool, permitted: Id -> bool,
                            listOk: Id -> bool, ghost home: Id -> Home) returns (r: SyncResult)
      requires Sound()
      modifies this
      ensures Sound() && (old(Valid(home)) && AppsAtHome(apps, home) ==> Valid(home))
      ensures AppsOf(apps, node) ==>
                && r.Completed? && Ids(byNode, node) == apps.Keys - r.failed
                && r.failed == Failing(apps.Keys - Ids(old(byNode), node), permitted, listOk)
                && (forall l :: Holds(byNode, node, l) <==>
                      if l.id in Ids(old(byNode), node) then Holds(old(byNode), node, l) && l.id in apps
                      else l.id in apps.Keys - r.failed && l == ListenerOf(apps[l.id]))
                && SameElsewhere(old(byNode), byNode, node)
      ensures authorize ==> SameElsewhere(old(byNode), byNode, node)
      ensures r.Rejected? <==>
                authorize && exists id :: id in apps && id !in Ids(old(byNode), node) && apps[id].node != node
    {
      var added := apps.Keys - Ids(byNode, node);
      DeleteMissing(node, apps, home);
      r := AddNew(node, apps, added, authorize, permitted, listOk, home);
    }
  }

  lemma WithoutOne(kept: set<Id>, todo: set<Id>, id: Id)
    requires id in todo && todo !! kept
    ensures (kept + todo) - {id} == kept + (todo - {id})
  {
  }

  lemma OneMore(all: set<Id>, todo: set<Id>, done: set<Id>, id: Id)
    requires id in todo && todo <= all && done == all - todo
    ensures done + {id} == all - (todo - {id}) && id !in done
  {
  }

  lemma OneMoreResult(done: set<Id>, id: Id, permitted: Id -> bool, listOk: Id -> bool)
    requires id !in done
    ensures var failed, ok := Failing(done, permitted, listOk), permitted(id) && listOk(id);
            var failed' := if ok then failed else failed + {id};
            && Failing(done + {id}, permitted, listOk) == failed'
            && (done + {id}) - failed' == (done - failed) + (if ok then {id} else {})
  {
  }

  function Failing(ids: set<Id>, permitted: Id -> bool, listOk: Id -> bool): set<Id> {
    set id | id in ids && !(permitted(id) && listOk(id))
  }
}
