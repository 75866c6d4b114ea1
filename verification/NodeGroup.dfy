/**
 Node groups: the controller labels the nodes a group selects, takes the label off the ones it
 no longer selects, and reports a sorted status list.
 */
module NodeGroup {
  import opened Common

  type Name = string
  type Labels = map<string, string>
  type Nodes = map<Name, Labels>

  const BELONGING: string := "apps.kubeedge.io/belonging-to"
  const ZONE: string := "topology.kubernetes.io/zone"

  /** matchLabels None is a nil map, which selects nothing. */
  datatype Group = Group(name: string, matchLabels: Option<Labels>, nodes: seq<Name>, topology: bool)

  // ---------------------------------------------------------------- one sync as a function

  predicate Matches(labels: Labels, selector: Labels) {
    forall k :: k in selector ==> k in labels && labels[k] == selector[k]
  }

  /** Which API calls succeed: the list by match labels, the list of present members, the get of each named
      node, the patch of each node, and the eviction of the group's pods from each node. */
  datatype Api = Api(list: bool, members: bool, get: Name -> bool, patch: Name -> bool, evict: Name -> bool)

  ghost predicate ApiOk(api: Api) {
    api.list && api.members && forall n :: api.get(n) && api.patch(n) && api.evict(n)
  }

  /** getNodesSelectedBy: with a failing call the sync goes on with what it found. */
  function Found(nodes: Nodes, g: Group, api: Api): set<Name> {
    set n | n in nodes && ((api.list && g.matchLabels.Some? && Matches(nodes[n], g.matchLabels.value)) ||
                           (n in g.nodes && api.get(n)))
  }

  function Selected(nodes: Nodes, g: Group): set<Name> {
    set n | n in nodes && ((g.matchLabels.Some? && Matches(nodes[n], g.matchLabels.value)) || n in g.nodes)
  }

  predicate Belongs(labels: Labels, group: string) {
    BELONGING in labels && labels[BELONGING] == group
  }

  function Members(nodes: Nodes, group: string): set<Name> {
    set n | n in nodes && Belongs(nodes[n], group)
  }

  predicate OwnedByOther(labels: Labels, group: string) {
    BELONGING in labels && labels[BELONGING] != group
  }

  function Evicted(labels: Labels): Labels {
    labels - {BELONGING, ZONE}
  }

  /** addOrUpdateNodeLabel. */
  function Relabelled(labels: Labels, g: Group): Labels {
    if OwnedByOther(labels, g.name) then labels
    else if Belongs(labels, g.name) then
      if g.topology then labels[ZONE := g.name] else labels - {ZONE}
    else
      var joined := labels[BELONGING := g.name];
      if g.topology then joined[ZONE := g.name] else joined
  }

  /** The label changes of one sync when every API call succeeds. */
  function Synced(nodes: Nodes, g: Group): Nodes {
    map n | n in nodes ::
      if n in Selected(nodes, g) then Relabelled(nodes[n], g)
      else if Belongs(nodes[n], g.name) then Evicted(nodes[n])
      else nodes[n]
  }

  /** The members that the sync no longer finds. */
  function Leaving(nodes: Nodes, g: Group, api: Api): set<Name> {
    Members(nodes, g.name) - Found(nodes, g, api)
  }

  /** The sync stops early and is queued again. */
  ghost predicate Requeues(nodes: Nodes, g: Group, api: Api) {
    !api.members || exists n :: n in Leaving(nodes, g, api) && !(api.patch(n) && api.evict(n))
  }

  /** The labels of one node after a sync, whatever calls fail. */
  ghost function LabelsAfter(nodes: Nodes, g: Group, api: Api, n: Name): Labels
    requires n in nodes
  {
    if !api.members || !api.patch(n) then nodes[n]
    else if n in Leaving(nodes, g, api) then Evicted(nodes[n])
    else if n in Found(nodes, g, api) && !Requeues(nodes, g, api) then Relabelled(nodes[n], g)
    else nodes[n]
  }

  // ---------------------------------------------------------------- status entries

  datatype Ready = NodeReady | NodeNotReady | ReadyUnknown
  datatype Selection = Succeeded | AlreadyOwned | PatchFailed | DoesNotExist
  datatype NodeStatus = NodeStatus(name: Name, selection: Selection, ready: Ready)

  function StatusOf(n: Name, found: set<Name>, nodes: Nodes, g: Group, api: Api, ready: Name -> Ready): NodeStatus {
    if n !in found || n !in nodes then NodeStatus(n, DoesNotExist, ReadyUnknown)
    else if OwnedByOther(nodes[n], g.name) then NodeStatus(n, AlreadyOwned, ready(n))
    else if Relabelled(nodes[n], g) == nodes[n] || api.patch(n) then NodeStatus(n, Succeeded, ready(n))
    else NodeStatus(n, PatchFailed, ready(n))
  }

  function Named(g: Group): set<Name> {
    set n | n in g.nodes
  }

  // ---------------------------------------------------------------- order of names

  predicate Less(a: Name, b: Name) {
    if b == "" then false
    else if a == "" then true
    else a[0] < b[0] || (a[0] == b[0] && Less(a[1..], b[1..]))
  }

  lemma {:induction false} LessTotal(a: Name, b: Name)
    ensures a == b || Less(a, b) || Less(b, a)
    ensures !(Less(a, b) && Less(b, a)) && !(Less(a, b) && a == b)
  {
    if a != "" && b != "" {
      LessTotal(a[1..], b[1..]);
      assert a == [a[0]] + a[1..] && b == [b[0]] + b[1..];
    }
  }

  lemma {:induction false} LessTransitive(a: Name, b: Name, c: Name)
    requires Less(a, b) && Less(b, c)
    ensures Less(a, c)
  {
    if a != "" && b != "" && c != "" && a[0] == b[0] == c[0] {
      LessTransitive(a[1..], b[1..], c[1..]);
    }
  }

  /** Strictly sorted by name, so no name twice. */
  ghost predicate Sorted(l: seq<NodeStatus>) {
    forall i, j :: 0 <= i < j < |l| ==> Less(l[i].name, l[j].name)
  }

  /** sort.Slice by name. */
  function Sort(l: seq<NodeStatus>): seq<NodeStatus> {
    if l == [] then [] else InsertByName(l[|l| - 1], Sort(l[..|l| - 1]))
  }

  function InsertByName(s: NodeStatus, l: seq<NodeStatus>): seq<NodeStatus> {
    if l == [] then [s]
    else if Less(s.name, l[0].name) then [s] + l
    else [l[0]] + InsertByName(s, l[1..])
  }

  lemma {:induction false} InsertKeeps(s: NodeStatus, l: seq<NodeStatus>)
    ensures forall x :: x in InsertByName(s, l) <==> x == s || x in l
  {
    if l != [] && !Less(s.name, l[0].name) {
      InsertKeeps(s, l[1..]);
      assert l == [l[0]] + l[1..];
    }
  }

  lemma {:induction false} InsertSorts(s: NodeStatus, l: seq<NodeStatus>)
    requires Sorted(l) && forall x :: x in l ==> x.name != s.name
    ensures Sorted(InsertByName(s, l))
  {
    if l != [] {
      LessTotal(s.name, l[0].name);
      assert l[0] in l;
      if Less(s.name, l[0].name) {
        forall j | 0 <= j < |l| ensures Less(s.name, l[j].name) {
          if j > 0 { LessTransitive(s.name, l[0].name, l[j].name); }
        }
      } else {
        InsertSorts(s, l[1..]);
        InsertKeeps(s, l[1..]);
        var rest := InsertByName(s, l[1..]);
        forall j | 0 <= j < |rest| ensures Less(l[0].name, rest[j].name) {
          assert rest[j] in rest;
          if rest[j] != s {
            var k :| 0 <= k < |l[1..]| && l[1..][k] == rest[j];
            assert l[k + 1] == rest[j];
          }
        }
      }
    }
  }

  ghost predicate DistinctNames(l: seq<NodeStatus>) {
    forall i, j :: 0 <= i < j < |l| ==> l[i].name != l[j].name
  }

  lemma {:induction false} SortSorts(l: seq<NodeStatus>)
    requires DistinctNames(l)
    ensures Sorted(Sort(l)) && forall x :: x in Sort(l) <==> x in l
  {
    if l != [] {
      var n := |l| - 1;
      SortSorts(l[..n]);
      assert l == l[..n] + [l[n]];
      InsertKeeps(l[n], Sort(l[..n]));
      InsertSorts(l[n], Sort(l[..n]));
    }
  }

  /** A strictly sorted list is determined by its entries: map order cannot show. */
  lemma {:induction false} SortedIsUnique(a: seq<NodeStatus>, b: seq<NodeStatus>)
    requires Sorted(a) && Sorted(b) && forall x :: x in a <==> x in b
    ensures a == b
  {
    assert |b| > 0 ==> b[0] in b;
    if a != [] {
      assert a[0] in b;
      assert b != [] && b[0] in a;
      var i :| 0 <= i < |b| && b[i] == a[0];
      var j :| 0 <= j < |a| && a[j] == b[0];
      LessTotal(a[0].name, b[0].name);
      assert a[0] == b[0];
      forall x ensures x in a[1..] <==> x in b[1..] {
        TailMembers(a, x);
        TailMembers(b, x);
      }
      SortedIsUnique(a[1..], b[1..]);
      assert a == [a[0]] + a[1..] && b == [b[0]] + b[1..];
    }
  }

  lemma TailMembers(l: seq<NodeStatus>, x: NodeStatus)
    requires Sorted(l) && l != []
    ensures x in l[1..] <==> x in l && x != l[0]
  {
    assert l == [l[0]] + l[1..];
    LessTotal(l[0].name, l[0].name);
    if x in l[1..] {
      var i :| 0 <= i < |l[1..]| && l[1..][i] == x;
      assert l[i + 1] == x;
    }
  }

  // ---------------------------------------------------------------- the controller

  class Controller {
    var nodes: Nodes
    var statuses: seq<NodeStatus>      // status.nodeStatuses of the group being synced

    constructor (nodes: Nodes)
      ensures this.nodes == nodes && statuses == []
    {
      this.nodes, statuses := nodes, [];
    }

    /** getNodesByNodeName. */
    method GetNodesByName(names: seq<Name>, api: Api) returns (found: set<Name>)
      ensures found == set n | n in nodes && n in names && api.get(n)
    {
      found := {};
      for i := 0 to |names|
        invariant found == set n | n in nodes && n in names[..i] && api.get(n)
      {
        assert names[..i + 1] == names[..i] + [names[i]];
        if names[i] in nodes && api.get(names[i]) {
          found := found + {names[i]};
        }
      }
      assert names[..|names|] == names;
    }

    /** getNodesSelectedBy. */
    method GetNodesSelectedBy(g: Group, api: Api) returns (found: set<Name>)
      ensures found == Found(nodes, g, api)
    {
      var byLabel := {};
      if api.list && g.matchLabels.Some? {
        byLabel := set n | n in nodes && Matches(nodes[n], g.matchLabels.value);
      }
      var byName := GetNodesByName(g.nodes, api);
      found := byLabel + byName;
    }

    /** evictNodes: every node is tried, and any failure fails the call. */
    method EvictNodes(names: set<Name>, api: Api) returns (ok: bool)
      requires names <= nodes.Keys
      modifies this
      ensures statuses == old(statuses) && nodes.Keys == old(nodes).Keys
      ensures ok <==> forall n :: n in names ==> api.patch(n) && api.evict(n)
      ensures forall n :: n in nodes ==>
                nodes[n] == if n in names && api.patch(n) then Evicted(old(nodes)[n]) else old(nodes)[n]
    {
      ok := true;
      var todo := names;
      while todo != {}
        invariant todo <= names && statuses == old(statuses) && nodes.Keys == old(nodes).Keys
        invariant ok <==> forall n :: n in names - todo ==> api.patch(n) && api.evict(n)
        invariant forall n :: n in nodes ==>
                    nodes[n] == if n in names - todo && api.patch(n) then Evicted(old(nodes)[n]) else old(nodes)[n]
        decreases todo
      {
        var n :| n in todo;
        if api.patch(n) {
          nodes := nodes[n := Evicted(nodes[n])];
        } else {
          ok := false;
        }
        if !api.evict(n) {
          ok := false;
        }
        todo := todo - {n};
      }
    }

    /** addOrUpdateNodeLabel; the reason of a failure goes into the status. */
    method AddOrUpdateNodeLabel(n: Name, g: Group, api: Api) returns (selection: Selection)
      requires n in nodes
      modifies this
      ensures statuses == old(statuses)
      ensures nodes == if api.patch(n) then old(nodes)[n := Relabelled(old(nodes)[n], g)] else old(nodes)
      ensures selection == if OwnedByOther(old(nodes)[n], g.name) then AlreadyOwned
                           else if Relabelled(old(nodes)[n], g) == old(nodes)[n] || api.patch(n) then Succeeded
                           else PatchFailed
    {
      var labels := nodes[n];
      if BELONGING in labels && labels[BELONGING] != g.name {
        assert nodes[n := Relabelled(labels, g)] == nodes;
        return AlreadyOwned;
      }
      var changed := labels;
      if BELONGING in labels {
        changed := if g.topology then labels[ZONE := g.name] else labels - {ZONE};
        if changed == labels {
          assert nodes[n := Relabelled(labels, g)] == nodes;
          return Succeeded;
        }
      } else {
        changed := labels[BELONGING := g.name];
        if g.topology {
          changed := changed[ZONE := g.name];
        }
        assert BELONGING in changed && BELONGING !in labels;
      }
      if !api.patch(n) {
        return PatchFailed;
      }
      nodes := nodes[n := changed];
      return Succeeded;
    }

    /** The labelling loop of syncNodeGroup, in whatever order the nodes come. */
    method LabelNodes(found: set<Name>, g: Group, api: Api, ready: Name -> Ready) returns (list: seq<NodeStatus>)
      requires found <= nodes.Keys
      modifies this
      ensures statuses == old(statuses) && nodes.Keys == old(nodes).Keys
      ensures forall n :: n in nodes ==>
                nodes[n] == if n in found && api.patch(n) then Relabelled(old(nodes)[n], g) else old(nodes)[n]
      ensures Lists(list, found, found, old(nodes), g, api, ready)
    {
      list := [];
      var todo := found;
      while todo != {}
        invariant todo <= found && statuses == old(statuses) && nodes.Keys == old(nodes).Keys
        invariant forall n :: n in nodes ==>
                    nodes[n] == if n in found - todo && api.patch(n) then Relabelled(old(nodes)[n], g)
                                else old(nodes)[n]
        invariant Lists(list, found - todo, found, old(nodes), g, api, ready)
        decreases todo
      {
        var n :| n in todo;
        var selection := AddOrUpdateNodeLabel(n, g, api);
        var status := NodeStatus(n, selection, ready(n));
        assert status == StatusOf(n, found, old(nodes), g, api, ready);
        ListsAppend(list, found - todo, n, found, old(nodes), g, api, ready);
        assert found - (todo - {n}) == (found - todo) + {n};
        list, todo := list + [status], todo - {n};
      }
    }

    /** syncNodeGroup: the label changes, and the sorted list of one status per selected or named node. */
    method SyncNodeGroup(g: Group, api: Api, ready: Name -> Ready) returns (requeue: bool)
      modifies this
      ensures requeue <==> Requeues(old(nodes), g, api)
      ensures nodes.Keys == old(nodes).Keys && forall n :: n in nodes ==> nodes[n] == LabelsAfter(old(nodes), g, api, n)
      ensures requeue ==> statuses == old(statuses)
      ensures !requeue ==> Sorted(statuses)
      ensures !requeue ==>
                var found := Found(old(nodes), g, api);
                Lists(statuses, found + Named(g), found, old(nodes), g, api, ready)
    {
      var found := GetNodesSelectedBy(g, api);
      if !api.members {
        return true;
      }
      var dropped := Members(nodes, g.name) - found;
      var ok := EvictNodes(dropped, api);
      if !ok {
        return true;
      }
      ghost var kept := nodes;
      var list := LabelNodes(found, g, api, ready);
      ListsSameLabels(list, found, found, kept, old(nodes), g, api, ready);
      list := AppendMissing(list, found, old(nodes), g, api, ready);
      SortSorts(list);
      ListsSorted(list, found + Named(g), found, old(nodes), g, api, ready);
      statuses := Sort(list);
      return false;
    }

    /** Named nodes that do not exist get a status too. */
    method AppendMissing(list: seq<NodeStatus>, found: set<Name>, ghost was: Nodes, g: Group, api: Api,
                         ready: Name -> Ready) returns (all: seq<NodeStatus>)
      requires Lists(list, found, found, was, g, api, ready)
      ensures Lists(all, found + Named(g), found, was, g, api, ready)
    {
      all := list;
      var todo := Named(g) - found;
      ghost var done := found;
      while todo != {}
        invariant todo <= Named(g) && todo !! done && done + todo == found + Named(g) && found <= done
        invariant Lists(all, done, found, was, g, api, ready)
        decreases todo
      {
        var n :| n in todo;
        ListsAppend(all, done, n, found, was, g, api, ready);
        all := all + [NodeStatus(n, DoesNotExist, ReadyUnknown)];
        todo, done := todo - {n}, done + {n};
      }
      assert done == found + Named(g);
    }
  }

  /** The list holds the status of each of these nodes, once. */
  ghost predicate Lists(list: seq<NodeStatus>, names: set<Name>, found: set<Name>, nodes: Nodes, g: Group, api: Api,
                        ready: Name -> Ready) {
    && DistinctNames(list)
    && (forall x :: x in list <==> x.name in names && x == StatusOf(x.name, found, nodes, g, api, ready))
  }

  lemma ListsAppend(list: seq<NodeStatus>, names: set<Name>, n: Name, found: set<Name>, nodes: Nodes, g: Group,
                    api: Api, ready: Name -> Ready)
    requires Lists(list, names, found, nodes, g, api, ready) && n !in names
    ensures Lists(list + [StatusOf(n, found, nodes, g, api, ready)], names + {n}, found, nodes, g, api, ready)
  {
    var s := StatusOf(n, found, nodes, g, api, ready);
    forall i | 0 <= i < |list| ensures list[i].name != n {
      assert list[i] in list;
    }
    forall x ensures x in list + [s] <==> x.name in names + {n} && x == StatusOf(x.name, found, nodes, g, api, ready) {
      assert x in list + [s] <==> x in list || x == s;
    }
  }

  /** Statuses depend only on the labels of the found nodes. */
  lemma ListsSameLabels(list: seq<NodeStatus>, names: set<Name>, found: set<Name>, a: Nodes, b: Nodes, g: Group,
                        api: Api, ready: Name -> Ready)
    requires Lists(list, names, found, a, g, api, ready) && a.Keys == b.Keys
    requires forall n :: n in found && n in a ==> a[n] == b[n]
    ensures Lists(list, names, found, b, g, api, ready)
  {
    forall n ensures StatusOf(n, found, a, g, api, ready) == StatusOf(n, found, b, g, api, ready) {}
  }

  lemma ListsSorted(list: seq<NodeStatus>, names: set<Name>, found: set<Name>, nodes: Nodes, g: Group, api: Api,
                    ready: Name -> Ready)
    requires Lists(list, names, found, nodes, g, api, ready) && Sorted(Sort(list))
    requires forall x :: x in Sort(list) <==> x in list
    ensures Lists(Sort(list), names, found, nodes, g, api, ready)
  {
    var l := Sort(list);
    forall i, j | 0 <= i < j < |l| ensures l[i].name != l[j].name {
      LessTotal(l[i].name, l[j].name);
    }
  }

  // ---------------------------------------------------------------- what a sync achieves

  /** With a working API nothing is queued again, and the labels are those of one sync. */
  lemma SyncWithWorkingApi(nodes: Nodes, g: Group, api: Api)
    requires ApiOk(api)
    ensures Found(nodes, g, api) == Selected(nodes, g) && !Requeues(nodes, g, api)
    ensures forall n :: n in nodes ==> LabelsAfter(nodes, g, api, n) == Synced(nodes, g)[n]
  {
    assert Found(nodes, g, api) == Selected(nodes, g);
  }

  /** Afterwards exactly the selected nodes that no other group owns carry the group's label, the labels
      of other groups are as they were, and apart from the two managed labels nothing changes.  A node that is
      not named joins only if it carries all of the group's labels, so none does when the group has no labels,
      and all free ones do when it has an empty set of them. */
  lemma SyncLabels(nodes: Nodes, g: Group, n: Name)
    requires n in nodes
    ensures Belongs(Synced(nodes, g)[n], g.name) <==> n in Selected(nodes, g) && !OwnedByOther(nodes[n], g.name)
    ensures OwnedByOther(nodes[n], g.name) ==> Synced(nodes, g)[n] == nodes[n]
    ensures Synced(nodes, g)[n] - {BELONGING, ZONE} == nodes[n] - {BELONGING, ZONE}
    ensures !OwnedByOther(nodes[n], g.name) ==> !OwnedByOther(Synced(nodes, g)[n], g.name)
    ensures Belongs(Synced(nodes, g)[n], g.name) && n !in g.nodes ==>
              && g.matchLabels != None
              && forall k :: k in g.matchLabels.value ==> k in nodes[n] && nodes[n][k] == g.matchLabels.value[k]
    ensures g.matchLabels == Some(map[]) && !OwnedByOther(nodes[n], g.name) ==> Belongs(Synced(nodes, g)[n], g.name)
  {
  }

  // ---------------------------------------------------------------- repeated syncs

  predicate SelectsByZone(g: Group) {
    g.matchLabels.Some? && ZONE in g.matchLabels.value
  }

  /** Selected by a zone label that the sync itself takes away or replaces. */
  predicate Flips(nodes: Nodes, g: Group, n: Name)
    requires n in nodes
  {
    && n in Selected(nodes, g) && n !in g.nodes && !OwnedByOther(nodes[n], g.name) && SelectsByZone(g)
    && (if g.topology then g.matchLabels.value[ZONE] != g.name else Belongs(nodes[n], g.name))
  }

  predicate SameLabel(a: Labels, b: Labels, k: string) {
    (k in a <==> k in b) && (k in a ==> a[k] == b[k])
  }

  /** Matching depends on the labels the selector names. */
  lemma MatchesElsewhere(a: Labels, b: Labels, selector: Labels)
    requires a - {BELONGING, ZONE} == b - {BELONGING, ZONE}
    requires BELONGING in selector ==> SameLabel(a, b, BELONGING)
    requires ZONE in selector ==> SameLabel(a, b, ZONE)
    ensures Matches(a, selector) <==> Matches(b, selector)
  {
    var a', b' := a - {BELONGING, ZONE}, b - {BELONGING, ZONE};
    forall k | k in selector ensures k in a && a[k] == selector[k] <==> k in b && b[k] == selector[k] {
      if k != BELONGING && k != ZONE {
        assert (k in a' <==> k in a) && (k in b' <==> k in b);
        assert k in a' ==> a'[k] == a[k] && b'[k] == b[k];
      }
    }
  }

  /** A sync leaves selected exactly the nodes that were selected and do not flip. */
  lemma SelectedAfterIff(nodes: Nodes, g: Group, n: Name)
    requires n in nodes
    ensures n in Selected(Synced(nodes, g), g) <==> n in Selected(nodes, g) && !Flips(nodes, g, n)
  {
    SyncLabels(nodes, g, n);
    if n !in g.nodes && g.matchLabels.Some? {
      if n in Selected(nodes, g) {
        StillMatchesIff(nodes, g, n);
      } else {
        NeverMatches(nodes, g, n);
      }
    }
  }

  lemma StillMatchesIff(nodes: Nodes, g: Group, n: Name)
    requires n in nodes && n !in g.nodes && g.matchLabels.Some? && Matches(nodes[n], g.matchLabels.value)
    ensures Matches(Synced(nodes, g)[n], g.matchLabels.value) <==> !Flips(nodes, g, n)
  {
    var selector, after := g.matchLabels.value, Synced(nodes, g)[n];
    SyncLabels(nodes, g, n);
    if ZONE in selector && !OwnedByOther(nodes[n], g.name) {
      if g.topology {
        assert after[ZONE] == g.name;
      } else {
        assert ZONE in after <==> !Belongs(nodes[n], g.name);
      }
    }
    if !Flips(nodes, g, n) {
      MatchesElsewhere(nodes[n], after, selector);
    }
  }

  lemma NeverMatches(nodes: Nodes, g: Group, n: Name)
    requires n in nodes && n !in g.nodes && g.matchLabels.Some? && !Matches(nodes[n], g.matchLabels.value)
    ensures !Matches(Synced(nodes, g)[n], g.matchLabels.value)
  {
    var selector, after := g.matchLabels.value, Synced(nodes, g)[n];
    var k :| k in selector && !(k in nodes[n] && nodes[n][k] == selector[k]);
    assert k in after ==> k in nodes[n] && after[k] == nodes[n][k];
  }

  /** A node that joins with a zone label of its own, while the group manages no zones. */
  predicate StrayZone(nodes: Nodes, g: Group, n: Name)
    requires n in nodes
  {
    n in Selected(nodes, g) && BELONGING !in nodes[n] && ZONE in nodes[n] && !g.topology
  }

  lemma SecondSyncAt(nodes: Nodes, g: Group, n: Name)
    requires n in nodes
    ensures Synced(Synced(nodes, g), g)[n] == Synced(nodes, g)[n] <==> !StrayZone(nodes, g, n) && !Flips(nodes, g, n)
  {
    var once := Synced(nodes, g);
    SyncLabels(nodes, g, n);
    SelectedAfterIff(nodes, g, n);
    if Flips(nodes, g, n) {
      assert BELONGING in once[n] && BELONGING !in Synced(once, g)[n];
    } else if StrayZone(nodes, g, n) {
      assert ZONE in once[n] && ZONE !in Synced(once, g)[n];
    } else if n in Selected(nodes, g) && !OwnedByOther(nodes[n], g.name) {
      if g.topology {
        assert once[n][ZONE := g.name] == once[n];
      } else {
        assert once[n] - {ZONE} == once[n];
      }
    }
  }

  lemma SameSync(once: Nodes, twice: Nodes)
    requires once.Keys == twice.Keys
    ensures twice == once <==> forall n :: n in once ==> twice[n] == once[n]
  {
  }

  /** A second sync changes nothing exactly when no node joined with a stray zone label, and none was
      selected by a zone label that the first sync took away or replaced. */
  lemma SecondSyncIdleIff(nodes: Nodes, g: Group)
    ensures Synced(Synced(nodes, g), g) == Synced(nodes, g) <==>
              forall n :: n in nodes ==> !StrayZone(nodes, g, n) && !Flips(nodes, g, n)
  {
    var once := Synced(nodes, g);
    SameSync(once, Synced(once, g));
    forall n | n in nodes
      ensures Synced(once, g)[n] == once[n] <==> !StrayZone(nodes, g, n) && !Flips(nodes, g, n)
    {
      SecondSyncAt(nodes, g, n);
    }
  }

  /** Selected by a zone label of its own alone, by a group that manages no zones: the node joins, loses
      the zone, and is evicted. */
  predicate PassesThrough(nodes: Nodes, g: Group, n: Name)
    requires n in nodes
  {
    n in Selected(nodes, g) && n !in g.nodes && BELONGING !in nodes[n] && SelectsByZone(g) && !g.topology
  }

  lemma UnsettledOnce(nodes: Nodes, g: Group, n: Name)
    requires n in nodes
    ensures var once := Synced(nodes, g);
            StrayZone(once, g, n) || Flips(once, g, n) <==> PassesThrough(nodes, g, n)
  {
    SyncLabels(nodes, g, n);
    SelectedAfterIff(nodes, g, n);
  }

  /** A third sync changes nothing exactly when no node only passes through the group. */
  lemma ThirdSyncIdleIff(nodes: Nodes, g: Group)
    ensures Synced(Synced(Synced(nodes, g), g), g) == Synced(Synced(nodes, g), g) <==>
              forall n :: n in nodes ==> !PassesThrough(nodes, g, n)
  {
    var once := Synced(nodes, g);
    SecondSyncIdleIff(once, g);
    forall n | n in nodes ensures StrayZone(once, g, n) || Flips(once, g, n) <==> PassesThrough(nodes, g, n) {
      UnsettledOnce(nodes, g, n);
    }
  }

  /** A fourth consecutive sync never changes anything. */
  lemma FourthSyncIsIdle(nodes: Nodes, g: Group)
    ensures var third := Synced(Synced(Synced(nodes, g), g), g); Synced(third, g) == third
  {
    var once := Synced(nodes, g);
    ThirdSyncIdleIff(once, g);
    forall n | n in once ensures !PassesThrough(once, g, n) {
      SyncLabels(nodes, g, n);
      SelectedAfterIff(nodes, g, n);
    }
  }

  /** The status of a node after a second sync is that after the first exactly when it does not flip. */
  lemma StatusStableIff(nodes: Nodes, g: Group, api: Api, ready: Name -> Ready, n: Name)
    requires ApiOk(api) && n in nodes
    ensures var once := Synced(nodes, g);
            (StatusOf(n, Selected(nodes, g), nodes, g, api, ready) ==
             StatusOf(n, Selected(once, g), once, g, api, ready)) <==> !Flips(nodes, g, n)
  {
    SelectedAfterIff(nodes, g, n);
    SyncLabels(nodes, g, n);
  }

  /** A node that joins with a zone of its own: the second sync takes the zone away. */
  lemma StrayZoneExample()
    ensures exists nodes, g :: Synced(Synced(nodes, g), g) != Synced(nodes, g)
  {
    var nodes: Nodes := map["edge" := map[ZONE := "west"]];
    var g := Group("g", None, ["edge"], false);
    assert "edge" in Selected(nodes, g);
    assert StrayZone(nodes, g, "edge");
    SecondSyncIdleIff(nodes, g);
  }

  /** A node that its zone label selects: the third sync evicts it. */
  lemma PassingThroughExample()
    ensures exists nodes, g :: Synced(Synced(Synced(nodes, g), g), g) != Synced(Synced(nodes, g), g)
  {
    var nodes: Nodes := map["edge" := map[ZONE := "west"]];
    var g := Group("g", Some(map[ZONE := "west"]), [], false);
    assert "edge" in Selected(nodes, g);
    assert PassesThrough(nodes, g, "edge");
    ThirdSyncIdleIff(nodes, g);
  }

  // ---------------------------------------------------------------- failing calls evict

  /** A selected member loses the group's label exactly when the failing calls hide it: the list failed or
      its labels do not match, and it is not named or could not be read. */
  lemma SelectedMemberEvictedIff(nodes: Nodes, g: Group, api: Api, n: Name)
    requires n in Members(nodes, g.name) && n in Selected(nodes, g)
    ensures !Belongs(LabelsAfter(nodes, g, api, n), g.name) <==>
              && api.members && api.patch(n)
              && (!api.list || !(g.matchLabels.Some? && Matches(nodes[n], g.matchLabels.value)))
              && (n !in g.nodes || !api.get(n))
  {
  }

  /** A member that the group selects loses its label, although every patch and eviction succeeds. */
  ghost predicate EvictsSelected(nodes: Nodes, g: Group, api: Api, n: Name) {
    && n in Members(nodes, g.name) && n in Selected(nodes, g)
    && api.members && (forall x :: api.patch(x) && api.evict(x))
    && !Belongs(LabelsAfter(nodes, g, api, n), g.name)
  }

  /** One failing list evicts a member that its labels select, one failing get a member that is named. */
  lemma FailedCallsEvict()
    ensures exists nodes, g, api: Api, n :: EvictsSelected(nodes, g, api, n) && forall x :: api.get(x)
    ensures exists nodes, g, api: Api, n :: EvictsSelected(nodes, g, api, n) && api.list
  {
    var nodes: Nodes := map["edge" := map[BELONGING := "g", "site" := "west"]];
    var byLabel, byName := Group("g", Some(map["site" := "west"]), [], false), Group("g", None, ["edge"], false);
    var noList := Api(false, true, _ => true, _ => true, _ => true);
    var noGet := Api(true, true, _ => false, _ => true, _ => true);
    assert "edge" in Members(nodes, "g") && "edge" in Selected(nodes, byLabel) && "edge" in Selected(nodes, byName);
    SelectedMemberEvictedIff(nodes, byLabel, noList, "edge");
    SelectedMemberEvictedIff(nodes, byName, noGet, "edge");
    assert EvictsSelected(nodes, byLabel, noList, "edge") && EvictsSelected(nodes, byName, noGet, "edge");
  }

  /** Failing calls never label a node that the group does not select, and change no label but the two. */
  lemma FailingCallsAddNothing(nodes: Nodes, g: Group, api: Api, n: Name)
    requires n in nodes
    ensures Belongs(LabelsAfter(nodes, g, api, n), g.name) ==> Belongs(nodes[n], g.name) || n in Selected(nodes, g)
    ensures OwnedByOther(nodes[n], g.name) ==> LabelsAfter(nodes, g, api, n) == nodes[n]
    ensures LabelsAfter(nodes, g, api, n) - {BELONGING, ZONE} == nodes[n] - {BELONGING, ZONE}
    ensures Requeues(nodes, g, api) && !(Belongs(nodes[n], g.name) && n !in Found(nodes, g, api)) ==>
              LabelsAfter(nodes, g, api, n) == nodes[n]
  {
  }

  /** The zone label after a sync: a node that leaves has none, nor has a member of a group without zones; a
      node in a group with zones has the group's; every other node keeps its own. */
  lemma SyncZones(nodes: Nodes, g: Group, n: Name)
    requires n in nodes
    ensures var before, after := nodes[n], Synced(nodes, g)[n];
            && (Belongs(before, g.name) && n !in Selected(nodes, g) ==> ZONE !in after && BELONGING !in after)
            && (Belongs(after, g.name) && g.topology ==> ZONE in after && after[ZONE] == g.name)
            && (Belongs(before, g.name) && Belongs(after, g.name) && !g.topology ==> ZONE !in after)
            && (!Belongs(before, g.name) && !(Belongs(after, g.name) && g.topology) ==> SameLabel(before, after, ZONE))
  {
  }

  /** The status tells the truth about a sync that was not queued again: the node carries the group's labels,
      or belongs to another group, or could not be patched and is as it was, or was not found. */
  lemma StatusTellsTheTruth(nodes: Nodes, g: Group, api: Api, ready: Name -> Ready, n: Name)
    requires !Requeues(nodes, g, api)
    ensures var found := Found(nodes, g, api);
            var status := StatusOf(n, found, nodes, g, api, ready);
            && status.name == n && status.ready == (if n in found then ready(n) else ReadyUnknown)
            && (status.selection == DoesNotExist <==> n !in found)
            && (status.selection == AlreadyOwned <==> n in found && OwnedByOther(nodes[n], g.name))
            && (status.selection == Succeeded <==>
                  && n in found && Belongs(LabelsAfter(nodes, g, api, n), g.name)
                  && LabelsAfter(nodes, g, api, n) == Relabelled(nodes[n], g))
            && (status.selection == PatchFailed ==>
                  && n in found && !api.patch(n)
                  && LabelsAfter(nodes, g, api, n) == nodes[n] != Relabelled(nodes[n], g))
  {
  }

  /** Names are sorted as dictionaries do: a proper prefix first, or else by the first difference. */
  lemma {:induction false} LessIff(a: Name, b: Name)
    ensures Less(a, b) <==>
              a < b || exists i :: 0 <= i < |a| && i < |b| && a[..i] == b[..i] && a[i] < b[i]
  {
    if a != "" && b != "" && a[0] == b[0] {
      LessIff(a[1..], b[1..]);
      assert a == [a[0]] + a[1..] && b == [b[0]] + b[1..];
      assert a < b <==> a[1..] < b[1..];
      FirstDifference(a, b);
    } else if a != "" && b != "" && a[0] < b[0] {
      assert a[..0] == b[..0];
    } else if a != "" && b != "" {
      forall i | 0 < i < |a| && i < |b| ensures a[..i] != b[..i] {
        assert a[..i][0] == a[0] && b[..i][0] == b[0];
      }
    }
  }

  lemma FirstDifference(a: Name, b: Name)
    requires a != "" && b != "" && a[0] == b[0]
    ensures (exists i :: 0 <= i < |a| && i < |b| && a[..i] == b[..i] && a[i] < b[i]) <==>
            var a', b' := a[1..], b[1..]; exists i :: 0 <= i < |a'| && i < |b'| && a'[..i] == b'[..i] && a'[i] < b'[i]
  {
    var a', b' := a[1..], b[1..];
    if i :| 0 <= i < |a| && i < |b| && a[..i] == b[..i] && a[i] < b[i] {
      assert a'[..i - 1] == a[..i][1..] && b'[..i - 1] == b[..i][1..];
      assert a'[i - 1] < b'[i - 1];
    }
    if i :| 0 <= i < |a'| && i < |b'| && a'[..i] == b'[..i] && a'[i] < b'[i] {
      assert a[..i + 1] == [a[0]] + a'[..i] && b[..i + 1] == [b[0]] + b'[..i];
      assert a[i + 1] < b[i + 1];
    }
  }
}
