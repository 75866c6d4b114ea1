/**
 Resource paths and sync names: building, splitting, trimming and parsing, from the
 cloud controllers through CloudHub to the edge.
 */
module Addressing {
  import opened Common

  const SEP: char := '/'
  const DOT: char := '.'
  const NODE: string := "node"
  const TOKEN_TYPE: string := "serviceaccounttoken"

  // ---------------------------------------------------------------- split and join

  /** strings.Split for a one-character separator. */
  function Split(s: string, sep: char): (r: seq<string>)
    ensures |r| >= 1
  {
    if s == "" then [""]
    else
      var rest := Split(s[1..], sep);
      if s[0] == sep then [""] + rest
      else [[s[0]] + rest[0]] + rest[1..]
  }

  /** strings.Join. */
  function Join(parts: seq<string>, sep: char): string {
    if parts == [] then ""
    else if |parts| == 1 then parts[0]
    else parts[0] + [sep] + Join(parts[1..], sep)
  }

  predicate Free(s: string, sep: char) {
    sep !in s
  }

  predicate AllFree(parts: seq<string>, sep: char) {
    forall i :: 0 <= i < |parts| ==> Free(parts[i], sep)
  }

  /** Splitting at the first separator. */
  lemma {:induction false} SplitAt(a: string, b: string, sep: char)
    requires Free(a, sep)
    ensures Split(a + [sep] + b, sep) == [a] + Split(b, sep)
  {
    var s := a + [sep] + b;
    if a == "" {
      assert s == [sep] + b && s[1..] == b;
    } else {
      assert s[1..] == a[1..] + [sep] + b && s[0] == a[0];
      assert a[0] in a && forall c :: c in a[1..] ==> c in a;
      SplitAt(a[1..], b, sep);
      var rest := Split(s[1..], sep);
      assert rest[0] == a[1..] && rest[1..] == Split(b, sep);
      assert [a[0]] + a[1..] == a;
    }
  }

  lemma {:induction false} SplitFree(a: string, sep: char)
    requires Free(a, sep)
    ensures Split(a, sep) == [a]
  {
    if a != "" {
      assert a[0] in a && forall c :: c in a[1..] ==> c in a;
      SplitFree(a[1..], sep);
      assert [a[0]] + a[1..] == a;
    }
  }

  /** Split undoes Join on separator-free parts. */
  lemma {:induction false} SplitJoin(parts: seq<string>, sep: char)
    requires parts != [] && AllFree(parts, sep)
    ensures Split(Join(parts, sep), sep) == parts
  {
    if |parts| == 1 {
      SplitFree(parts[0], sep);
    } else {
      SplitJoin(parts[1..], sep);
      SplitAt(parts[0], Join(parts[1..], sep), sep);
      assert parts == [parts[0]] + parts[1..];
    }
  }

  /** Join undoes Split on every string, and the parts are separator-free. */
  lemma {:induction false} JoinSplit(s: string, sep: char)
    ensures Join(Split(s, sep), sep) == s && AllFree(Split(s, sep), sep)
  {
    PartsAreFree(s, sep);
    if s != "" {
      JoinSplit(s[1..], sep);
      var rest, r := Split(s[1..], sep), Split(s, sep);
      if s[0] == sep {
        assert r[1..] == rest;
        assert s == [sep] + s[1..];
      } else {
        assert r[1..] == rest[1..];
        assert |rest| == 1 ==> s == [s[0]] + s[1..];
        assert |rest| > 1 ==> Join(r, sep) == [s[0]] + rest[0] + [sep] + Join(rest[1..], sep);
        assert |rest| > 1 ==> s == [s[0]] + (rest[0] + [sep] + Join(rest[1..], sep));
      }
    }
  }

  lemma {:induction false} PartsAreFree(s: string, sep: char)
    ensures AllFree(Split(s, sep), sep)
  {
    if s != "" {
      PartsAreFree(s[1..], sep);
      var rest, r := Split(s[1..], sep), Split(s, sep);
      forall i | 0 <= i < |r| ensures Free(r[i], sep) {
        if i > 0 { assert r[i] == if s[0] == sep then rest[i - 1] else rest[i]; }
      }
    }
  }

  // ---------------------------------------------------------------- resource paths

  /** BuildResource; None is its error result. */
  function BuildResource(node: string, namespace: string, kind: string, name: string): Option<string> {
    if namespace == "" || kind == "" || node == "" then None
    else Some(Join([NODE, node] + PathAtEdge(namespace, kind, name), SEP))
  }

  /** The part of the path that reaches the edge. */
  function PathAtEdge(namespace: string, kind: string, name: string): seq<string> {
    [namespace, kind] + (if name == "" then [] else [name])
  }

  /** getElementByIndex. */
  function Element(resource: string, index: nat): string {
    var parts := Split(resource, SEP);
    if |parts| <= index then "" else parts[index]
  }

  /** GetNodeID of the dispatcher: the token after the first "node" that is followed by a non-empty one. */
  method GetNodeId(resource: string) returns (node: Option<string>)
    ensures node == NodeIdFrom(Split(resource, SEP), 0)
  {
    var tokens := Split(resource, SEP);
    for i := 0 to |tokens|
      invariant NodeIdFrom(tokens, 0) == NodeIdFrom(tokens, i)
    {
      if tokens[i] == NODE && i + 1 < |tokens| && tokens[i + 1] != "" {
        return Some(tokens[i + 1]);
      }
    }
    return None;
  }

  function NodeIdFrom(tokens: seq<string>, i: nat): Option<string>
    requires i <= |tokens|
    decreases |tokens| - i
  {
    if i == |tokens| then None
    else if tokens[i] == NODE && i + 1 < |tokens| && tokens[i + 1] != "" then Some(tokens[i + 1])
    else NodeIdFrom(tokens, i + 1)
  }

  /** TrimMessage. */
  function Trim(resource: string): string {
    if NODE <= resource && |Split(resource, SEP)| >= 3 then Join(Split(resource, SEP)[2..], SEP) else resource
  }

  datatype Parsed = Parsed(key: string, kind: string, id: string)

  /** parseResource at the edge, for every type but the token request, whose key depends on the content. */
  function ParseAtEdge(resource: string): Option<Parsed> {
    var tokens := Split(resource, SEP);
    var kind := if |tokens| == 2 then tokens[1] else if |tokens| == 3 then tokens[1] else "";
    var id := if |tokens| == 3 then tokens[2] else "";
    if kind == TOKEN_TYPE then None else Some(Parsed(resource, kind, id))
  }

  predicate Part(s: string) {
    s != "" && Free(s, SEP)
  }

  lemma BuiltParts(node: string, path: seq<string>)
    requires Part(node) && path != [] && AllFree(path, SEP)
    ensures Split(Join([NODE, node] + path, SEP), SEP) == [NODE, node] + path
    ensures NODE <= Join([NODE, node] + path, SEP)
  {
    var parts := [NODE, node] + path;
    SplitJoin(parts, SEP);
    assert Join(parts, SEP) == NODE + [SEP] + Join(parts[1..], SEP);
  }

  /** A node follows the k-th token. */
  predicate NamesNode(tokens: seq<string>, k: int) {
    0 <= k < |tokens| - 1 && tokens[k] == "node" && tokens[k + 1] != ""
  }

  /** The node ID is the token after the first "node" that has a non-empty one after it, if there is one. */
  lemma {:induction false} NodeIdIff(tokens: seq<string>, i: nat, node: string)
    requires i <= |tokens|
    ensures NodeIdFrom(tokens, i) == Some(node) <==>
              exists k :: i <= k && NamesNode(tokens, k) && tokens[k + 1] == node &&
                (forall j :: i <= j < k ==> !NamesNode(tokens, j))
    decreases |tokens| - i
  {
    if i < |tokens| {
      NodeIdIff(tokens, i + 1, node);
      assert NamesNode(tokens, i) ==> NodeIdFrom(tokens, i) == Some(tokens[i + 1]);
    }
  }

  /** In the cloud: from slash-free parts a path is built exactly when node, namespace and type are given, and
      then the node and the elements can be read back. */
  lemma AddressReadsBack(node: string, namespace: string, kind: string, name: string)
    requires Free(node, SEP) && Free(namespace, SEP) && Free(kind, SEP) && Free(name, SEP)
    ensures BuildResource(node, namespace, kind, name).Some? <==> node != "" && namespace != "" && kind != ""
    ensures BuildResource(node, namespace, kind, name).Some? ==>
              var resource := BuildResource(node, namespace, kind, name).value;
              && NodeIdFrom(Split(resource, SEP), 0) == Some(node)
              && Element(resource, 0) == "node" && Element(resource, 1) == node && Element(resource, 2) == namespace
              && Element(resource, 3) == kind && Element(resource, 4) == name
  {
    if node != "" {
      BuiltParts(node, PathAtEdge(namespace, kind, name));
    }
  }

  /** Trimming takes the first two parts off a path that leads to a node, and nothing off any other; parsing at
      the edge finds a type only in a path of two or three parts, which the parts found make up again. */
  lemma TrimAndParse(resource: string)
    ensures var tokens := Split(resource, SEP);
            && ("node" <= resource && |tokens| >= 3 ==> Split(Trim(resource), SEP) == tokens[2..])
            && (!("node" <= resource) || |tokens| < 3 ==> Trim(resource) == resource)
            && (ParseAtEdge(resource).Some? ==>
                  var p := ParseAtEdge(resource).value;
                  && p.key == resource
                  && (p.kind != "" || p.id != "" ==>
                        |tokens| in {2, 3} && Join([tokens[0], p.kind] + tokens[2..], SEP) == resource &&
                        p.id == if |tokens| == 3 then tokens[2] else ""))
  {
    var tokens := Split(resource, SEP);
    JoinSplit(resource, SEP);
    if |tokens| >= 3 {
      SplitJoin(tokens[2..], SEP);
    }
    if |tokens| in {2, 3} {
      assert [tokens[0], tokens[1]] + tokens[2..] == tokens;
    }
  }

  /** From the controller to the edge's database: trimming a built path and parsing it at the edge gives
      back the type and the name. */
  lemma AddressSurvives(node: string, namespace: string, kind: string, name: string)
    requires Part(node) && Part(namespace) && Part(kind) && Free(name, SEP) && kind != TOKEN_TYPE
    ensures BuildResource(node, namespace, kind, name).Some?
    ensures var trimmed := Trim(BuildResource(node, namespace, kind, name).value);
            && trimmed == Join(PathAtEdge(namespace, kind, name), SEP)
            && ParseAtEdge(trimmed) == Some(Parsed(trimmed, kind, name))
  {
    var path := PathAtEdge(namespace, kind, name);
    BuiltParts(node, path);
    assert ([NODE, node] + path)[2..] == path;
    SplitJoin(path, SEP);
  }

  // ---------------------------------------------------------------- sync names

  function BuildObjectSyncName(node: string, uid: string): string {
    node + [DOT] + uid
  }

  function NodeName(syncName: string): string {
    var parts := Split(syncName, DOT);
    Join(parts[..|parts| - 1], DOT)
  }

  function ObjectUid(syncName: string): string {
    var parts := Split(syncName, DOT);
    parts[|parts| - 1]
  }

  lemma {:induction false} SplitLast(a: string, b: string, sep: char)
    requires Free(b, sep)
    ensures Split(a + [sep] + b, sep) == Split(a, sep) + [b]
  {
    var s := a + [sep] + b;
    if a == "" {
      assert s == [sep] + b && s[1..] == b;
      SplitFree(b, sep);
    } else {
      assert s[1..] == a[1..] + [sep] + b && s[0] == a[0];
      SplitLast(a[1..], b, sep);
      var inner := Split(a[1..], sep);
      assert (inner + [b])[0] == inner[0] && (inner + [b])[1..] == inner[1..] + [b];
    }
  }

  /** A sync name splits back into its node, dots and all, and its UID, exactly when the UID has no dot. */
  lemma SyncNameSplitsIff(node: string, uid: string)
    ensures (NodeName(BuildObjectSyncName(node, uid)) == node && ObjectUid(BuildObjectSyncName(node, uid)) == uid)
            <==> Free(uid, DOT)
  {
    var name := BuildObjectSyncName(node, uid);
    if Free(uid, DOT) {
      SplitLast(node, uid, DOT);
      JoinSplit(node, DOT);
    } else {
      JoinSplit(name, DOT);
    }
  }

  /** Such as the UID "a.b" on node "n", which comes back as "b" on node "n.a". */
  lemma DottedUid()
    ensures NodeName(BuildObjectSyncName("n", "a.b")) == "n.a" && ObjectUid(BuildObjectSyncName("n", "a.b")) == "b"
  {
    assert BuildObjectSyncName("n", "a.b") == BuildObjectSyncName("n.a", "b");
    SyncNameSplitsIff("n.a", "b");
  }

  // ---------------------------------------------------------------- node-task resources

  datatype TaskResource = TaskResource(apiVersion: string, resourceType: string, jobName: string, nodeName: string)

  function TaskString(r: TaskResource): string {
    Join([r.apiVersion, r.resourceType, r.jobName, NODE, r.nodeName], SEP)
  }

  function ParseTask(resource: string): TaskResource {
    var parts := Split(resource, SEP);
    if |parts| != 6 then TaskResource("", "", "", "")
    else TaskResource(parts[0] + [SEP] + parts[1], parts[2], parts[3], parts[5])
  }

  lemma TaskParts(group: string, version: string, r: TaskResource)
    requires Free(group, SEP) && Free(version, SEP) && r.apiVersion == group + [SEP] + version
    requires Free(r.resourceType, SEP) && Free(r.jobName, SEP) && Free(r.nodeName, SEP)
    ensures Split(TaskString(r), SEP) == [group, version, r.resourceType, r.jobName, NODE, r.nodeName]
  {
    var parts := [group, version, r.resourceType, r.jobName, NODE, r.nodeName];
    var rest := [r.resourceType, r.jobName, NODE, r.nodeName];
    assert parts == [group, version] + rest && parts[1..] == [version] + rest && parts[1..][1..] == rest;
    assert [r.apiVersion] + rest == [r.apiVersion, r.resourceType, r.jobName, NODE, r.nodeName];
    assert ([r.apiVersion] + rest)[1..] == rest;
    assert Join(parts, SEP) == group + [SEP] + (version + [SEP] + Join(rest, SEP));
    assert TaskString(r) == (group + [SEP] + version) + [SEP] + Join(rest, SEP);
    assert TaskString(r) == Join(parts, SEP);
    SplitJoin(parts, SEP);
  }

  /** A node-task resource with a group/version and slash-free other parts survives. */
  lemma TaskResourceRoundTrip(group: string, version: string, r: TaskResource)
    requires Free(group, SEP) && Free(version, SEP) && r.apiVersion == group + [SEP] + version
    requires Free(r.resourceType, SEP) && Free(r.jobName, SEP) && Free(r.nodeName, SEP)
    ensures ParseTask(TaskString(r)) == r
  {
    TaskParts(group, version, r);
  }

  /** A task message is routed to the node it names, unless an earlier part is called "node". */
  lemma TaskIsRouted(group: string, version: string, r: TaskResource)
    requires Free(group, SEP) && Free(version, SEP) && r.apiVersion == group + [SEP] + version
    requires Free(r.resourceType, SEP) && Free(r.jobName, SEP) && Part(r.nodeName)
    requires "node" !in [group, version, r.resourceType, r.jobName]
    ensures NodeIdFrom(Split(TaskString(r), SEP), 0) == Some(r.nodeName)
  {
    TaskParts(group, version, r);
    var parts := [group, version, r.resourceType, r.jobName, NODE, r.nodeName];
    assert NamesNode(parts, 4) && parts[5] == r.nodeName;
    forall j | 0 <= j < 4 ensures !NamesNode(parts, j) {
      assert parts[j] == [group, version, r.resourceType, r.jobName][j];
    }
    NodeIdIff(parts, 0, r.nodeName);
  }

  /** apiVersion is group/version, and nothing else holds a slash. */
  ghost predicate TaskShape(r: TaskResource) {
    && Free(r.resourceType, SEP) && Free(r.jobName, SEP) && Free(r.nodeName, SEP)
    && exists group, version :: Free(group, SEP) && Free(version, SEP) && r.apiVersion == group + [SEP] + version
  }

  /** Exactly the resources of that shape round-trip, and the blank one. */
  lemma TaskRoundTripsIff(r: TaskResource)
    ensures ParseTask(TaskString(r)) == r <==> TaskShape(r) || r == TaskResource("", "", "", "")
  {
    if TaskShape(r) {
      var group, version :| Free(group, SEP) && Free(version, SEP) && r.apiVersion == group + [SEP] + version;
      TaskResourceRoundTrip(group, version, r);
    } else if r == TaskResource("", "", "", "") {
      SplitJoin(["", "", "", NODE, ""], SEP);
    } else if ParseTask(TaskString(r)) == r {
      TaskResourceShape(r);
    }
  }

  lemma TaskResourceShape(r: TaskResource)
    requires ParseTask(TaskString(r)) == r
    ensures TaskShape(r) || r == TaskResource("", "", "", "")
  {
    var parts := Split(TaskString(r), SEP);
    JoinSplit(TaskString(r), SEP);
    if |parts| == 6 {
      assert Free(parts[0], SEP) && Free(parts[1], SEP) && r.apiVersion == parts[0] + [SEP] + parts[1];
    }
  }
}
