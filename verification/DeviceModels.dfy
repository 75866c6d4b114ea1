/**
 The device controller keeps, on every edge node, the models of the devices bound to it:
 a model is sent with the first device that needs it and deleted with the last.
 */
module DeviceModels {
  /** Namespace and name. */
  datatype Id = Id(namespace: string, name: string)

  /** The spec of a device: its node ("" when unbound), its model, and everything else. */
  datatype Spec = Spec(nodeName: string, modelRef: string, rest: string)
  datatype Device = Device(id: Id, spec: Spec)

  type Devices = map<Id, Device>

  function ModelOf(d: Device): Id {
    Id(d.id.namespace, d.spec.modelRef)
  }

  datatype Operation = Insert | Update | Delete

  /** A device-model message to a node. */
  datatype ModelMessage = ModelMessage(node: string, model: Id, op: Operation)

  datatype Placement = Placement(node: string, model: Id)

  function PlacementOf(d: Device): Placement {
    Placement(d.spec.nodeName, ModelOf(d))
  }

  /** The models the nodes hold once every message has been delivered, and in order. */
  function Present(sent: seq<ModelMessage>): set<Placement> {
    if sent == [] then {}
    else
      var m := sent[|sent| - 1];
      var before := Present(sent[..|sent| - 1]);
      if m.op.Delete? then before - {Placement(m.node, m.model)} else before + {Placement(m.node, m.model)}
  }

  lemma PresentAfter(sent: seq<ModelMessage>, m: ModelMessage)
    ensures Present(sent + [m]) ==
              if m.op.Delete? then Present(sent) - {Placement(m.node, m.model)}
              else Present(sent) + {Placement(m.node, m.model)}
  {
    assert (sent + [m])[..|sent|] == sent;
  }

  // ---------------------------------------------------------------- the handlers as functions

  datatype State = State(devices: Devices, catalog: set<Id>, sent: seq<ModelMessage>)

  predicate Uses(other: Device, d: Device) {
    other.spec.nodeName != "" && other.spec.nodeName == d.spec.nodeName && ModelOf(other) == ModelOf(d)
  }

  /** isExistModel: another cached device on the same node uses the same model. */
  ghost predicate ExistsModel(devices: Devices, d: Device) {
    exists k :: k in devices && k != d.id && Uses(devices[k], d)
  }

  /** sendDeviceModelMsg: nothing is sent when the model is not in the catalog or the device is unbound. */
  function Send(sent: seq<ModelMessage>, catalog: set<Id>, d: Device, op: Operation): seq<ModelMessage> {
    if ModelOf(d) !in catalog || d.spec.nodeName == "" then sent
    else sent + [ModelMessage(d.spec.nodeName, ModelOf(d), op)]
  }

  ghost function Added(s: State, d: Device): State {
    var devices := s.devices[d.id := d];
    State(devices, s.catalog,
          if d.spec.nodeName != "" && !ExistsModel(devices, d) then Send(s.sent, s.catalog, d, Insert) else s.sent)
  }

  ghost function Deleted(s: State, d: Device): State {
    var devices := s.devices - {d.id};
    State(devices, s.catalog,
          if d.spec.nodeName != "" && !ExistsModel(devices, d) then Send(s.sent, s.catalog, d, Delete) else s.sent)
  }

  ghost function Updated(s: State, d: Device): State {
    if d.id !in s.devices then Added(s, d)
    else
      var cached := s.devices[d.id];
      if cached.spec == d.spec then s.(devices := s.devices[d.id := d])
      else if cached.spec.nodeName != d.spec.nodeName then
        Added(Deleted(s.(devices := s.devices[d.id := d]), cached), d)
      else State(s.devices[d.id := d], s.catalog, Send(s.sent, s.catalog, d, Update))
  }

  // ---------------------------------------------------------------- the controller

  class DownstreamController {
    var devices: Devices
    var catalog: set<Id>
    var sent: seq<ModelMessage>

    ghost function View(): State
      reads this
    {
      State(devices, catalog, sent)
    }

    constructor ()
      ensures View() == State(map[], {}, [])
    {
      devices, catalog, sent := map[], {}, [];
    }

    /** isExistModel scans the cached devices. */
    method IsExistModel(d: Device) returns (found: bool)
      ensures found <==> ExistsModel(devices, d)
    {
      var keys := devices.Keys;
      while keys != {}
        invariant keys <= devices.Keys
        invariant forall k :: k in devices && k !in keys && k != d.id ==> !Uses(devices[k], d)
        decreases |keys|
      {
        var k :| k in keys;
        if k != d.id {
          var item := devices[k];
          if item.spec.nodeName != "" && item.spec.nodeName == d.spec.nodeName &&
             item.id.namespace == d.id.namespace && item.spec.modelRef == d.spec.modelRef {
            assert Uses(item, d);
            return true;
          }
        }
        keys := keys - {k};
      }
      return false;
    }

    method SendDeviceModelMessage(d: Device, op: Operation)
      modifies this
      ensures devices == old(devices) && catalog == old(catalog) && sent == Send(old(sent), catalog, d, op)
    {
      if ModelOf(d) !in catalog || d.spec.nodeName == "" {
        return;
      }
      sent := sent + [ModelMessage(d.spec.nodeName, ModelOf(d), op)];
    }

    method DeviceAdded(d: Device)
      modifies this
      ensures View() == Added(old(View()), d)
    {
      devices := devices[d.id := d];
      if d.spec.nodeName != "" {
        var found := IsExistModel(d);
        if !found {
          SendDeviceModelMessage(d, Insert);
        }
      }
    }

    method DeviceDeleted(d: Device)
      modifies this
      ensures View() == Deleted(old(View()), d)
    {
      devices := devices - {d.id};
      if d.spec.nodeName != "" {
        var found := IsExistModel(d);
        if !found {
          SendDeviceModelMessage(d, Delete);
        }
      }
    }

    method DeviceUpdated(d: Device)
      modifies this
      ensures View() == Updated(old(View()), d)
    {
      var known := d.id in devices;
      if known {
        var cached := devices[d.id];
        devices := devices[d.id := d];
        if cached.spec != d.spec {
          if cached.spec.nodeName != d.spec.nodeName {
            DeviceDeleted(cached);
            DeviceAdded(d);
          } else {
            SendDeviceModelMessage(d, Update);
          }
        }
      } else {
        devices := devices[d.id := d];
        DeviceAdded(d);
        assert old(devices)[d.id := d][d.id := d] == old(devices)[d.id := d];
      }
    }
  }

  // ---------------------------------------------------------------- models never dangle

  /** Cached devices are filed under their own ID. */
  ghost predicate Filed(s: State) {
    forall k :: k in s.devices ==> s.devices[k].id == k
  }

  ghost predicate Supplied(s: State, d: Device) {
    d.spec.nodeName == "" || PlacementOf(d) in Present(s.sent)
  }

  /** Every cached device that is bound to a node has its model there. */
  ghost predicate NoDangling(s: State) {
    forall k :: k in s.devices ==> Supplied(s, s.devices[k])
  }

  datatype Event =
    | DeviceAdd(d: Device)
    | DeviceUpdate(d: Device)
    | DeviceDelete(d: Device)
    | ModelStored(m: Id)
    | ModelRemoved(m: Id)

  ghost function Apply(s: State, e: Event): State {
    match e
    case DeviceAdd(d) => Added(s, d)
    case DeviceUpdate(d) => Updated(s, d)
    case DeviceDelete(d) => Deleted(s, d)
    case ModelStored(m) => s.(catalog := s.catalog + {m})
    case ModelRemoved(m) => s.(catalog := s.catalog - {m})
  }

  /** The lookup of the model succeeds, or the model is on the node already. */
  ghost predicate Available(s: State, d: Device) {
    ModelOf(d) in s.catalog || Supplied(s, d)
  }

  ghost predicate LookupOk(s: State, e: Event) {
    match e
    case DeviceAdd(d) => Available(s, d)
    case DeviceUpdate(d) => (d.id in s.devices && s.devices[d.id].spec == d.spec) || Available(s, d)
    case _ => true
  }

  lemma AddedIff(s: State, d: Device)
    requires forall k :: k in s.devices && k != d.id ==> Supplied(s, s.devices[k])
    ensures NoDangling(Added(s, d)) <==> Available(s, d)
  {
    var s' := Added(s, d);
    PresentAfter(s.sent, ModelMessage(d.spec.nodeName, ModelOf(d), Insert));
    if ExistsModel(s'.devices, d) {
      var k :| k in s'.devices && k != d.id && Uses(s'.devices[k], d);
      assert Supplied(s, s.devices[k]);
    }
    assert s'.devices[d.id] == d;
    assert Supplied(s', d) <==> Available(s, d);
    forall k | k in s'.devices && k != d.id ensures Supplied(s', s'.devices[k]) {}
  }

  lemma DeletedKeeps(s: State, d: Device)
    requires forall k :: k in s.devices && k != d.id ==> Supplied(s, s.devices[k])
    ensures NoDangling(Deleted(s, d))
    ensures forall p: Placement :: p.node != d.spec.nodeName ==>
              (p in Present(Deleted(s, d).sent) <==> p in Present(s.sent))
  {
    var s' := Deleted(s, d);
    PresentAfter(s.sent, ModelMessage(d.spec.nodeName, ModelOf(d), Delete));
    forall k | k in s'.devices ensures Supplied(s', s'.devices[k]) {
      assert Supplied(s, s.devices[k]);
      if s'.sent != s.sent && PlacementOf(s.devices[k]) == PlacementOf(d) {
        assert !Uses(s'.devices[k], d);
      }
    }
  }

  /** One event keeps every model in place exactly when the model it needs can be looked up or is there. */
  lemma EventKeepsModelsIff(s: State, e: Event)
    requires Filed(s) && NoDangling(s)
    ensures Filed(Apply(s, e))
    ensures NoDangling(Apply(s, e)) <==> LookupOk(s, e)
  {
    match e
    case DeviceAdd(d) => AddedIff(s, d);
    case DeviceDelete(d) => DeletedKeeps(s, d);
    case DeviceUpdate(d) =>
      if d.id !in s.devices {
        AddedIff(s, d);
      } else if s.devices[d.id].spec == d.spec {
        SameSpec(s, d);
      } else if s.devices[d.id].spec.nodeName != d.spec.nodeName {
        var cached, stored := s.devices[d.id], s.(devices := s.devices[d.id := d]);
        DeletedKeeps(stored, cached);
        AddedIff(Deleted(stored, cached), d);
        assert Supplied(Deleted(stored, cached), d) <==> Supplied(s, d);
      } else {
        SameNode(s, d);
      }
    case _ =>
  }

  lemma SameSpec(s: State, d: Device)
    requires Filed(s) && NoDangling(s) && d.id in s.devices && s.devices[d.id].spec == d.spec
    ensures NoDangling(Updated(s, d))
  {
    assert ModelOf(d) == ModelOf(s.devices[d.id]);
    forall k | k in Updated(s, d).devices ensures Supplied(Updated(s, d), Updated(s, d).devices[k]) {
      assert Supplied(s, s.devices[k]);
    }
  }

  lemma SameNode(s: State, d: Device)
    requires NoDangling(s) && d.id in s.devices
    requires s.devices[d.id].spec != d.spec && s.devices[d.id].spec.nodeName == d.spec.nodeName
    ensures NoDangling(Updated(s, d)) <==> Available(s, d)
  {
    var s' := Updated(s, d);
    PresentAfter(s.sent, ModelMessage(d.spec.nodeName, ModelOf(d), Update));
    assert s'.devices[d.id] == d;
    assert Supplied(s', d) <==> Available(s, d);
    forall k | k in s'.devices && k != d.id ensures Supplied(s', s'.devices[k]) {
      assert Supplied(s, s.devices[k]);
    }
  }

  ghost function AfterAll(es: seq<Event>): State {
    if es == [] then State(map[], {}, []) else Apply(AfterAll(es[..|es| - 1]), es[|es| - 1])
  }

  /** Over every run in which model lookups succeed, no cached device lacks its model on its node. */
  lemma {:induction false} ModelsNeverDangle(es: seq<Event>)
    requires LookupsOk(es)
    ensures Filed(AfterAll(es)) && NoDangling(AfterAll(es))
  {
    if es != [] {
      var n := |es| - 1;
      forall i | 0 <= i < n ensures LookupOk(AfterAll(es[..n][..i]), es[..n][i]) {
        assert es[..n][..i] == es[..i] && es[..n][i] == es[i];
      }
      ModelsNeverDangle(es[..n]);
      EventKeepsModelsIff(AfterAll(es[..n]), es[n]);
    }
  }

  // ---------------------------------------------------------------- no surplus models

  /** A cached device on that node uses that model. */
  ghost predicate Used(devices: Devices, p: Placement) {
    exists k :: k in devices && devices[k].spec.nodeName != "" && p == PlacementOf(devices[k])
  }

  ghost predicate NoSurplus(s: State) {
    forall p :: p in Present(s.sent) ==> Used(s.devices, p)
  }

  ghost predicate StillUsed(devices: Devices, d: Device) {
    d.spec.nodeName == "" || Used(devices, PlacementOf(d))
  }

  /** The model that the event's device gives up is still used there, or is taken away: by a delete of the
      device, or by its move to another node, with the model in the catalog. */
  ghost predicate Tidies(s: State, e: Event) {
    match e
    case DeviceAdd(d) => d.id in s.devices ==> StillUsed(s.devices[d.id := d], s.devices[d.id])
    case DeviceDelete(d) =>
      d.id in s.devices ==>
        var cached := s.devices[d.id];
        || StillUsed(s.devices - {d.id}, cached)
        || (cached.spec.nodeName == d.spec.nodeName && ModelOf(cached) == ModelOf(d) && ModelOf(d) in s.catalog)
    case DeviceUpdate(d) =>
      d.id in s.devices ==>
        var cached := s.devices[d.id];
        || StillUsed(s.devices[d.id := d], cached)
        || (cached.spec.nodeName != d.spec.nodeName && ModelOf(cached) in s.catalog)
    case _ => true
  }

  /** Every other device goes on using what it used. */
  lemma OthersStillUse(devices: Devices, devices': Devices, id: Id, p: Placement)
    requires forall k :: k in devices && k != id ==> k in devices' && devices'[k] == devices[k]
    requires Used(devices, p) && !Used(devices', p)
    ensures id in devices && p == PlacementOf(devices[id]) && devices[id].spec.nodeName != ""
  {
    var k :| k in devices && devices[k].spec.nodeName != "" && p == PlacementOf(devices[k]);
    assert k == id;
  }

  lemma AddedSurplus(s: State, d: Device)
    requires NoSurplus(s) && NoDangling(s)
    ensures NoSurplus(Added(s, d)) <==> Tidies(s, DeviceAdd(d))
  {
    var s' := Added(s, d);
    PresentAfter(s.sent, ModelMessage(d.spec.nodeName, ModelOf(d), Insert));
    assert s'.devices[d.id] == d;
    forall p | p in Present(s'.sent) && !Used(s'.devices, p)
      ensures d.id in s.devices && !StillUsed(s'.devices, s.devices[d.id])
    {
      OthersStillUse(s.devices, s'.devices, d.id, p);
    }
    if d.id in s.devices && !StillUsed(s'.devices, s.devices[d.id]) {
      var p := PlacementOf(s.devices[d.id]);
      assert Supplied(s, s.devices[d.id]) && p in Present(s'.sent) && !Used(s'.devices, p);
    }
  }

  lemma DeletedSurplus(s: State, d: Device)
    requires NoSurplus(s) && NoDangling(s)
    ensures NoSurplus(Deleted(s, d)) <==> Tidies(s, DeviceDelete(d))
  {
    var s' := Deleted(s, d);
    PresentAfter(s.sent, ModelMessage(d.spec.nodeName, ModelOf(d), Delete));
    forall p | p in Present(s'.sent) && !Used(s'.devices, p) ensures !Tidies(s, DeviceDelete(d)) {
      OthersStillUse(s.devices, s'.devices, d.id, p);
    }
    if !Tidies(s, DeviceDelete(d)) {
      var cached := s.devices[d.id];
      var p := PlacementOf(cached);
      assert Supplied(s, cached) && p in Present(s'.sent) && !Used(s'.devices, p);
    }
  }

  /** A move takes the model from the old node unless another device there uses it. */
  lemma MovedSurplus(s: State, d: Device)
    requires Filed(s) && NoSurplus(s) && NoDangling(s)
    requires d.id in s.devices && s.devices[d.id].spec.nodeName != d.spec.nodeName
    ensures NoSurplus(Updated(s, d)) <==> Tidies(s, DeviceUpdate(d))
  {
    var cached := s.devices[d.id];
    var between := Deleted(s.(devices := s.devices[d.id := d]), cached);
    var s' := Updated(s, d);
    var p0 := PlacementOf(cached);
    assert s'.devices == s.devices[d.id := d] && s'.devices[d.id] == d;
    PresentAfter(s.sent, ModelMessage(cached.spec.nodeName, ModelOf(cached), Delete));
    PresentAfter(between.sent, ModelMessage(d.spec.nodeName, ModelOf(d), Insert));
    LeftBehind(s, d);
    forall p | p in Present(s'.sent) && !Used(s'.devices, p) ensures p == p0 && cached.spec.nodeName != "" {
      OthersStillUse(s.devices, s'.devices, d.id, p);
    }
    if cached.spec.nodeName != "" && !Used(s'.devices, p0) {
      assert Supplied(s, cached);
      assert p0 in Present(s'.sent) <==> ModelOf(cached) !in s.catalog;
    }
  }

  lemma LeftBehind(s: State, d: Device)
    requires Filed(s) && d.id in s.devices && s.devices[d.id].spec.nodeName != d.spec.nodeName
    ensures var cached, devices := s.devices[d.id], s.devices[d.id := d];
            cached.spec.nodeName != "" ==>
              (ExistsModel(devices - {d.id}, cached) <==> Used(devices, PlacementOf(cached)))
  {
    var cached, devices := s.devices[d.id], s.devices[d.id := d];
    var p := PlacementOf(cached);
    if cached.spec.nodeName != "" && Used(devices, p) {
      var k :| k in devices && devices[k].spec.nodeName != "" && p == PlacementOf(devices[k]);
      assert k != d.id && Uses((devices - {d.id})[k], cached);
    }
  }

  lemma SameNodeSurplus(s: State, d: Device)
    requires Filed(s) && NoSurplus(s) && NoDangling(s)
    requires d.id in s.devices && s.devices[d.id].spec.nodeName == d.spec.nodeName
    ensures NoSurplus(Updated(s, d)) <==> Tidies(s, DeviceUpdate(d))
  {
    var s', cached := Updated(s, d), s.devices[d.id];
    PresentAfter(s.sent, ModelMessage(d.spec.nodeName, ModelOf(d), Update));
    assert s'.devices[d.id] == d;
    assert ModelOf(d) == ModelOf(cached) ==> StillUsed(s'.devices, cached);
    forall p | p in Present(s'.sent) && !Used(s'.devices, p) ensures !StillUsed(s'.devices, cached) {
      OthersStillUse(s.devices, s'.devices, d.id, p);
    }
    if !StillUsed(s'.devices, cached) {
      var p := PlacementOf(cached);
      assert Supplied(s, cached) && p in Present(s'.sent) && !Used(s'.devices, p);
    }
  }

  /** One event leaves no model that nobody uses exactly when the model given up is still used or taken away. */
  lemma EventTidiesIff(s: State, e: Event)
    requires Filed(s) && NoDangling(s) && NoSurplus(s)
    ensures NoSurplus(Apply(s, e)) <==> Tidies(s, e)
  {
    match e
    case DeviceAdd(d) => AddedSurplus(s, d);
    case DeviceDelete(d) => DeletedSurplus(s, d);
    case DeviceUpdate(d) =>
      if d.id !in s.devices {
        AddedSurplus(s, d);
      } else if s.devices[d.id].spec.nodeName != d.spec.nodeName {
        MovedSurplus(s, d);
      } else {
        SameNodeSurplus(s, d);
      }
    case _ =>
  }

  /** Over every run in which lookups succeed and no given-up model is left behind, the nodes hold exactly
      the models that their cached devices use. */
  lemma {:induction false} ModelsAreExact(es: seq<Event>)
    requires forall i :: 0 <= i < |es| ==> LookupOk(AfterAll(es[..i]), es[i]) && Tidies(AfterAll(es[..i]), es[i])
    ensures Filed(AfterAll(es)) && NoDangling(AfterAll(es)) && NoSurplus(AfterAll(es))
  {
    if es != [] {
      var n := |es| - 1;
      forall i | 0 <= i < n
        ensures LookupOk(AfterAll(es[..n][..i]), es[..n][i]) && Tidies(AfterAll(es[..n][..i]), es[..n][i])
      {
        assert es[..n][..i] == es[..i] && es[..n][i] == es[i];
      }
      ModelsAreExact(es[..n]);
      EventKeepsModelsIff(AfterAll(es[..n]), es[n]);
      EventTidiesIff(AfterAll(es[..n]), es[n]);
    }
  }

  /** A device that changes its model on its node leaves the old model behind, unless another device there uses it. */
  lemma ModelChangeLeavesSurplus(s: State, d: Device)
    requires Filed(s) && NoDangling(s) && NoSurplus(s) && d.id in s.devices
    requires s.devices[d.id].spec.nodeName == d.spec.nodeName != "" && s.devices[d.id].spec.modelRef != d.spec.modelRef
    ensures NoSurplus(Updated(s, d)) <==> ExistsModel(s.devices, s.devices[d.id])
  {
    var cached, devices := s.devices[d.id], s.devices[d.id := d];
    var p := PlacementOf(cached);
    EventTidiesIff(s, DeviceUpdate(d));
    if ExistsModel(s.devices, cached) {
      var k :| k in s.devices && k != d.id && Uses(s.devices[k], cached);
      assert devices[k] == s.devices[k];
    }
    if Used(devices, p) {
      var k :| k in devices && devices[k].spec.nodeName != "" && p == PlacementOf(devices[k]);
      assert k != d.id && Uses(s.devices[k], cached);
    }
  }

  ghost predicate LookupsOk(es: seq<Event>) {
    forall i :: 0 <= i < |es| ==> LookupOk(AfterAll(es[..i]), es[i])
  }

  lemma OneMoreEvent(es: seq<Event>, e: Event)
    requires LookupsOk(es) && LookupOk(AfterAll(es), e)
    ensures AfterAll(es + [e]) == Apply(AfterAll(es), e) && LookupsOk(es + [e])
  {
    assert (es + [e])[..|es|] == es;
    forall i | 0 <= i <= |es| ensures LookupOk(AfterAll((es + [e])[..i]), (es + [e])[i]) {
      assert i < |es| ==> (es + [e])[..i] == es[..i];
    }
  }

  /** A run with working lookups that leaves a model nobody uses on a node. */
  lemma SurplusRun()
    ensures exists es :: LookupsOk(es) && !NoSurplus(AfterAll(es))
  {
    var id := Id("default", "lamp");
    var before, after := Device(id, Spec("edge", "old", "")), Device(id, Spec("edge", "new", ""));
    var e0, e1, e2 := ModelStored(ModelOf(before)), ModelStored(ModelOf(after)), DeviceAdd(before);
    OneMoreEvent([], e0);
    OneMoreEvent([] + [e0], e1);
    var s2 := AfterAll([] + [e0] + [e1]);
    assert s2 == State(map[], {ModelOf(before), ModelOf(after)}, []);
    OneMoreEvent([] + [e0] + [e1], e2);
    EventKeepsModelsIff(s2, e2);
    EventTidiesIff(s2, e2);
    var s3 := AfterAll([] + [e0] + [e1] + [e2]);
    assert s3.devices == map[id := before];
    OneMoreEvent([] + [e0] + [e1] + [e2], DeviceUpdate(after));
    ModelChangeLeavesSurplus(s3, after);
  }

  // ---------------------------------------------------------------- a device that moves away and back

  /** The only user of a model on its node. */
  ghost predicate SoleUser(s: State, d: Device) {
    && d.id in s.devices && s.devices[d.id] == d && d.spec.nodeName != "" && ModelOf(d) in s.catalog
    && !ExistsModel(s.devices, d)
  }

  /** Nobody else has come to use the model of d. */
  lemma StaysSole(s: State, s': State, d: Device)
    requires SoleUser(s, d) && s'.devices - {d.id} == s.devices - {d.id}
    ensures !ExistsModel(s'.devices, d)
  {
    forall k | k in s'.devices && k != d.id ensures !Uses(s'.devices[k], d) {
      assert k in s'.devices - {d.id} && (s'.devices - {d.id})[k] == s'.devices[k];
      assert k in s.devices && s.devices[k] == s'.devices[k];
    }
  }

  /** Its node is sent a delete of the model when the device moves away, and an insert when it is back.  The
      node holds the model afterwards only if the second is not dropped behind the first. */
  lemma MovingBackSendsDeleteThenInsert(s: State, d: Device, away: Device)
    requires SoleUser(s, d) && away.id == d.id && away.spec.nodeName != d.spec.nodeName
    ensures var sent := Updated(Updated(s, away), d).sent;
            && |sent| >= |s.sent| + 2
            && sent[|s.sent|] == ModelMessage(d.spec.nodeName, ModelOf(d), Delete)
            && sent[|sent| - 1] == ModelMessage(d.spec.nodeName, ModelOf(d), Insert)
  {
    var gone := Deleted(s.(devices := s.devices[d.id := away]), d);
    StaysSole(s, gone, d);
    assert gone.sent == s.sent + [ModelMessage(d.spec.nodeName, ModelOf(d), Delete)];
    var there := Added(gone, away);
    assert gone.sent <= there.sent;
    var left := Deleted(there.(devices := there.devices[d.id := d]), away);
    assert there.sent <= left.sent;
    StaysSole(s, Added(left, d), d);
  }

  // ---------------------------------------------------------------- no message is sent for nothing

  /** A bound device with a model that can be looked up. */
  predicate CanSend(s: State, d: Device) {
    d.spec.nodeName != "" && ModelOf(d) in s.catalog
  }

  /** A model is inserted with the first device of the node that needs it, and deleted with the last; nothing
      is sent for the others.  A device that stays on its node sends an update of its model if its spec has
      changed, and nothing if it has not. */
  lemma FirstAndLast(s: State, d: Device)
    ensures var shared := Used(s.devices - {d.id}, PlacementOf(d));
            && (CanSend(s, d) && !shared ==>
                  && Added(s, d).sent == s.sent + [ModelMessage(d.spec.nodeName, ModelOf(d), Insert)]
                  && Deleted(s, d).sent == s.sent + [ModelMessage(d.spec.nodeName, ModelOf(d), Delete)])
            && (!CanSend(s, d) || shared ==> Added(s, d).sent == s.sent && Deleted(s, d).sent == s.sent)
    ensures Added(s, d).devices == s.devices[d.id := d] && Deleted(s, d).devices == s.devices - {d.id}
    ensures d.id in s.devices && s.devices[d.id].spec.nodeName == d.spec.nodeName ==>
              && Updated(s, d).devices == s.devices[d.id := d]
              && Updated(s, d).sent ==
                   if s.devices[d.id].spec != d.spec && CanSend(s, d)
                   then s.sent + [ModelMessage(d.spec.nodeName, ModelOf(d), Update)] else s.sent
  {
    var rest, p := s.devices - {d.id}, PlacementOf(d);
    if d.spec.nodeName != "" {
      if Used(rest, p) {
        var k :| k in rest && rest[k].spec.nodeName != "" && p == PlacementOf(rest[k]);
        assert k != d.id && Uses(s.devices[d.id := d][k], d) && Uses(rest[k], d);
      } else {
        forall k | k in s.devices && k != d.id ensures !Uses(s.devices[k], d) {
          assert k in rest && rest[k] == s.devices[k];
        }
      }
    }
  }
}
