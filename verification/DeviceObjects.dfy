/**
 * The device tree as the library holds it: objects in intrusive lists, linked
 * to their parent and updated in place. Each method is proved against the
 * function of DeviceTree.dfy or DeviceUpdate.dfy that it implements.
 *
 * A ghost `Tree` says which objects make up a device and in what order. It is
 * a value, so the footprint of a method does not move when links change.
 */
module DeviceObjects {
  import opened Sequences
  import opened Text
  import opened DeviceUpdate
  import T = DeviceTree

  class ServiceObject {
    const node: T.ServiceNode
    var owner: DeviceObject?
    var sid: string
    var timeout: int
    var timestamp: int
    var eventKey: int

    constructor (node: T.ServiceNode)
      ensures this.node == node && owner == null && ServiceValue(this) == T.Service(node, T.Subscription("", 0, 0, 0))
    {
      this.node, owner := node, null;
      sid, timeout, timestamp, eventKey := "", 0, 0, 0;
    }
  }

  class DeviceObject {
    ghost const objectId: nat
    var node: T.DeviceNode
    var parent: DeviceObject?
    /** The next device of the list this one is in. */
    var next: DeviceObject?
    var services: seq<ServiceObject>
    /** The head of the list of embedded devices. */
    var devices: DeviceObject?
    /** The XML document; only the root of a tree has one. */
    var rootNodes: Option<nat>
    var icons: seq<string>
    var packet: Packet
    var httpPort: int

    constructor (node: T.DeviceNode, packet: Packet, ghost objectId: nat)
      ensures this.objectId == objectId && this.node == node && this.packet == packet && parent == null
      ensures Linked(Tree(this, [], Nil), null)
    {
      this.objectId := objectId;
      this.node, this.packet, httpPort := node, packet, 0;
      parent, next, services, devices := null, null, [], null;
      rootNodes, icons := None, [];
    }
  }

  // ---------------------------------------------------------------------
  // Shapes
  // ---------------------------------------------------------------------

  datatype Tree = Tree(dev: DeviceObject, services: seq<ServiceObject>, kids: Forest)
  datatype Forest = Nil | Cons(first: Tree, rest: Forest)

  ghost function Head(f: Forest): DeviceObject? {
    if f.Nil? then null else f.first.dev
  }

  ghost function Devs(t: Tree): set<DeviceObject> {
    {t.dev} + DevsOf(t.kids)
  }

  ghost function DevsOf(f: Forest): set<DeviceObject> {
    if f.Nil? then {} else Devs(f.first) + DevsOf(f.rest)
  }

  ghost function Servs(t: Tree): set<ServiceObject> {
    SetOf(t.services) + ServsOf(t.kids)
  }

  ghost function ServsOf(f: Forest): set<ServiceObject> {
    if f.Nil? then {} else Servs(f.first) + ServsOf(f.rest)
  }

  ghost function SetOf(services: seq<ServiceObject>): set<ServiceObject> {
    set s | s in services
  }

  /** No object occurs twice in the tree. */
  ghost predicate Separate(t: Tree) {
    Distinct(t.services) && t.dev !in DevsOf(t.kids) && SetOf(t.services) !! ServsOf(t.kids) && SeparateAll(t.kids)
  }

  ghost predicate SeparateAll(f: Forest) {
    f.Cons? ==>
      && Separate(f.first) && SeparateAll(f.rest)
      && Devs(f.first) !! DevsOf(f.rest) && Servs(f.first) !! ServsOf(f.rest)
  }

  ghost predicate OwnedBy(services: seq<ServiceObject>, dev: DeviceObject)
    reads SetOf(services)`owner
  {
    forall s | s in services :: s.owner == dev
  }

  /** The links in the heap are those of the shape: lists, parents and service owners. */
  ghost predicate Linked(t: Tree, parent: DeviceObject?)
    reads Devs(t)`parent, DevsOf(t.kids)`next, Devs(t)`services, Devs(t)`devices, Servs(t)`owner
    decreases t
  {
    && t.dev.parent == parent
    && t.dev.services == t.services && OwnedBy(t.services, t.dev)
    && t.dev.devices == Head(t.kids)
    && LinkedAll(t.kids, t.dev)
  }

  ghost predicate LinkedAll(f: Forest, parent: DeviceObject?)
    reads DevsOf(f)`parent, DevsOf(f)`next, DevsOf(f)`services, DevsOf(f)`devices, ServsOf(f)`owner
    decreases f
  {
    f.Cons? ==>
      assert f.first.dev in Devs(f.first);
      && Linked(f.first, parent)
      && f.first.dev.next == Head(f.rest)
      && LinkedAll(f.rest, parent)
  }

  function ServiceValue(s: ServiceObject): T.Service
    reads s`sid, s`timeout, s`timestamp, s`eventKey
  {
    T.Service(s.node, T.Subscription(s.sid, s.timeout, s.timestamp, s.eventKey))
  }

  ghost function ServiceValues(services: seq<ServiceObject>): (r: seq<T.Service>)
    reads SetOf(services)`sid, SetOf(services)`timeout, SetOf(services)`timestamp, SetOf(services)`eventKey
    ensures |r| == |services|
    ensures forall i | 0 <= i < |r| :: r[i] == ServiceValue(services[i])
  {
    if services == [] then [] else [ServiceValue(services[0])] + ServiceValues(services[1..])
  }

  /** The tree value a shape stands for. */
  ghost function Value(t: Tree): T.Device
    reads Devs(t)`node, Servs(t)`sid, Servs(t)`timeout, Servs(t)`timestamp, Servs(t)`eventKey
    decreases t
  {
    T.Device(t.dev.node, ServiceValues(t.services), Values(t.kids))
  }

  ghost function Values(f: Forest): seq<T.Device>
    reads DevsOf(f)`node, ServsOf(f)`sid, ServsOf(f)`timeout, ServsOf(f)`timestamp, ServsOf(f)`eventKey
    decreases f
  {
    if f.Nil? then [] else [Value(f.first)] + Values(f.rest)
  }

  // ---------------------------------------------------------------------
  // The structure test
  // ---------------------------------------------------------------------

  /** `mupnp_device_hassamestructure`. */
  method HasSameStructure(a: DeviceObject, b: DeviceObject, ghost ta: Tree, ghost tb: Tree) returns (same: bool)
    requires ta.dev == a && Linked(ta, a.parent) && tb.dev == b && Linked(tb, b.parent)
    ensures same <==> old(T.SameStructure(Value(ta), Value(tb)))
    decreases ta
  {
    hide LinkedAll, Values, DevsOf, ServsOf, SetOf, ServiceValues, OwnedBy, T.SameChildren, T.SameServices;
    if !OptStrEq(a.node.udn, b.node.udn) || !OptStrEq(a.node.deviceType, b.node.deviceType) {
      return false;
    }
    assert allocated(DevsOf(ta.kids)) && allocated(ServsOf(ta.kids)) && allocated(SetOf(ta.services));
    assert allocated(DevsOf(tb.kids)) && allocated(ServsOf(tb.kids)) && allocated(SetOf(tb.services));
    var sameServices := HaveSameServices(a.services, b.services);
    if !sameServices {
      return false;
    }
    same := HaveSameChildren(a.devices, b.devices, a, b, ta.kids, tb.kids);
  }

  /** The paired walk over two service lists. */
  method HaveSameServices(a: seq<ServiceObject>, b: seq<ServiceObject>) returns (same: bool)
    ensures same <==> T.SameServices(ServiceValues(a), ServiceValues(b))
  {
    ghost var va, vb := ServiceValues(a), ServiceValues(b);
    var i := 0;
    while i < |a| && i < |b|
      invariant 0 <= i <= |a| && i <= |b|
      invariant T.SameServices(va, vb) == T.SameServices(va[i..], vb[i..])
    {
      assert va[i..][1..] == va[i + 1..] && vb[i..][1..] == vb[i + 1..];
      if !T.SameServiceNode(a[i].node, b[i].node) {
        return false;
      }
      i := i + 1;
    }
    assert i == |va| ==> va[i..] == [];
    assert i == |vb| ==> vb[i..] == [];
    same := i == |a| && i == |b|;
  }

  /** The paired walk over two lists of embedded devices. */
  method HaveSameChildren(firstA: DeviceObject?, firstB: DeviceObject?, ghost pa: DeviceObject, ghost pb: DeviceObject,
                          ghost fa: Forest, ghost fb: Forest) returns (same: bool)
    requires firstA == Head(fa) && LinkedAll(fa, pa)
    requires firstB == Head(fb) && LinkedAll(fb, pb)
    ensures same <==> old(T.SameChildren(Values(fa), Values(fb)))
    decreases fa
  {
    hide LinkedAll, Linked, Values, Value, DevsOf, ServsOf, T.SameChildren, T.SameStructure;
    SameChildrenStep(fa, fb);
    if firstA == null || firstB == null {
      return firstA == null && firstB == null;
    }
    assert allocated(DevsOf(fa.rest)) && allocated(ServsOf(fa.rest));
    assert allocated(DevsOf(fb.rest)) && allocated(ServsOf(fb.rest));
    FirstAndRest(fa, pa);
    FirstAndRest(fb, pb);
    same := HasSameStructure(firstA, firstB, fa.first, fb.first);
    if same {
      same := HaveSameChildren(firstA.next, firstB.next, pa, pb, fa.rest, fb.rest);
    }
  }

  lemma SameChildrenStep(fa: Forest, fb: Forest)
    ensures T.SameChildren(Values(fa), Values(fb))
         == if fa.Nil? || fb.Nil? then fa.Nil? && fb.Nil?
            else T.SameStructure(Value(fa.first), Value(fb.first)) && T.SameChildren(Values(fa.rest), Values(fb.rest))
  {
    if fa.Cons? && fb.Cons? {
      assert Values(fa)[1..] == Values(fa.rest) && Values(fb)[1..] == Values(fb.rest);
    }
  }

  lemma FirstAndRest(f: Forest, parent: DeviceObject)
    requires f.Cons? && LinkedAll(f, parent)
    ensures f.first.dev.parent == parent && Linked(f.first, parent)
    ensures f.first.dev.next == Head(f.rest) && LinkedAll(f.rest, parent)
  {
  }

  // ---------------------------------------------------------------------
  // Finding a device
  // ---------------------------------------------------------------------

  /** The shape of the first device with this UDN. */
  ghost function Found(t: Tree, udn: CString): Option<Tree>
    reads Devs(t)`node
    decreases t
  {
    if IsBlank(udn) then None
    else if StrEq(t.dev.node.udn, udn) then Some(t)
    else FoundAmong(t.kids, udn)
  }

  ghost function FoundAmong(f: Forest, udn: CString): Option<Tree>
    reads DevsOf(f)`node
    decreases f
  {
    if f.Nil? then None
    else
      var found := Found(f.first, udn);
      if found.Some? then found else FoundAmong(f.rest, udn)
  }

  /** `mupnp_device_findbyudnintree`. */
  function FindByUdnInTree(dev: DeviceObject, udn: CString, ghost t: Tree): (r: DeviceObject?)
    requires t.dev == dev && Linked(t, dev.parent)
    reads Devs(t), Servs(t)`owner
    ensures r == if Found(t, udn).Some? then Found(t, udn).value.dev else null
    decreases t
  {
    if IsBlank(udn) then null
    else if StrEq(dev.node.udn, udn) then dev
    else FindByUdnAmong(dev.devices, udn, t.kids, dev)
  }

  function FindByUdnAmong(first: DeviceObject?, udn: CString, ghost f: Forest, ghost parent: DeviceObject)
    : (r: DeviceObject?)
    requires first == Head(f) && LinkedAll(f, parent)
    reads DevsOf(f), ServsOf(f)`owner
    ensures r == if FoundAmong(f, udn).Some? then FoundAmong(f, udn).value.dev else null
    decreases f
  {
    if first == null then null
    else
      assert DevsOf(f) == Devs(f.first) + DevsOf(f.rest) && ServsOf(f) == Servs(f.first) + ServsOf(f.rest);
      assert DevsOf(f.first.kids) <= Devs(f.first) && f.first.dev in Devs(f.first);
      assert Linked(f.first, parent);
      var found := FindByUdnInTree(first, udn, f.first);
      if found != null then found else FindByUdnAmong(first.next, udn, f.rest, parent)
  }

  /** The device found is the one the value-level search finds, and it is part of the tree. */
  lemma {:induction false} FoundIsFind(t: Tree, udn: CString)
    requires Linked(t, t.dev.parent)
    ensures Found(t, udn).None? <==> T.FindByUdn(Value(t), udn).None?
    ensures Found(t, udn).Some? ==>
      var r := Found(t, udn).value;
      && Linked(r, r.dev.parent) && Servs(r) <= Servs(t) && T.FindByUdn(Value(t), udn) == Some(Value(r))
    decreases t
  {
    if !IsBlank(udn) && !StrEq(t.dev.node.udn, udn) {
      FoundAmongIsFind(t.kids, t.dev, udn);
    }
  }

  lemma {:induction false} FoundAmongIsFind(f: Forest, parent: DeviceObject, udn: CString)
    requires LinkedAll(f, parent)
    ensures FoundAmong(f, udn).None? <==> T.FindByUdnAmong(Values(f), udn).None?
    ensures FoundAmong(f, udn).Some? ==>
      var r := FoundAmong(f, udn).value;
      && Linked(r, r.dev.parent) && Servs(r) <= ServsOf(f) && T.FindByUdnAmong(Values(f), udn) == Some(Value(r))
    decreases f
  {
    if f.Cons? {
      FoundIsFind(f.first, udn);
      assert Values(f)[1..] == Values(f.rest);
      if Found(f.first, udn).None? {
        FoundAmongIsFind(f.rest, parent, udn);
      }
    }
  }

  // ---------------------------------------------------------------------
  // Copying subscriptions
  // ---------------------------------------------------------------------

  /** The search for the old service with the new service's id, and the copy of its subscription. */
  method CopyOneSubscription(newService: ServiceObject, oldServices: seq<ServiceObject>)
    requires newService !in oldServices
    modifies newService`sid, newService`timeout, newService`timestamp, newService`eventKey
    ensures ServiceValue(newService) == T.Carried(old(ServiceValue(newService)), old(ServiceValues(oldServices)))
  {
    ghost var olds := ServiceValues(oldServices);
    var j := 0;
    while j < |oldServices|
      invariant 0 <= j <= |oldServices|
      invariant T.OwnedService(olds, newService.node.serviceId) == T.OwnedService(olds[j..], newService.node.serviceId)
    {
      var oldService := oldServices[j];
      assert olds[j..][0] == ServiceValue(oldService) && olds[j..][1..] == olds[j + 1..];
      if StrEq(oldService.node.serviceId, newService.node.serviceId) {
        if oldService.sid != "" {
          newService.sid := oldService.sid;
          newService.timeout := oldService.timeout;
          newService.timestamp := oldService.timestamp;
          newService.eventKey := oldService.eventKey;
        }
        return;
      }
      j := j + 1;
    }
  }

  /** The loop over the services of one device. */
  method CopyServiceSubscriptions(newServices: seq<ServiceObject>, oldServices: seq<ServiceObject>)
    requires SetOf(newServices) !! SetOf(oldServices) && Distinct(newServices)
    modifies SetOf(newServices)`sid, SetOf(newServices)`timeout, SetOf(newServices)`timestamp, SetOf(newServices)`eventKey
    ensures ServiceValues(newServices) == T.CarriedAll(old(ServiceValues(newServices)), old(ServiceValues(oldServices)))
  {
    ghost var olds := ServiceValues(oldServices);
    var i := 0;
    while i < |newServices|
      invariant 0 <= i <= |newServices|
      invariant ServiceValues(oldServices) == olds
      invariant forall k | 0 <= k < i ::
                  ServiceValue(newServices[k]) == T.Carried(old(ServiceValue(newServices[k])), olds)
      invariant forall k | i <= k < |newServices| :: ServiceValue(newServices[k]) == old(ServiceValue(newServices[k]))
    {
      assert newServices[i] in SetOf(newServices);
      CopyOneSubscription(newServices[i], oldServices);
      i := i + 1;
    }
  }

  /** `mupnp_device_copysubscriptions`. */
  method CopySubscriptions(newDev: DeviceObject, oldRoot: DeviceObject, ghost nt: Tree, ghost ot: Tree)
    requires nt.dev == newDev && Linked(nt, newDev.parent) && Separate(nt)
    requires ot.dev == oldRoot && Linked(ot, oldRoot.parent)
    requires Servs(nt) !! Servs(ot)
    modifies Servs(nt)`sid, Servs(nt)`timeout, Servs(nt)`timestamp, Servs(nt)`eventKey
    ensures Value(nt) == old(T.CopySubscriptions(Value(nt), Value(ot)))
    decreases nt, 1
  {
    assert Linked(nt, newDev.parent) && Separate(nt);
    hide SeparateAll, LinkedAll, Values, ServiceValues, T.CopySubscriptionsAmong, T.CarriedAll, T.ServicesOfUdn;
    CopyOwnPart(newDev, oldRoot, nt, ot);
    CopyChildrenPart(newDev, oldRoot, nt, ot);
  }

  method CopyOwnPart(newDev: DeviceObject, oldRoot: DeviceObject, ghost nt: Tree, ghost ot: Tree)
    requires nt.dev == newDev && newDev.services == nt.services && Distinct(nt.services)
    requires LinkedAll(nt.kids, newDev) && SetOf(nt.services) !! ServsOf(nt.kids)
    requires ot.dev == oldRoot && Linked(ot, oldRoot.parent)
    requires SetOf(nt.services) !! Servs(ot)
    modifies SetOf(nt.services)`sid, SetOf(nt.services)`timeout, SetOf(nt.services)`timestamp, SetOf(nt.services)`eventKey
    ensures ServiceValues(nt.services)
         == old(T.CarriedAll(ServiceValues(nt.services), T.ServicesOfUdn(Value(ot), newDev.node.udn)))
    ensures Values(nt.kids) == old(Values(nt.kids)) && Value(ot) == old(Value(ot))
    ensures LinkedAll(nt.kids, newDev) && Linked(ot, oldRoot.parent)
  {
    assert allocated(Devs(ot)) && allocated(Servs(ot)) && allocated(DevsOf(nt.kids)) && allocated(ServsOf(nt.kids));
    hide *;
    CopyOwnSubscriptions(newDev, oldRoot, nt, ot);
  }

  method CopyChildrenPart(newDev: DeviceObject, oldRoot: DeviceObject, ghost nt: Tree, ghost ot: Tree)
    requires nt.dev == newDev && newDev.devices == Head(nt.kids) && LinkedAll(nt.kids, newDev) && SeparateAll(nt.kids)
    requires SetOf(nt.services) !! ServsOf(nt.kids)
    requires ot.dev == oldRoot && Linked(ot, oldRoot.parent)
    requires ServsOf(nt.kids) !! Servs(ot)
    modifies ServsOf(nt.kids)`sid, ServsOf(nt.kids)`timeout, ServsOf(nt.kids)`timestamp, ServsOf(nt.kids)`eventKey
    ensures Values(nt.kids) == old(T.CopySubscriptionsAmong(Values(nt.kids), Value(ot)))
    ensures ServiceValues(nt.services) == old(ServiceValues(nt.services))
    decreases nt, 0
  {
    assert allocated(SetOf(nt.services));
    hide *;
    CopySubscriptionsAmong(newDev.devices, oldRoot, newDev, nt.kids, ot);
  }

  /** The part that concerns the device's own services. */
  method CopyOwnSubscriptions(newDev: DeviceObject, oldRoot: DeviceObject, ghost nt: Tree, ghost ot: Tree)
    requires nt.dev == newDev && newDev.services == nt.services && Distinct(nt.services)
    requires ot.dev == oldRoot && Linked(ot, oldRoot.parent)
    requires SetOf(nt.services) !! Servs(ot)
    modifies SetOf(nt.services)`sid, SetOf(nt.services)`timeout, SetOf(nt.services)`timestamp, SetOf(nt.services)`eventKey
    ensures ServiceValues(nt.services)
         == old(T.CarriedAll(ServiceValues(nt.services), T.ServicesOfUdn(Value(ot), newDev.node.udn)))
  {
    FoundIsFind(ot, newDev.node.udn);
    hide Found, FoundAmong, T.FindByUdn, T.FindByUdnAmong;
    assert allocated(Devs(ot)) && allocated(Servs(ot));
    ghost var vs := ServiceValues(nt.services);
    var oldDev := FindByUdnInTree(oldRoot, newDev.node.udn, ot);
    if oldDev != null {
      CopyServiceSubscriptions(newDev.services, oldDev.services);
    } else {
      assert vs == T.CarriedAll(vs, []);
    }
  }

  lemma CopyAmongStep(first: T.Device, rest: seq<T.Device>, oldRoot: T.Device)
    ensures T.CopySubscriptionsAmong([first] + rest, oldRoot)
         == [T.CopySubscriptions(first, oldRoot)] + T.CopySubscriptionsAmong(rest, oldRoot)
  {
    assert ([first] + rest)[1..] == rest;
  }

  /** The walk over the embedded devices. */
  method CopySubscriptionsAmong(first: DeviceObject?, oldRoot: DeviceObject, ghost parent: DeviceObject,
                                ghost nf: Forest, ghost ot: Tree)
    requires first == Head(nf) && LinkedAll(nf, parent) && SeparateAll(nf)
    requires ot.dev == oldRoot && Linked(ot, oldRoot.parent)
    requires ServsOf(nf) !! Servs(ot)
    modifies ServsOf(nf)`sid, ServsOf(nf)`timeout, ServsOf(nf)`timestamp, ServsOf(nf)`eventKey
    ensures Values(nf) == old(T.CopySubscriptionsAmong(Values(nf), Value(ot)))
    decreases nf, 1
  {
    if first != null {
      ghost var vo, v1, vr := Value(ot), Value(nf.first), Values(nf.rest);
      CopyAmongStep(v1, vr, vo);
      ForestParts(nf, parent, Servs(ot));
      hide *;
      CopyFirst(first, oldRoot, parent, nf, ot);
      CopyRest(first.next, oldRoot, parent, nf, ot);
      ForestValues(nf);
    }
  }

  /** The first device of the list; the others and the old tree stay as they are. */
  method CopyFirst(first: DeviceObject, oldRoot: DeviceObject, ghost parent: DeviceObject, ghost nf: Forest, ghost ot: Tree)
    requires nf.Cons? && first == Head(nf) && LinkedAll(nf, parent) && SeparateAll(nf)
    requires ot.dev == oldRoot && Linked(ot, oldRoot.parent)
    requires ServsOf(nf) !! Servs(ot)
    modifies Servs(nf.first)`sid, Servs(nf.first)`timeout, Servs(nf.first)`timestamp, Servs(nf.first)`eventKey
    ensures Value(nf.first) == old(T.CopySubscriptions(Value(nf.first), Value(ot)))
    ensures Values(nf.rest) == old(Values(nf.rest)) && Value(ot) == old(Value(ot))
    ensures LinkedAll(nf.rest, parent) && Linked(ot, oldRoot.parent)
    decreases nf, 0
  {
    ForestParts(nf, parent, Servs(ot));
    assert allocated(DevsOf(nf.rest)) && allocated(ServsOf(nf.rest));
    hide *;
    CopyKeepingOld(first, oldRoot, nf.first, ot);
  }

  method CopyKeepingOld(newDev: DeviceObject, oldRoot: DeviceObject, ghost nt: Tree, ghost ot: Tree)
    requires nt.dev == newDev && Linked(nt, newDev.parent) && Separate(nt)
    requires ot.dev == oldRoot && Linked(ot, oldRoot.parent)
    requires Servs(nt) !! Servs(ot)
    modifies Servs(nt)`sid, Servs(nt)`timeout, Servs(nt)`timestamp, Servs(nt)`eventKey
    ensures Value(nt) == old(T.CopySubscriptions(Value(nt), Value(ot)))
    ensures Value(ot) == old(Value(ot)) && Linked(ot, oldRoot.parent)
    decreases nt, 2
  {
    assert allocated(Devs(ot)) && allocated(Servs(ot));
    hide *;
    CopySubscriptions(newDev, oldRoot, nt, ot);
  }

  method CopyRest(second: DeviceObject?, oldRoot: DeviceObject, ghost parent: DeviceObject, ghost nf: Forest, ghost ot: Tree)
    requires nf.Cons? && second == Head(nf.rest) && LinkedAll(nf.rest, parent) && SeparateAll(nf.rest)
    requires ot.dev == oldRoot && Linked(ot, oldRoot.parent)
    requires ServsOf(nf.rest) !! Servs(ot) && ServsOf(nf.rest) !! Servs(nf.first)
    modifies ServsOf(nf.rest)`sid, ServsOf(nf.rest)`timeout, ServsOf(nf.rest)`timestamp, ServsOf(nf.rest)`eventKey
    ensures Values(nf.rest) == old(T.CopySubscriptionsAmong(Values(nf.rest), Value(ot)))
    ensures Value(nf.first) == old(Value(nf.first))
    decreases nf, 0
  {
    assert allocated(Devs(nf.first)) && allocated(Servs(nf.first));
    hide *;
    CopySubscriptionsAmong(second, oldRoot, parent, nf.rest, ot);
  }

  lemma ForestParts(f: Forest, parent: DeviceObject, others: set<ServiceObject>)
    requires f.Cons? && LinkedAll(f, parent) && SeparateAll(f) && ServsOf(f) !! others
    ensures f.first.dev.parent == parent && Linked(f.first, parent)
    ensures f.first.dev.next == Head(f.rest) && LinkedAll(f.rest, parent)
    ensures Separate(f.first) && SeparateAll(f.rest)
    ensures Servs(f.first) !! ServsOf(f.rest) && Servs(f.first) !! others && ServsOf(f.rest) !! others
    ensures ServsOf(f) == Servs(f.first) + ServsOf(f.rest)
  {
  }

  lemma ForestValues(f: Forest)
    requires f.Cons?
    ensures Values(f) == [Value(f.first)] + Values(f.rest)
  {
  }

  // ---------------------------------------------------------------------
  // Exchanging two descriptions
  // ---------------------------------------------------------------------

  method SetOwners(services: seq<ServiceObject>, owner: DeviceObject)
    modifies SetOf(services)`owner
    ensures OwnedBy(services, owner)
  {
    var i := 0;
    while i < |services|
      invariant 0 <= i <= |services|
      invariant forall k | 0 <= k < i :: services[k].owner == owner
    {
      assert services[i] in SetOf(services);
      services[i].owner := owner;
      i := i + 1;
    }
  }

  ghost function HeadSet(f: Forest): (r: set<DeviceObject>)
    ensures r <= DevsOf(f)
  {
    if f.Nil? then {} else {f.first.dev} + HeadSet(f.rest)
  }

  method SetParents(first: DeviceObject?, parent: DeviceObject, ghost oldParent: DeviceObject, ghost f: Forest)
    requires first == Head(f) && LinkedAll(f, oldParent) && SeparateAll(f)
    modifies HeadSet(f)`parent
    ensures LinkedAll(f, parent)
    decreases f
  {
    if first != null {
      assert allocated(DevsOf(f)) && allocated(ServsOf(f));
      first.parent := parent;
      assert Linked(f.first, parent);
      SetParents(first.next, parent, oldParent, f.rest);
    }
  }

  /** The tree `t` with another device object at its root. */
  ghost function Rehomed(t: Tree, dev: DeviceObject): Tree {
    Tree(dev, t.services, t.kids)
  }

  ghost predicate Apart(a: Tree, b: Tree) {
    Separate(a) && Separate(b) && Devs(a) !! Devs(b) && Servs(a) !! Servs(b)
  }

  /**
   * `mupnp_device_swapdescription`: each object keeps its identity, parent and
   * place in its list, and takes over the other one's description; every
   * child and service then points to the object whose list holds it.
   */
  method SwapDescription(dst: DeviceObject, src: DeviceObject, ghost td: Tree, ghost ts: Tree)
    requires td.dev == dst && Linked(td, dst.parent)
    requires ts.dev == src && Linked(ts, src.parent)
    requires Apart(td, ts)
    modifies dst`node, dst`rootNodes, dst`devices, dst`services, dst`icons
    modifies src`node, src`rootNodes, src`devices, src`services, src`icons
    modifies SetOf(td.services)`owner, SetOf(ts.services)`owner, HeadSet(td.kids)`parent, HeadSet(ts.kids)`parent
    ensures Linked(Rehomed(ts, dst), dst.parent) && Value(Rehomed(ts, dst)) == old(Value(ts))
    ensures Linked(Rehomed(td, src), src.parent) && Value(Rehomed(td, src)) == old(Value(td))
    ensures dst.rootNodes == old(src.rootNodes) && dst.icons == old(src.icons)
    ensures src.rootNodes == old(dst.rootNodes) && src.icons == old(dst.icons)
    ensures Apart(Rehomed(ts, dst), Rehomed(td, src))
  {
    ApartFootprints(td, ts);
    assert LinkedAll(td.kids, dst) && LinkedAll(ts.kids, src);
    hide Apart, Separate, SeparateAll, LinkedAll, ServiceValues, Values, Devs, DevsOf, Servs, ServsOf, HeadSet, OwnedBy;
    ExchangeDescriptions(dst, src, td, ts);
    PointBothBack(dst, src, td, ts);
  }

  /** First the device that receives the new description, then the other one. */
  method PointBothBack(dst: DeviceObject, src: DeviceObject, ghost td: Tree, ghost ts: Tree)
    requires td.dev == dst && ts.dev == src && Apart(td, ts)
    requires dst.services == ts.services && dst.devices == Head(ts.kids) && LinkedAll(ts.kids, src)
    requires src.services == td.services && src.devices == Head(td.kids) && LinkedAll(td.kids, dst)
    modifies SetOf(td.services)`owner, SetOf(ts.services)`owner, HeadSet(td.kids)`parent, HeadSet(ts.kids)`parent
    ensures LinkedAll(ts.kids, dst) && OwnedBy(ts.services, dst)
    ensures LinkedAll(td.kids, src) && OwnedBy(td.services, src)
    ensures Values(td.kids) == old(Values(td.kids)) && ServiceValues(td.services) == old(ServiceValues(td.services))
    ensures Values(ts.kids) == old(Values(ts.kids)) && ServiceValues(ts.services) == old(ServiceValues(ts.services))
  {
    ApartFootprints(td, ts);
    hide Apart, Separate, SeparateAll, LinkedAll, ServiceValues, Values, Devs, DevsOf, Servs, ServsOf, HeadSet, OwnedBy;
    PointBack(dst, ts, src, td, dst);
    PointBack(src, td, dst, ts, dst);
  }

  lemma ApartFootprints(td: Tree, ts: Tree)
    requires Apart(td, ts)
    ensures SeparateAll(td.kids) && SeparateAll(ts.kids) && td.dev != ts.dev
    ensures td.dev !in DevsOf(td.kids) && td.dev !in DevsOf(ts.kids)
    ensures ts.dev !in DevsOf(td.kids) && ts.dev !in DevsOf(ts.kids)
    ensures DevsOf(td.kids) !! DevsOf(ts.kids) && ServsOf(td.kids) !! ServsOf(ts.kids)
    ensures SetOf(td.services) !! SetOf(ts.services)
    ensures SetOf(td.services) !! ServsOf(td.kids) && SetOf(td.services) !! ServsOf(ts.kids)
    ensures SetOf(ts.services) !! ServsOf(td.kids) && SetOf(ts.services) !! ServsOf(ts.kids)
    ensures Apart(Rehomed(ts, td.dev), Rehomed(td, ts.dev))
  {
  }

  /** The exchange seen from the two trees, which do not contain the two objects and so do not change. */
  method ExchangeDescriptions(dst: DeviceObject, src: DeviceObject, ghost td: Tree, ghost ts: Tree)
    requires dst !in DevsOf(td.kids) && dst !in DevsOf(ts.kids) && src !in DevsOf(td.kids) && src !in DevsOf(ts.kids)
    requires LinkedAll(td.kids, dst) && LinkedAll(ts.kids, src)
    modifies dst`node, dst`rootNodes, dst`devices, dst`services, dst`icons
    modifies src`node, src`rootNodes, src`devices, src`services, src`icons
    ensures dst.node == old(src.node) && src.node == old(dst.node)
    ensures dst.rootNodes == old(src.rootNodes) && src.rootNodes == old(dst.rootNodes)
    ensures dst.devices == old(src.devices) && src.devices == old(dst.devices)
    ensures dst.services == old(src.services) && src.services == old(dst.services)
    ensures dst.icons == old(src.icons) && src.icons == old(dst.icons)
    ensures LinkedAll(td.kids, dst) && LinkedAll(ts.kids, src)
    ensures Values(td.kids) == old(Values(td.kids)) && ServiceValues(td.services) == old(ServiceValues(td.services))
    ensures Values(ts.kids) == old(Values(ts.kids)) && ServiceValues(ts.services) == old(ServiceValues(ts.services))
  {
    assert allocated(DevsOf(td.kids)) && allocated(DevsOf(ts.kids));
    assert allocated(ServsOf(td.kids)) && allocated(ServsOf(ts.kids));
    hide DevsOf, ServsOf, LinkedAll, Values, ServiceValues;
    ExchangeFields(dst, src);
  }

  method ExchangeFields(dst: DeviceObject, src: DeviceObject)
    modifies dst`node, dst`rootNodes, dst`devices, dst`services, dst`icons
    modifies src`node, src`rootNodes, src`devices, src`services, src`icons
    ensures dst.node == old(src.node) && src.node == old(dst.node)
    ensures dst.rootNodes == old(src.rootNodes) && src.rootNodes == old(dst.rootNodes)
    ensures dst.devices == old(src.devices) && src.devices == old(dst.devices)
    ensures dst.services == old(src.services) && src.services == old(dst.services)
    ensures dst.icons == old(src.icons) && src.icons == old(dst.icons)
  {
    var rootNodes, node, devices, services, icons := dst.rootNodes, dst.node, dst.devices, dst.services, dst.icons;

    dst.rootNodes := src.rootNodes;
    dst.node := src.node;
    dst.devices := src.devices;
    dst.services := src.services;
    dst.icons := src.icons;

    src.rootNodes := rootNodes;
    src.node := node;
    src.devices := devices;
    src.services := services;
    src.icons := icons;
  }

  /**
   * The loops that make the services and children of `dev`'s new lists point
   * to it; the `other` tree is not affected.
   */
  method PointBack(dev: DeviceObject, ghost t: Tree, ghost oldOwner: DeviceObject,
                   ghost other: Tree, ghost otherOwner: DeviceObject)
    requires dev.services == t.services && dev.devices == Head(t.kids)
    requires LinkedAll(t.kids, oldOwner) && SeparateAll(t.kids) && dev !in DevsOf(t.kids)
    requires SetOf(t.services) !! ServsOf(t.kids)
    requires LinkedAll(other.kids, otherOwner)
    requires SetOf(t.services) !! SetOf(other.services) && SetOf(t.services) !! ServsOf(other.kids)
    requires DevsOf(t.kids) !! DevsOf(other.kids)
    modifies SetOf(t.services)`owner, HeadSet(t.kids)`parent
    ensures LinkedAll(t.kids, dev) && OwnedBy(t.services, dev)
    ensures LinkedAll(other.kids, otherOwner)
    ensures old(OwnedBy(other.services, otherOwner)) ==> OwnedBy(other.services, otherOwner)
    ensures Values(t.kids) == old(Values(t.kids)) && ServiceValues(t.services) == old(ServiceValues(t.services))
    ensures Values(other.kids) == old(Values(other.kids))
    ensures ServiceValues(other.services) == old(ServiceValues(other.services))
  {
    hide LinkedAll, SeparateAll, Values, ServiceValues, DevsOf, ServsOf, HeadSet, OwnedBy;
    PointServicesBack(dev, t, oldOwner, other, otherOwner);
    PointChildrenBack(dev, t, oldOwner, other, otherOwner);
  }

  method PointServicesBack(dev: DeviceObject, ghost t: Tree, ghost oldOwner: DeviceObject,
                           ghost other: Tree, ghost otherOwner: DeviceObject)
    requires dev.services == t.services
    requires LinkedAll(t.kids, oldOwner) && LinkedAll(other.kids, otherOwner)
    requires SetOf(t.services) !! ServsOf(t.kids)
    requires SetOf(t.services) !! SetOf(other.services) && SetOf(t.services) !! ServsOf(other.kids)
    modifies SetOf(t.services)`owner
    ensures OwnedBy(t.services, dev) && LinkedAll(t.kids, oldOwner) && LinkedAll(other.kids, otherOwner)
    ensures old(OwnedBy(other.services, otherOwner)) ==> OwnedBy(other.services, otherOwner)
    ensures Values(t.kids) == old(Values(t.kids)) && ServiceValues(t.services) == old(ServiceValues(t.services))
    ensures Values(other.kids) == old(Values(other.kids))
    ensures ServiceValues(other.services) == old(ServiceValues(other.services))
  {
    assert allocated(DevsOf(t.kids)) && allocated(ServsOf(t.kids));
    assert allocated(DevsOf(other.kids)) && allocated(ServsOf(other.kids));
    hide LinkedAll, Values, ServiceValues, DevsOf, ServsOf;
    SetOwners(dev.services, dev);
  }

  method PointChildrenBack(dev: DeviceObject, ghost t: Tree, ghost oldOwner: DeviceObject,
                           ghost other: Tree, ghost otherOwner: DeviceObject)
    requires dev.devices == Head(t.kids)
    requires LinkedAll(t.kids, oldOwner) && SeparateAll(t.kids) && LinkedAll(other.kids, otherOwner)
    requires DevsOf(t.kids) !! DevsOf(other.kids)
    modifies HeadSet(t.kids)`parent
    ensures LinkedAll(t.kids, dev) && LinkedAll(other.kids, otherOwner)
    ensures Values(t.kids) == old(Values(t.kids)) && ServiceValues(t.services) == old(ServiceValues(t.services))
    ensures Values(other.kids) == old(Values(other.kids))
    ensures ServiceValues(other.services) == old(ServiceValues(other.services))
  {
    assert allocated(DevsOf(other.kids)) && allocated(ServsOf(other.kids));
    hide LinkedAll, SeparateAll, Values, ServiceValues, DevsOf, ServsOf, HeadSet;
    PointOwnChildrenBack(dev, t, oldOwner);
  }

  method PointOwnChildrenBack(dev: DeviceObject, ghost t: Tree, ghost oldOwner: DeviceObject)
    requires dev.devices == Head(t.kids)
    requires LinkedAll(t.kids, oldOwner) && SeparateAll(t.kids)
    modifies HeadSet(t.kids)`parent
    ensures LinkedAll(t.kids, dev)
    ensures Values(t.kids) == old(Values(t.kids)) && ServiceValues(t.services) == old(ServiceValues(t.services))
  {
    assert allocated(DevsOf(t.kids)) && allocated(ServsOf(t.kids));
    hide LinkedAll, SeparateAll, Values, ServiceValues, DevsOf, ServsOf, HeadSet;
    SetParents(dev.devices, dev, oldOwner, t.kids);
  }

  /** Swapping twice restores both objects and every back pointer. */
  method SwapTwice(dst: DeviceObject, src: DeviceObject, ghost td: Tree, ghost ts: Tree)
    requires td.dev == dst && Linked(td, dst.parent)
    requires ts.dev == src && Linked(ts, src.parent)
    requires Apart(td, ts)
    modifies dst`node, dst`rootNodes, dst`devices, dst`services, dst`icons
    modifies src`node, src`rootNodes, src`devices, src`services, src`icons
    modifies SetOf(td.services)`owner, SetOf(ts.services)`owner, HeadSet(td.kids)`parent, HeadSet(ts.kids)`parent
    ensures Linked(td, dst.parent) && Linked(ts, src.parent)
    ensures Value(td) == old(Value(td)) && Value(ts) == old(Value(ts))
    ensures dst.rootNodes == old(dst.rootNodes) && dst.icons == old(dst.icons)
    ensures src.rootNodes == old(src.rootNodes) && src.icons == old(src.icons)
  {
    SwapDescription(dst, src, td, ts);
    SwapDescription(dst, src, Rehomed(ts, dst), Rehomed(td, src));
  }

  // ---------------------------------------------------------------------
  // The commit
  // ---------------------------------------------------------------------

  /** What the cache knows of a root device. */
  ghost function CachedValue(dev: DeviceObject, t: Tree): Cached
    reads dev`packet, dev`httpPort
    reads Devs(t)`node, Servs(t)`sid, Servs(t)`timeout, Servs(t)`timestamp, Servs(t)`eventKey
  {
    Cached(Value(t), dev.packet, dev.httpPort)
  }

  /** The test that decides whether the description is replaced. */
  method IsDescriptionChanged(dev: DeviceObject, newDev: DeviceObject, packet: Packet, ghost td: Tree, ghost tn: Tree)
    returns (changed: bool)
    requires td.dev == dev && Linked(td, dev.parent) && tn.dev == newDev && Linked(tn, newDev.parent)
    ensures changed == old(DescriptionChanged(CachedValue(dev, td), CachedValue(newDev, tn), packet))
  {
    hide Linked, Value, T.SameStructure;
    changed := !OptStrEq(dev.packet.configId, packet.configId);
    if !changed {
      var same := HasSameStructure(dev, newDev, td, tn);
      changed := !same;
    }
  }

  /** Carry the subscriptions over, then exchange the descriptions. */
  method ReplaceDescription(dev: DeviceObject, newDev: DeviceObject, ghost td: Tree, ghost tn: Tree)
    requires td.dev == dev && Linked(td, dev.parent)
    requires tn.dev == newDev && Linked(tn, newDev.parent)
    requires Apart(td, tn)
    modifies dev`node, dev`rootNodes, dev`devices, dev`services, dev`icons
    modifies newDev`node, newDev`rootNodes, newDev`devices, newDev`services, newDev`icons
    modifies Servs(tn)`sid, Servs(tn)`timeout, Servs(tn)`timestamp, Servs(tn)`eventKey
    modifies SetOf(td.services)`owner, SetOf(tn.services)`owner, HeadSet(td.kids)`parent, HeadSet(tn.kids)`parent
    ensures Linked(Rehomed(tn, dev), dev.parent) && Linked(Rehomed(td, newDev), newDev.parent)
    ensures Value(Rehomed(tn, dev)) == old(T.CopySubscriptions(Value(tn), Value(td)))
    ensures Value(Rehomed(td, newDev)) == old(Value(td))
    ensures dev.rootNodes == old(newDev.rootNodes) && newDev.rootNodes == old(dev.rootNodes)
    ensures Apart(Rehomed(tn, dev), Rehomed(td, newDev))
  {
    assert allocated(Devs(td)) && allocated(Servs(td)) && allocated(Devs(tn)) && allocated(Servs(tn));
    hide Linked, Value, Separate, Devs, Servs, HeadSet;
    CopySubscriptions(newDev, dev, tn, td);
    SwapDescription(dev, newDev, td, tn);
  }

  /** The description part of the update, for two objects with the same UDN. */
  method CommitDescription(dev: DeviceObject, newDev: DeviceObject, packet: Packet, ghost td: Tree, ghost tn: Tree)
    returns (ghost ad: Tree, ghost an: Tree)
    requires td.dev == dev && Linked(td, dev.parent)
    requires tn.dev == newDev && Linked(tn, newDev.parent)
    requires Apart(td, tn)
    modifies dev`node, dev`rootNodes, dev`devices, dev`services, dev`icons
    modifies newDev`node, newDev`rootNodes, newDev`devices, newDev`services, newDev`icons
    modifies Servs(tn)`sid, Servs(tn)`timeout, Servs(tn)`timestamp, Servs(tn)`eventKey
    modifies SetOf(td.services)`owner, SetOf(tn.services)`owner, HeadSet(td.kids)`parent, HeadSet(tn.kids)`parent
    ensures var changed := old(DescriptionChanged(CachedValue(dev, td), CachedValue(newDev, tn), packet));
            && (changed ==>
                  && ad == Rehomed(tn, dev) && an == Rehomed(td, newDev)
                  && Value(ad) == old(T.CopySubscriptions(Value(tn), Value(td))) && Value(an) == old(Value(td))
                  && dev.rootNodes == old(newDev.rootNodes) && newDev.rootNodes == old(dev.rootNodes))
            && (!changed ==>
                  && ad == td && an == tn && Value(ad) == old(Value(td)) && Value(an) == old(Value(tn))
                  && dev.rootNodes == old(dev.rootNodes) && newDev.rootNodes == old(newDev.rootNodes))
    ensures Linked(ad, dev.parent) && Linked(an, newDev.parent) && Apart(ad, an)
  {
    ad, an := td, tn;
    assert allocated(Devs(td)) && allocated(Servs(td)) && allocated(Devs(tn)) && allocated(Servs(tn));
    hide Linked, Value, Separate, Apart, Devs, Servs, HeadSet, T.CopySubscriptions, DescriptionChanged;
    ghost var vd, vn := Value(td), Value(tn);
    var changed := IsDescriptionChanged(dev, newDev, packet, td, tn);
    assert Value(td) == vd && Value(tn) == vn && Linked(td, dev.parent) && Linked(tn, newDev.parent);
    if changed {
      ReplaceDescription(dev, newDev, td, tn);
      ad, an := Rehomed(tn, dev), Rehomed(td, newDev);
    }
  }

  /**
   * `mupnp_device_updatefromdevice`. `td` and `tn` are the trees held by the
   * two objects before the call, `ad` and `an` those held after it.
   */
  method UpdateFromDeviceInPlace(dev: DeviceObject, newDev: DeviceObject, packet: Packet, ghost td: Tree, ghost tn: Tree)
    returns (ok: bool, ghost ad: Tree, ghost an: Tree)
    requires td.dev == dev && Linked(td, dev.parent)
    requires tn.dev == newDev && Linked(tn, newDev.parent)
    requires Apart(td, tn)
    modifies dev`node, dev`rootNodes, dev`devices, dev`services, dev`icons, dev`packet, dev`httpPort
    modifies newDev`node, newDev`rootNodes, newDev`devices, newDev`services, newDev`icons
    modifies Servs(tn)`sid, Servs(tn)`timeout, Servs(tn)`timestamp, Servs(tn)`eventKey
    modifies SetOf(td.services)`owner, SetOf(tn.services)`owner, HeadSet(td.kids)`parent, HeadSet(tn.kids)`parent
    ensures (CachedValue(dev, ad), Value(an), ok)
         == old(UpdateFromDevice(CachedValue(dev, td), CachedValue(newDev, tn), packet))
    ensures Linked(ad, dev.parent) && Linked(an, newDev.parent) && Apart(ad, an)
    ensures if ok && old(DescriptionChanged(CachedValue(dev, td), CachedValue(newDev, tn), packet))
            then && ad == Rehomed(tn, dev) && an == Rehomed(td, newDev)
                 && dev.rootNodes == old(newDev.rootNodes) && newDev.rootNodes == old(dev.rootNodes)
            else && ad == td && an == tn
                 && dev.rootNodes == old(dev.rootNodes) && newDev.rootNodes == old(newDev.rootNodes)
  {
    ad, an := td, tn;
    assert Value(td).node == dev.node && Value(tn).node == newDev.node;
    hide Linked, Value, Separate, Apart, Devs, Servs, HeadSet, T.CopySubscriptions, DescriptionChanged;
    if !StrEq(newDev.node.udn, dev.node.udn) {
      return false, ad, an;
    }
    ad, an := CommitDescription(dev, newDev, packet, td, tn);
    SetPacketAndPort(dev, packet, newDev.httpPort, newDev, ad, an);
    ok := true;
  }

  method SetPacketAndPort(dev: DeviceObject, packet: Packet, httpPort: int,
                          ghost newDev: DeviceObject, ghost ad: Tree, ghost an: Tree)
    modifies dev`packet, dev`httpPort
    ensures dev.packet == packet && dev.httpPort == httpPort
    ensures Value(ad) == old(Value(ad)) && Value(an) == old(Value(an))
    ensures old(Linked(ad, dev.parent)) ==> Linked(ad, dev.parent)
    ensures old(Linked(an, newDev.parent)) ==> Linked(an, newDev.parent)
  {
    dev.packet := packet;
    dev.httpPort := httpPort;
  }

  /**
   * `mupnp_device_updatefromssdppacket`. `newDev` is the device into which the
   * new LOCATION was parsed; `scpdParsed` is whether its SCPDs could be read.
   */
  method UpdateFromSsdpPacketInPlace(dev: DeviceObject, packet: Packet, newDev: DeviceObject, parseSuccess: bool,
                                     newHttpPort: int, scpdParsed: bool, ghost td: Tree, ghost tn: Tree)
    returns (ghost ad: Tree)
    requires td.dev == dev && Linked(td, dev.parent)
    requires tn.dev == newDev && Linked(tn, newDev.parent)
    requires Apart(td, tn)
    modifies dev`node, dev`rootNodes, dev`devices, dev`services, dev`icons, dev`packet, dev`httpPort
    modifies newDev`node, newDev`rootNodes, newDev`devices, newDev`services, newDev`icons, newDev`packet, newDev`httpPort
    modifies Servs(tn)`sid, Servs(tn)`timeout, Servs(tn)`timestamp, Servs(tn)`eventKey
    modifies SetOf(td.services)`owner, SetOf(tn.services)`owner, HeadSet(td.kids)`parent, HeadSet(tn.kids)`parent
    ensures CachedValue(dev, ad)
         == old(var response := if parseSuccess then Parsed(Value(tn), newHttpPort, scpdParsed) else Failed;
                UpdateFromSsdpPacket(CachedValue(dev, td), packet, response))
    ensures Linked(ad, dev.parent) && (ad == td || ad == Rehomed(tn, dev))
  {
    ad := td;
    assert Value(td).node == dev.node && Value(tn).node == newDev.node;
    assert allocated(Devs(td)) && allocated(Servs(td)) && allocated(Devs(tn)) && allocated(Servs(tn));
    ghost var vd, vn := Value(td), Value(tn);
    hide Linked, Value, Separate, Apart, Devs, Servs, HeadSet, T.CopySubscriptions, T.SameStructure;
    if StrEq(dev.packet.location, packet.location) {
      SetPacketAndPort(dev, packet, dev.httpPort, newDev, td, tn);
      return;
    }
    if IsBlank(packet.location) {
      return;
    }
    if !parseSuccess || !StrEq(newDev.node.udn, dev.node.udn) {
      return;
    }
    var changed := IsDescriptionChanged(dev, newDev, packet, td, tn);
    assert Value(td) == vd && Value(tn) == vn && Linked(td, dev.parent) && Linked(tn, newDev.parent);
    ad := CommitParsed(dev, packet, newDev, newHttpPort, scpdParsed, !changed, td, tn);
  }

  /** What follows the comparison of the two descriptions. */
  method CommitParsed(dev: DeviceObject, packet: Packet, newDev: DeviceObject, newHttpPort: int, scpdParsed: bool,
                      same: bool, ghost td: Tree, ghost tn: Tree)
    returns (ghost ad: Tree)
    requires td.dev == dev && Linked(td, dev.parent)
    requires tn.dev == newDev && Linked(tn, newDev.parent)
    requires Apart(td, tn)
    modifies dev`node, dev`rootNodes, dev`devices, dev`services, dev`icons, dev`packet, dev`httpPort
    modifies newDev`node, newDev`rootNodes, newDev`devices, newDev`services, newDev`icons, newDev`packet, newDev`httpPort
    modifies Servs(tn)`sid, Servs(tn)`timeout, Servs(tn)`timestamp, Servs(tn)`eventKey
    modifies SetOf(td.services)`owner, SetOf(tn.services)`owner, HeadSet(td.kids)`parent, HeadSet(tn.kids)`parent
    ensures same ==> ad == td && CachedValue(dev, ad) == Cached(old(Value(td)), packet, newHttpPort)
    ensures !same && !scpdParsed ==> ad == td && CachedValue(dev, ad) == old(CachedValue(dev, td))
    ensures !same && scpdParsed ==>
      && ad == Rehomed(tn, dev)
      && CachedValue(dev, ad) == Cached(old(T.CopySubscriptions(Value(tn), Value(td))), packet, newHttpPort)
    ensures Linked(ad, dev.parent)
  {
    ad := td;
    assert dev != newDev;
    hide Linked, Value, Separate, Apart, Devs, Servs, HeadSet, T.CopySubscriptions;
    if same {
      SetPacketAndPort(dev, packet, newHttpPort, newDev, td, tn);
      return;
    }
    SetPacketAndPort(newDev, packet, newHttpPort, dev, tn, td);
    if !scpdParsed {
      return;
    }
    ReplaceDescription(dev, newDev, td, tn);
    ad := Rehomed(tn, dev);
    SetPacketAndPort(dev, packet, newHttpPort, newDev, ad, Rehomed(td, newDev));
  }
}
