/**
 * The device tree as a value: what a description document says (udn, type,
 * services, embedded devices) together with the GENA subscription state that
 * the control point keeps in each service.
 *
 * These functions specify the in-place code of DeviceObjects.dfy and are the
 * cached data of Discovery.dfy.
 */
module DeviceTree {
  import opened Text

  /** The five values of a <service> element that the structure test compares. */
  datatype ServiceNode = ServiceNode(
    serviceType: CString, serviceId: CString, scpdUrl: CString, controlUrl: CString, eventSubUrl: CString)

  datatype Subscription = Subscription(sid: string, timeout: int, timestamp: int, eventKey: int)

  datatype Service = Service(node: ServiceNode, sub: Subscription)

  datatype DeviceNode = DeviceNode(udn: CString, deviceType: CString)

  datatype Device = Device(node: DeviceNode, services: seq<Service>, children: seq<Device>)

  /** `mupnp_service_issubscribed`. */
  predicate IsSubscribed(sub: Subscription) {
    sub.sid != ""
  }

  // ---------------------------------------------------------------------
  // The structure test
  // ---------------------------------------------------------------------

  predicate SameServiceNode(a: ServiceNode, b: ServiceNode) {
    && OptStrEq(a.serviceType, b.serviceType)
    && OptStrEq(a.serviceId, b.serviceId)
    && OptStrEq(a.scpdUrl, b.scpdUrl)
    && OptStrEq(a.controlUrl, b.controlUrl)
    && OptStrEq(a.eventSubUrl, b.eventSubUrl)
  }

  predicate SameServices(a: seq<Service>, b: seq<Service>) {
    if a == [] || b == [] then a == [] && b == []
    else SameServiceNode(a[0].node, b[0].node) && SameServices(a[1..], b[1..])
  }

  /** `mupnp_device_hassamestructure`. */
  predicate SameStructure(a: Device, b: Device)
    decreases a, 1
  {
    && OptStrEq(a.node.udn, b.node.udn)
    && OptStrEq(a.node.deviceType, b.node.deviceType)
    && SameServices(a.services, b.services)
    && SameChildren(a.children, b.children)
  }

  predicate SameChildren(a: seq<Device>, b: seq<Device>)
    decreases a, 0
  {
    if a == [] || b == [] then a == [] && b == []
    else SameStructure(a[0], b[0]) && SameChildren(a[1..], b[1..])
  }

  /** What a description exposes once missing values are read as empty. */
  datatype Skeleton = Skeleton(udn: string, deviceType: string, services: seq<seq<string>>, children: seq<Skeleton>)

  function ServiceSkeleton(n: ServiceNode): seq<string> {
    [OrEmpty(n.serviceType), OrEmpty(n.serviceId), OrEmpty(n.scpdUrl), OrEmpty(n.controlUrl), OrEmpty(n.eventSubUrl)]
  }

  function ServiceSkeletons(services: seq<Service>): (r: seq<seq<string>>)
    ensures |r| == |services|
  {
    if services == [] then [] else [ServiceSkeleton(services[0].node)] + ServiceSkeletons(services[1..])
  }

  function SkeletonOf(d: Device): Skeleton
    decreases d, 1
  {
    Skeleton(OrEmpty(d.node.udn), OrEmpty(d.node.deviceType), ServiceSkeletons(d.services), SkeletonsOf(d.children))
  }

  function SkeletonsOf(ds: seq<Device>): (r: seq<Skeleton>)
    ensures |r| == |ds|
    decreases ds, 0
  {
    if ds == [] then [] else [SkeletonOf(ds[0])] + SkeletonsOf(ds[1..])
  }

  lemma SameServiceNodeIffSkeleton(a: ServiceNode, b: ServiceNode)
    ensures SameServiceNode(a, b) <==> ServiceSkeleton(a) == ServiceSkeleton(b)
  {
    var x, y := ServiceSkeleton(a), ServiceSkeleton(b);
    assert x == y <==> x[0] == y[0] && x[1] == y[1] && x[2] == y[2] && x[3] == y[3] && x[4] == y[4];
  }

  lemma ConsEquality<T>(a: seq<T>, b: seq<T>, x: T, y: T)
    ensures [x] + a == [y] + b <==> x == y && a == b
  {
    if [x] + a == [y] + b {
      assert ([x] + a)[0] == x && ([y] + b)[0] == y;
      assert a == ([x] + a)[1..] && b == ([y] + b)[1..];
    }
  }

  lemma {:induction false} SameServicesIffSkeletons(a: seq<Service>, b: seq<Service>)
    ensures SameServices(a, b) <==> ServiceSkeletons(a) == ServiceSkeletons(b)
  {
    if a != [] && b != [] {
      SameServiceNodeIffSkeleton(a[0].node, b[0].node);
      SameServicesIffSkeletons(a[1..], b[1..]);
      ConsEquality(ServiceSkeletons(a[1..]), ServiceSkeletons(b[1..]),
                   ServiceSkeleton(a[0].node), ServiceSkeleton(b[0].node));
    } else {
      assert |ServiceSkeletons(a)| == |a| && |ServiceSkeletons(b)| == |b|;
    }
  }

  /** The structure test is equality of skeletons, in both directions. */
  lemma {:induction false} SameStructureIffSkeleton(a: Device, b: Device)
    ensures SameStructure(a, b) <==> SkeletonOf(a) == SkeletonOf(b)
    decreases a, 1
  {
    SameServicesIffSkeletons(a.services, b.services);
    SameChildrenIffSkeletons(a.children, b.children);
  }

  lemma {:induction false} SameChildrenIffSkeletons(a: seq<Device>, b: seq<Device>)
    ensures SameChildren(a, b) <==> SkeletonsOf(a) == SkeletonsOf(b)
    decreases a, 0
  {
    if a != [] && b != [] {
      SameStructureIffSkeleton(a[0], b[0]);
      SameChildrenIffSkeletons(a[1..], b[1..]);
      ConsEquality(SkeletonsOf(a[1..]), SkeletonsOf(b[1..]), SkeletonOf(a[0]), SkeletonOf(b[0]));
    } else {
      assert |SkeletonsOf(a)| == |a| && |SkeletonsOf(b)| == |b|;
    }
  }

  lemma SameStructureIsEquivalence(a: Device, b: Device, c: Device)
    ensures SameStructure(a, a)
    ensures SameStructure(a, b) ==> SameStructure(b, a)
    ensures SameStructure(a, b) && SameStructure(b, c) ==> SameStructure(a, c)
  {
    SameStructureIffSkeleton(a, a);
    SameStructureIffSkeleton(a, b);
    SameStructureIffSkeleton(b, a);
    SameStructureIffSkeleton(b, c);
    SameStructureIffSkeleton(a, c);
  }

  // ---------------------------------------------------------------------
  // Looking things up
  // ---------------------------------------------------------------------

  /** `mupnp_device_findbyudnintree`: the first match in document order. */
  function FindByUdn(d: Device, udn: CString): (r: Option<Device>)
    ensures r.Some? ==> !IsBlank(udn) && StrEq(r.value.node.udn, udn)
    decreases d, 1
  {
    if IsBlank(udn) then None
    else if StrEq(d.node.udn, udn) then Some(d)
    else FindByUdnAmong(d.children, udn)
  }

  function FindByUdnAmong(ds: seq<Device>, udn: CString): (r: Option<Device>)
    ensures r.Some? ==> !IsBlank(udn) && StrEq(r.value.node.udn, udn)
    decreases ds, 0
  {
    if ds == [] then None
    else
      var found := FindByUdn(ds[0], udn);
      if found.Some? then found else FindByUdnAmong(ds[1..], udn)
  }

  /** `mupnp_device_getownedservicebyserviceid`: the first service of this device with the id. */
  function OwnedService(services: seq<Service>, serviceId: CString): (r: Option<Service>)
    ensures r.Some? ==> StrEq(r.value.node.serviceId, serviceId)
  {
    if services == [] then None
    else if StrEq(services[0].node.serviceId, serviceId) then Some(services[0])
    else OwnedService(services[1..], serviceId)
  }

  /** `mupnp_device_getservicebyownerudn`. */
  function ServiceAt(root: Device, udn: CString, serviceId: CString): Option<Service> {
    match FindByUdn(root, udn)
    case None => None
    case Some(d) => OwnedService(d.services, serviceId)
  }

  /** A service together with the UDN of the device that owns it. */
  datatype Owned = Owned(udn: CString, service: Service)

  /** Every service of the tree, in the order `mupnp_device_getservicebysid` visits them. */
  function AllServices(d: Device): seq<Owned>
    decreases d, 1
  {
    OwnServices(d.node.udn, d.services) + ServicesAmong(d.children)
  }

  function OwnServices(udn: CString, services: seq<Service>): (r: seq<Owned>)
    ensures |r| == |services|
    ensures forall i | 0 <= i < |r| :: r[i] == Owned(udn, services[i])
  {
    if services == [] then [] else [Owned(udn, services[0])] + OwnServices(udn, services[1..])
  }

  function ServicesAmong(ds: seq<Device>): seq<Owned>
    decreases ds, 0
  {
    if ds == [] then [] else AllServices(ds[0]) + ServicesAmong(ds[1..])
  }

  /** `mupnp_device_getservicebysid` on the control point side, where services have no subscribers of their own. */
  function ServiceBySid(d: Device, sid: string): Option<Owned>
    decreases d, 2
  {
    if sid == "" then None
    else
      var own := FirstWithSid(d.node.udn, d.services, sid);
      if own.Some? then own else ServiceBySidAmong(d.children, sid)
  }

  function FirstWithSid(udn: CString, services: seq<Service>, sid: string): Option<Owned> {
    if services == [] then None
    else if IsSubscribed(services[0].sub) && services[0].sub.sid == sid then Some(Owned(udn, services[0]))
    else FirstWithSid(udn, services[1..], sid)
  }

  function ServiceBySidAmong(ds: seq<Device>, sid: string): Option<Owned>
    decreases ds, 1
  {
    if ds == [] then None
    else
      var found := ServiceBySid(ds[0], sid);
      if found.Some? then found else ServiceBySidAmong(ds[1..], sid)
  }

  lemma {:induction false} FirstWithSidIsMember(udn: CString, services: seq<Service>, sid: string)
    requires sid != ""
    ensures var r := FirstWithSid(udn, services, sid);
            if r.Some? then r.value in OwnServices(udn, services) && r.value.service.sub.sid == sid
            else forall o | o in OwnServices(udn, services) :: o.service.sub.sid != sid
  {
    if services != [] {
      FirstWithSidIsMember(udn, services[1..], sid);
    }
  }

  /** Lookup by SID finds a service of the tree with that SID whenever there is one. */
  lemma {:induction false} ServiceBySidIsMember(d: Device, sid: string)
    requires sid != ""
    ensures var r := ServiceBySid(d, sid);
            if r.Some? then r.value in AllServices(d) && r.value.service.sub.sid == sid
            else forall o | o in AllServices(d) :: o.service.sub.sid != sid
    decreases d, 2
  {
    FirstWithSidIsMember(d.node.udn, d.services, sid);
    ServiceBySidAmongIsMember(d.children, sid);
  }

  lemma {:induction false} ServiceBySidAmongIsMember(ds: seq<Device>, sid: string)
    requires sid != ""
    ensures var r := ServiceBySidAmong(ds, sid);
            if r.Some? then r.value in ServicesAmong(ds) && r.value.service.sub.sid == sid
            else forall o | o in ServicesAmong(ds) :: o.service.sub.sid != sid
    decreases ds, 1
  {
    if ds != [] {
      ServiceBySidIsMember(ds[0], sid);
      ServiceBySidAmongIsMember(ds[1..], sid);
    }
  }

  /** The devices of the tree in document order. */
  function AllDevices(d: Device): seq<Device>
    decreases d, 1
  {
    [d] + DevicesAmong(d.children)
  }

  function DevicesAmong(ds: seq<Device>): seq<Device>
    decreases ds, 0
  {
    if ds == [] then [] else AllDevices(ds[0]) + DevicesAmong(ds[1..])
  }

  /** The first device of the list with the UDN. */
  function FirstDevice(ds: seq<Device>, udn: CString): (r: Option<Device>)
    ensures if r.Some? then r.value in ds && StrEq(r.value.node.udn, udn) else forall x | x in ds :: !StrEq(x.node.udn, udn)
  {
    if ds == [] then None
    else if StrEq(ds[0].node.udn, udn) then Some(ds[0])
    else FirstDevice(ds[1..], udn)
  }

  lemma {:induction false} FirstDeviceConcat(a: seq<Device>, b: seq<Device>, udn: CString)
    ensures FirstDevice(a + b, udn) == if FirstDevice(a, udn).Some? then FirstDevice(a, udn) else FirstDevice(b, udn)
  {
    if a == [] {
      assert a + b == b;
    } else {
      FirstDeviceConcat(a[1..], b, udn);
      assert (a + b)[1..] == a[1..] + b;
    }
  }

  /** The search by UDN finds the first device in document order that has it, whenever there is one. */
  lemma {:induction false} FindByUdnIsFirst(d: Device, udn: CString)
    requires !IsBlank(udn)
    ensures FindByUdn(d, udn) == FirstDevice(AllDevices(d), udn)
    decreases d, 1
  {
    FindByUdnAmongIsFirst(d.children, udn);
    FirstDeviceConcat([d], DevicesAmong(d.children), udn);
    assert [d][1..] == [];
  }

  lemma {:induction false} FindByUdnAmongIsFirst(ds: seq<Device>, udn: CString)
    requires !IsBlank(udn)
    ensures FindByUdnAmong(ds, udn) == FirstDevice(DevicesAmong(ds), udn)
    decreases ds, 0
  {
    if ds != [] {
      FindByUdnIsFirst(ds[0], udn);
      FindByUdnAmongIsFirst(ds[1..], udn);
      FirstDeviceConcat(AllDevices(ds[0]), DevicesAmong(ds[1..]), udn);
    }
  }

  /** The first subscribed service of the list with the SID. */
  function FirstOwned(services: seq<Owned>, sid: string): Option<Owned> {
    if services == [] then None
    else if IsSubscribed(services[0].service.sub) && services[0].service.sub.sid == sid then Some(services[0])
    else FirstOwned(services[1..], sid)
  }

  lemma {:induction false} FirstOwnedConcat(a: seq<Owned>, b: seq<Owned>, sid: string)
    ensures FirstOwned(a + b, sid) == if FirstOwned(a, sid).Some? then FirstOwned(a, sid) else FirstOwned(b, sid)
  {
    if a == [] {
      assert a + b == b;
    } else {
      FirstOwnedConcat(a[1..], b, sid);
      assert (a + b)[1..] == a[1..] + b;
    }
  }

  lemma {:induction false} FirstWithSidIsFirst(udn: CString, services: seq<Service>, sid: string)
    ensures FirstWithSid(udn, services, sid) == FirstOwned(OwnServices(udn, services), sid)
  {
    if services != [] {
      FirstWithSidIsFirst(udn, services[1..], sid);
      assert OwnServices(udn, services)[1..] == OwnServices(udn, services[1..]);
    }
  }

  /** The search by SID finds the first subscribed service in document order that has it. */
  lemma {:induction false} ServiceBySidIsFirst(d: Device, sid: string)
    requires sid != ""
    ensures ServiceBySid(d, sid) == FirstOwned(AllServices(d), sid)
    decreases d, 2
  {
    FirstWithSidIsFirst(d.node.udn, d.services, sid);
    ServiceBySidAmongIsFirst(d.children, sid);
    FirstOwnedConcat(OwnServices(d.node.udn, d.services), ServicesAmong(d.children), sid);
  }

  lemma {:induction false} ServiceBySidAmongIsFirst(ds: seq<Device>, sid: string)
    requires sid != ""
    ensures ServiceBySidAmong(ds, sid) == FirstOwned(ServicesAmong(ds), sid)
    decreases ds, 1
  {
    if ds != [] {
      ServiceBySidIsFirst(ds[0], sid);
      ServiceBySidAmongIsFirst(ds[1..], sid);
      FirstOwnedConcat(AllServices(ds[0]), ServicesAmong(ds[1..]), sid);
    }
  }

  lemma {:induction false} OwnedServiceIsMember(udn: CString, services: seq<Service>, serviceId: CString)
    requires OwnedService(services, serviceId).Some?
    ensures Owned(udn, OwnedService(services, serviceId).value) in OwnServices(udn, services)
  {
    if !StrEq(services[0].node.serviceId, serviceId) {
      OwnedServiceIsMember(udn, services[1..], serviceId);
    }
  }

  lemma {:induction false} FoundServicesAreMembers(d: Device, udn: CString, o: Owned)
    requires FindByUdn(d, udn).Some?
    requires var f := FindByUdn(d, udn).value; o in OwnServices(f.node.udn, f.services)
    ensures o in AllServices(d)
    decreases d, 1
  {
    if !StrEq(d.node.udn, udn) {
      FoundServicesAreMembersAmong(d.children, udn, o);
    }
  }

  lemma {:induction false} FoundServicesAreMembersAmong(ds: seq<Device>, udn: CString, o: Owned)
    requires FindByUdnAmong(ds, udn).Some?
    requires var f := FindByUdnAmong(ds, udn).value; o in OwnServices(f.node.udn, f.services)
    ensures o in ServicesAmong(ds)
    decreases ds, 0
  {
    if FindByUdn(ds[0], udn).Some? {
      FoundServicesAreMembers(ds[0], udn, o);
    } else {
      FoundServicesAreMembersAmong(ds[1..], udn, o);
    }
  }

  lemma ServiceAtIsMember(root: Device, udn: CString, serviceId: CString)
    requires ServiceAt(root, udn, serviceId).Some?
    ensures Owned(udn, ServiceAt(root, udn, serviceId).value) in AllServices(root)
  {
    var d := FindByUdn(root, udn).value;
    assert d.node.udn == udn;
    OwnedServiceIsMember(udn, d.services, serviceId);
    FoundServicesAreMembers(root, udn, Owned(udn, OwnedService(d.services, serviceId).value));
  }

  /** The service at an address is the first with the id in the first device with the UDN, in document order. */
  lemma ServiceAtIsFirst(d: Device, udn: CString, serviceId: CString, x: Device, i: nat)
    requires !IsBlank(udn) && FirstDevice(AllDevices(d), udn) == Some(x)
    requires serviceId.Some? && i < |x.services| && x.services[i].node.serviceId == serviceId
    requires forall j | 0 <= j < i :: x.services[j].node.serviceId != serviceId
    ensures ServiceAt(d, udn, serviceId) == Some(x.services[i])
  {
    FindByUdnIsFirst(d, udn);
    OwnedServiceIsFirst(x.services, serviceId, i);
  }

  lemma {:induction false} OwnedServiceIsFirst(services: seq<Service>, serviceId: CString, i: nat)
    requires serviceId.Some? && i < |services| && services[i].node.serviceId == serviceId
    requires forall j | 0 <= j < i :: services[j].node.serviceId != serviceId
    ensures OwnedService(services, serviceId) == Some(services[i])
  {
    if i > 0 {
      OwnedServiceIsFirst(services[1..], serviceId, i - 1);
    }
  }

  // ---------------------------------------------------------------------
  // What is left without subscriptions
  // ---------------------------------------------------------------------

  /** The tree with every subscription forgotten. */
  function Strip(d: Device): (r: Device)
    ensures r.node == d.node
    decreases d, 1
  {
    Device(d.node, StripServices(d.services), StripAll(d.children))
  }

  function StripServices(services: seq<Service>): seq<Service> {
    if services == [] then []
    else [Service(services[0].node, Subscription("", 0, 0, 0))] + StripServices(services[1..])
  }

  function StripAll(ds: seq<Device>): (r: seq<Device>)
    ensures |r| == |ds|
    decreases ds, 0
  {
    if ds == [] then [] else [Strip(ds[0])] + StripAll(ds[1..])
  }

  /** A tree exposes the same with and without its subscriptions. */
  lemma {:induction false} SkeletonOfStrip(d: Device)
    ensures SkeletonOf(Strip(d)) == SkeletonOf(d)
    decreases d, 1
  {
    SkeletonsOfStrip(d.services);
    SkeletonsOfStripAll(d.children);
  }

  lemma {:induction false} SkeletonsOfStrip(services: seq<Service>)
    ensures ServiceSkeletons(StripServices(services)) == ServiceSkeletons(services)
  {
    if services != [] {
      SkeletonsOfStrip(services[1..]);
      assert StripServices(services)[1..] == StripServices(services[1..]);
    }
  }

  lemma {:induction false} SkeletonsOfStripAll(ds: seq<Device>)
    ensures SkeletonsOf(StripAll(ds)) == SkeletonsOf(ds)
    decreases ds, 0
  {
    if ds != [] {
      SkeletonOfStrip(ds[0]);
      SkeletonsOfStripAll(ds[1..]);
      assert StripAll(ds)[1..] == StripAll(ds[1..]);
    }
  }

  // ---------------------------------------------------------------------
  // Carrying subscriptions from the cached tree to a fresh one
  // ---------------------------------------------------------------------

  /** The inner loop of `mupnp_device_copysubscriptions` for one new service. */
  function Carried(s: Service, oldServices: seq<Service>): (r: Service)
    ensures r.node == s.node
  {
    match OwnedService(oldServices, s.node.serviceId)
    case None => s
    case Some(o) => if IsSubscribed(o.sub) then s.(sub := o.sub) else s
  }

  function CarriedAll(services: seq<Service>, oldServices: seq<Service>): (r: seq<Service>)
    ensures |r| == |services|
    ensures forall i | 0 <= i < |r| :: r[i] == Carried(services[i], oldServices)
  {
    if services == [] then [] else [Carried(services[0], oldServices)] + CarriedAll(services[1..], oldServices)
  }

  /** The services of the device in the old tree that has this UDN; none when there is no such device. */
  function ServicesOfUdn(oldRoot: Device, udn: CString): seq<Service> {
    var d := FindByUdn(oldRoot, udn);
    if d.Some? then d.value.services else []
  }

  /** `mupnp_device_copysubscriptions`. */
  function CopySubscriptions(newDev: Device, oldRoot: Device): (r: Device)
    ensures r.node == newDev.node && |r.services| == |newDev.services| && |r.children| == |newDev.children|
    decreases newDev, 1
  {
    Device(newDev.node, CarriedAll(newDev.services, ServicesOfUdn(oldRoot, newDev.node.udn)),
           CopySubscriptionsAmong(newDev.children, oldRoot))
  }

  function CopySubscriptionsAmong(ds: seq<Device>, oldRoot: Device): (r: seq<Device>)
    ensures |r| == |ds|
    decreases ds, 0
  {
    if ds == [] then [] else [CopySubscriptions(ds[0], oldRoot)] + CopySubscriptionsAmong(ds[1..], oldRoot)
  }

  /** The copy takes nothing but subscriptions from the old tree. */
  lemma {:induction false} StripOfCopy(newDev: Device, oldRoot: Device)
    ensures Strip(CopySubscriptions(newDev, oldRoot)) == Strip(newDev)
    decreases newDev, 1
  {
    StripOfCarried(newDev.services, ServicesOfUdn(oldRoot, newDev.node.udn));
    StripOfCopyAmong(newDev.children, oldRoot);
  }

  lemma {:induction false} StripOfCarried(services: seq<Service>, oldServices: seq<Service>)
    ensures StripServices(CarriedAll(services, oldServices)) == StripServices(services)
  {
    if services != [] {
      StripOfCarried(services[1..], oldServices);
      assert CarriedAll(services, oldServices)[1..] == CarriedAll(services[1..], oldServices);
    }
  }

  lemma {:induction false} StripOfCopyAmong(ds: seq<Device>, oldRoot: Device)
    ensures StripAll(CopySubscriptionsAmong(ds, oldRoot)) == StripAll(ds)
    decreases ds, 0
  {
    if ds != [] {
      StripOfCopy(ds[0], oldRoot);
      StripOfCopyAmong(ds[1..], oldRoot);
      assert CopySubscriptionsAmong(ds, oldRoot)[1..] == CopySubscriptionsAmong(ds[1..], oldRoot);
    }
  }

  lemma {:induction false} CopyCommutesWithFind(newDev: Device, oldRoot: Device, udn: CString)
    ensures FindByUdn(CopySubscriptions(newDev, oldRoot), udn)
         == match FindByUdn(newDev, udn)
            case None => None
            case Some(d) => Some(CopySubscriptions(d, oldRoot))
    decreases newDev, 1
  {
    CopyCommutesWithFindAmong(newDev.children, oldRoot, udn);
  }

  lemma {:induction false} CopyCommutesWithFindAmong(ds: seq<Device>, oldRoot: Device, udn: CString)
    ensures FindByUdnAmong(CopySubscriptionsAmong(ds, oldRoot), udn)
         == match FindByUdnAmong(ds, udn)
            case None => None
            case Some(d) => Some(CopySubscriptions(d, oldRoot))
    decreases ds, 0
  {
    if ds != [] {
      CopyCommutesWithFind(ds[0], oldRoot, udn);
      CopyCommutesWithFindAmong(ds[1..], oldRoot, udn);
      assert CopySubscriptionsAmong(ds, oldRoot)[1..] == CopySubscriptionsAmong(ds[1..], oldRoot);
    }
  }

  lemma {:induction false} CarriedOwnedService(services: seq<Service>, oldServices: seq<Service>, serviceId: CString)
    ensures OwnedService(CarriedAll(services, oldServices), serviceId)
         == match OwnedService(services, serviceId)
            case None => None
            case Some(s) => Some(Carried(s, oldServices))
  {
    if services != [] {
      CarriedOwnedService(services[1..], oldServices, serviceId);
      assert CarriedAll(services, oldServices)[1..] == CarriedAll(services[1..], oldServices);
    }
  }

  /**
   * What an update does to the service addressed by (owner UDN, serviceId):
   * it keeps the old subscription, whole, when the old tree has a subscribed
   * service at the same address, and is otherwise the freshly parsed service.
   */
  lemma CopyKeepsSubscriptionAtAddress(newDev: Device, oldRoot: Device, udn: CString, serviceId: CString)
    ensures ServiceAt(CopySubscriptions(newDev, oldRoot), udn, serviceId)
         == match ServiceAt(newDev, udn, serviceId)
            case None => None
            case Some(s) =>
              (match ServiceAt(oldRoot, udn, serviceId)
               case Some(o) => if IsSubscribed(o.sub) then Some(s.(sub := o.sub)) else Some(s)
               case None => Some(s))
  {
    CopyCommutesWithFind(newDev, oldRoot, udn);
    if FindByUdn(newDev, udn).Some? {
      var d := FindByUdn(newDev, udn).value;
      assert d.node.udn == udn;
      var oldServices := ServicesOfUdn(oldRoot, udn);
      CarriedOwnedService(d.services, oldServices, serviceId);
      if OwnedService(d.services, serviceId).Some? {
        assert OwnedService(d.services, serviceId).value.node.serviceId == serviceId;
      }
    }
  }

  predicate AllUnsubscribed(d: Device) {
    forall o | o in AllServices(d) :: !IsSubscribed(o.service.sub)
  }

  /** Every service of the new tree either keeps its own state or has the whole subscription found at its address. */
  lemma {:induction false} CopiedServiceOrigin(newDev: Device, oldRoot: Device, o: Owned)
    requires o in AllServices(CopySubscriptions(newDev, oldRoot))
    ensures var at := ServiceAt(oldRoot, o.udn, o.service.node.serviceId);
            || (at.Some? && IsSubscribed(at.value.sub) && o.service.sub == at.value.sub)
            || o in AllServices(newDev)
    decreases newDev, 1
  {
    var r := CopySubscriptions(newDev, oldRoot);
    if o in OwnServices(r.node.udn, r.services) {
      var i :| 0 <= i < |r.services| && o == OwnServices(r.node.udn, r.services)[i];
      var s := newDev.services[i];
      assert o.service == Carried(s, ServicesOfUdn(oldRoot, newDev.node.udn));
      assert OwnServices(newDev.node.udn, newDev.services)[i] == Owned(newDev.node.udn, s);
      assert Owned(newDev.node.udn, s) in AllServices(newDev);
    } else {
      CopiedServiceOriginAmong(newDev.children, oldRoot, o);
    }
  }

  lemma {:induction false} CopiedServiceOriginAmong(ds: seq<Device>, oldRoot: Device, o: Owned)
    requires o in ServicesAmong(CopySubscriptionsAmong(ds, oldRoot))
    ensures var at := ServiceAt(oldRoot, o.udn, o.service.node.serviceId);
            || (at.Some? && IsSubscribed(at.value.sub) && o.service.sub == at.value.sub)
            || o in ServicesAmong(ds)
    decreases ds, 0
  {
    var r := CopySubscriptionsAmong(ds, oldRoot);
    assert ds != [] && r[1..] == CopySubscriptionsAmong(ds[1..], oldRoot);
    if o in AllServices(r[0]) {
      CopiedServiceOrigin(ds[0], oldRoot, o);
    } else {
      CopiedServiceOriginAmong(ds[1..], oldRoot, o);
    }
  }

  /** No SID is invented: in a fresh tree every SID after the copy is one the cached tree holds at the same address. */
  lemma NoSidInvented(newDev: Device, oldRoot: Device, o: Owned)
    requires AllUnsubscribed(newDev)
    requires o in AllServices(CopySubscriptions(newDev, oldRoot)) && IsSubscribed(o.service.sub)
    ensures exists before ::
              && before in AllServices(oldRoot)
              && before.udn == o.udn && before.service.node.serviceId == o.service.node.serviceId
              && before.service.sub == o.service.sub
  {
    CopiedServiceOrigin(newDev, oldRoot, o);
    ServiceAtIsMember(oldRoot, o.udn, o.service.node.serviceId);
    assert Owned(o.udn, ServiceAt(oldRoot, o.udn, o.service.node.serviceId).value) in AllServices(oldRoot);
  }

  /** Services that share a SID are services at one address. */
  predicate SidsAreAddresses(d: Device) {
    forall x, y | x in AllServices(d) && y in AllServices(d) && IsSubscribed(x.service.sub)
               && x.service.sub.sid == y.service.sub.sid
      :: x.udn == y.udn && x.service.node.serviceId == y.service.node.serviceId
  }

  /**
   * NOTIFY messages keep arriving at the right service: if the cached tree is
   * subscribed at an address that the new tree also has, then after the copy
   * looking up that SID finds a service at that address, with the old event key.
   */
  lemma SidReachesSameAddress(newDev: Device, oldRoot: Device, udn: CString, serviceId: CString)
    requires AllUnsubscribed(newDev) && SidsAreAddresses(oldRoot)
    requires ServiceAt(oldRoot, udn, serviceId).Some? && ServiceAt(newDev, udn, serviceId).Some?
    requires IsSubscribed(ServiceAt(oldRoot, udn, serviceId).value.sub)
    ensures var sub := ServiceAt(oldRoot, udn, serviceId).value.sub;
            var found := ServiceBySid(CopySubscriptions(newDev, oldRoot), sub.sid);
            && found.Some? && found.value.udn == udn && found.value.service.node.serviceId == serviceId
            && found.value.service.sub == sub
  {
    var r := CopySubscriptions(newDev, oldRoot);
    var sub := ServiceAt(oldRoot, udn, serviceId).value.sub;
    CopyKeepsSubscriptionAtAddress(newDev, oldRoot, udn, serviceId);
    ServiceAtIsMember(r, udn, serviceId);
    assert Owned(udn, ServiceAt(r, udn, serviceId).value) in AllServices(r);
    ServiceBySidIsMember(r, sub.sid);
    var found := ServiceBySid(r, sub.sid).value;
    CopiedServiceOrigin(newDev, oldRoot, found);
    ServiceAtIsMember(oldRoot, found.udn, found.service.node.serviceId);
    ServiceAtIsMember(oldRoot, udn, serviceId);
  }
}
