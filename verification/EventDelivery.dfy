/** Delivery of a notification to one of the services in the cache. */
module EventDelivery {
  import opened Sequences
  import opened Text
  import opened DeviceTree
  import opened EventKey

  /** The position of the first service subscribed under the SID. */
  function Target(cs: seq<Client>, n: Notify): (r: Option<nat>)
    ensures r.Some? ==> r.value < |cs| && IsFor(cs[r.value].sub, n) && forall j | 0 <= j < r.value :: !IsFor(cs[j].sub, n)
    ensures r.None? ==> forall j | 0 <= j < |cs| :: !IsFor(cs[j].sub, n)
  {
    if cs == [] then None
    else if IsFor(cs[0].sub, n) then Some(0)
    else
      match Target(cs[1..], n)
      case None => None
      case Some(i) => Some(i + 1)
  }

  /** The NOTIFY branch of `mupnp_controlpoint_httprequestreceived`. */
  function Deliver(cs: seq<Client>, n: Notify): (r: seq<Client>)
    ensures |r| == |cs|
  {
    match Target(cs, n)
    case None => cs
    case Some(i) => cs[i := Receive(cs[i], n)]
  }

  ghost function SetOf(services: seq<ClientService>): set<ClientService> {
    set s | s in services
  }

  ghost function Clients(services: seq<ClientService>): (r: seq<Client>)
    reads SetOf(services)
    ensures |r| == |services| && forall i | 0 <= i < |r| :: r[i] == services[i].Value()
  {
    if services == [] then [] else [services[0].Value()] + Clients(services[1..])
  }

  // ---------------------------------------------------------------------
  // The search
  // ---------------------------------------------------------------------

  /** The services of a cached device and of the devices embedded in it. */
  datatype DeviceServices = DeviceServices(services: seq<ClientService>, devices: seq<DeviceServices>)

  /** All of them in document order. */
  ghost function AllOf(d: DeviceServices): seq<ClientService>
    decreases d, 1
  {
    d.services + AllAmong(d.devices)
  }

  ghost function AllAmong(ds: seq<DeviceServices>): seq<ClientService>
    decreases ds, 0
  {
    if ds == [] then [] else AllOf(ds[0]) + AllAmong(ds[1..])
  }

  /** The first service of the list that is subscribed under the SID. */
  ghost function FirstSubscribed(services: seq<ClientService>, sid: string): ClientService?
    reads SetOf(services)
  {
    if services == [] then null
    else if sid != "" && services[0].sid == sid then services[0]
    else FirstSubscribed(services[1..], sid)
  }

  lemma {:induction false} FirstSubscribedConcat(a: seq<ClientService>, b: seq<ClientService>, sid: string)
    ensures FirstSubscribed(a + b, sid)
         == if FirstSubscribed(a, sid) != null then FirstSubscribed(a, sid) else FirstSubscribed(b, sid)
  {
    if a == [] {
      assert a + b == b;
    } else {
      FirstSubscribedConcat(a[1..], b, sid);
      assert (a + b)[1..] == a[1..] + b;
    }
  }

  lemma FirstSubscribedStep(services: seq<ClientService>, i: nat, sid: string)
    requires i < |services| && (sid == "" || services[i].sid != sid)
    ensures FirstSubscribed(services[i..], sid) == FirstSubscribed(services[i + 1..], sid)
  {
    assert services[i..][1..] == services[i + 1..];
  }

  lemma AmongStep(ds: seq<DeviceServices>, i: nat, sid: string)
    requires i < |ds|
    ensures AllAmong(ds[i..]) == AllOf(ds[i]) + AllAmong(ds[i + 1..])
  {
    assert ds[i..][1..] == ds[i + 1..];
  }

  /** `mupnp_device_getservicebysid` */
  method GetServiceBySid(d: DeviceServices, sid: string) returns (service: ClientService?)
    ensures service == FirstSubscribed(AllOf(d), sid)
    decreases d, 1
  {
    hide AllOf, AllAmong, FirstSubscribed;
    if sid == "" {
      NeverSubscribed(AllOf(d));
      return null;
    }
    AllOfParts(d);
    var i := 0;
    assert d.services[0..] == d.services;
    while i < |d.services|
      invariant 0 <= i <= |d.services|
      invariant FirstSubscribed(d.services, sid) == FirstSubscribed(d.services[i..], sid)
    {
      if d.services[i].sid != "" && d.services[i].sid == sid {
        IsFirst(d.services[i..], sid);
        FirstSubscribedConcat(d.services, AllAmong(d.devices), sid);
        return d.services[i];
      }
      FirstSubscribedStep(d.services, i, sid);
      i := i + 1;
    }
    NothingSubscribed(d.services[i..], sid);
    FirstSubscribedConcat(d.services, AllAmong(d.devices), sid);
    assert allocated(SetOf(AllOf(d))) && allocated(SetOf(AllAmong(d.devices)));
    service := GetServiceAmong(d.devices, sid);
  }

  /** The loop over a list of devices, which ends at the first one that has the service. */
  method GetServiceAmong(ds: seq<DeviceServices>, sid: string) returns (service: ClientService?)
    ensures service == FirstSubscribed(AllAmong(ds), sid)
    decreases ds, 0
  {
    hide AllOf, AllAmong, FirstSubscribed;
    service := null;
    var i := 0;
    assert ds[0..] == ds;
    while i < |ds|
      invariant 0 <= i <= |ds| && service == null
      invariant FirstSubscribed(AllAmong(ds), sid) == FirstSubscribed(AllAmong(ds[i..]), sid)
    {
      AmongStep(ds, i, sid);
      FirstSubscribedConcat(AllOf(ds[i]), AllAmong(ds[i + 1..]), sid);
      assert allocated(SetOf(AllAmong(ds))) && allocated(SetOf(AllOf(ds[i]))) && allocated(SetOf(AllAmong(ds[i + 1..])));
      service := GetServiceBySid(ds[i], sid);
      if service != null {
        return;
      }
      i := i + 1;
    }
    NothingAmong(ds[i..], sid);
  }

  lemma AllOfParts(d: DeviceServices)
    ensures AllOf(d) == d.services + AllAmong(d.devices)
  {
  }

  lemma {:induction false} NeverSubscribed(services: seq<ClientService>)
    ensures FirstSubscribed(services, "") == null
  {
    if services != [] {
      NeverSubscribed(services[1..]);
    }
  }

  lemma IsFirst(services: seq<ClientService>, sid: string)
    requires services != [] && sid != "" && services[0].sid == sid
    ensures FirstSubscribed(services, sid) == services[0]
  {
  }

  lemma NothingSubscribed(services: seq<ClientService>, sid: string)
    requires services == []
    ensures FirstSubscribed(services, sid) == null
  {
  }

  lemma NothingAmong(ds: seq<DeviceServices>, sid: string)
    requires ds == []
    ensures FirstSubscribed(AllAmong(ds), sid) == null
  {
  }

  /** The service that the search finds is the target of the notification. */
  lemma {:induction false} FirstIsTarget(services: seq<ClientService>, n: Notify)
    ensures var target := Target(Clients(services), n);
            FirstSubscribed(services, n.sid) == if target.None? then null else services[target.value]
  {
    if services != [] {
      FirstIsTarget(services[1..], n);
      assert Clients(services)[1..] == Clients(services[1..]);
    }
  }

  /**
   * The NOTIFY branch of `mupnp_controlpoint_httprequestreceived`: the search
   * over the cached devices, and the notification of the service found;
   * whether listeners are told.
   */
  method DeliverNotify(devices: seq<DeviceServices>, n: Notify) returns (notifyListeners: bool)
    requires Distinct(AllAmong(devices))
    modifies SetOf(AllAmong(devices))
    ensures var services := AllAmong(devices);
            && Clients(services) == Deliver(old(Clients(services)), n)
            && var target := Target(old(Clients(services)), n);
               notifyListeners <==> target.Some? && Accepts(old(Clients(services))[target.value], n)
  {
    hide AllOf, AllAmong, FirstSubscribed, Clients, Target, Receive;
    ghost var services := AllAmong(devices);
    ghost var before := Clients(services);
    FirstIsTarget(services, n);
    notifyListeners := false;
    var service := GetServiceAmong(devices, n.sid);
    assert Clients(services) == before;
    if service != null {
      ghost var i := Target(before, n).value;
      assert services[i] == service && service in SetOf(services) && before[i] == service.Value();
      notifyListeners := service.ReceiveNotify(n);
      assert forall j | 0 <= j < |services| && j != i :: services[j] != service && services[j].Value() == before[j];
    }
    assert Clients(services) == Deliver(before, n);
  }

  // ---------------------------------------------------------------------
  // Runs
  // ---------------------------------------------------------------------

  function RunAll(cs: seq<Client>, ns: seq<Notify>): (r: seq<Client>)
    ensures |r| == |cs|
    decreases ns
  {
    if ns == [] then cs else RunAll(Deliver(cs, ns[0]), ns[1..])
  }

  ghost predicate DistinctSids(cs: seq<Client>) {
    forall i, j | 0 <= i < j < |cs| && IsSubscribed(cs[i].sub) :: cs[i].sub.sid != cs[j].sub.sid
  }

  /** No two subscriptions of the cache share a SID, now or later in the run. */
  ghost predicate DistinctThroughout(cs: seq<Client>, ns: seq<Notify>)
    decreases ns
  {
    DistinctSids(cs) && (ns != [] ==> DistinctThroughout(Deliver(cs, ns[0]), ns[1..]))
  }

  lemma DeliveredAt(cs: seq<Client>, n: Notify, k: nat)
    requires k < |cs| && DistinctSids(cs)
    ensures Deliver(cs, n)[k] == Receive(cs[k], n)
  {
    hide Target, Subscribe, Unsubscribe, UpdateAll;
  }

  lemma {:induction false} IndependentWhileDistinct(cs: seq<Client>, ns: seq<Notify>, k: nat)
    requires k < |cs| && DistinctThroughout(cs, ns)
    ensures RunAll(cs, ns)[k] == Run(cs[k], ns)
    decreases ns
  {
    if ns != [] {
      DeliveredAt(cs, ns[0], k);
      IndependentWhileDistinct(Deliver(cs, ns[0]), ns[1..], k);
    }
  }

  // ---------------------------------------------------------------------
  // Fresh SIDs
  // ---------------------------------------------------------------------

  /** The SID that the device would grant if the notification made the control point subscribe again; "" for none. */
  function GrantSid(n: Notify): string {
    if n.grant.Some? then OrEmpty(n.grant.value.0) else ""
  }

  /** The SIDs that devices grant are new to the cache and different from each other. */
  ghost predicate FreshGrants(cs: seq<Client>, ns: seq<Notify>) {
    && (forall m, k | 0 <= m < |ns| && 0 <= k < |cs| && GrantSid(ns[m]) != "" :: cs[k].sub.sid != GrantSid(ns[m]))
    && (forall l, m | 0 <= l < m < |ns| && GrantSid(ns[l]) != "" :: GrantSid(ns[l]) != GrantSid(ns[m]))
  }

  /** A delivery leaves every SID alone, or replaces one by the granted one. */
  lemma SidAfter(c: Client, n: Notify)
    ensures Receive(c, n).sub.sid == c.sub.sid || Receive(c, n).sub.sid == GrantSid(n)
  {
    hide UpdateAll;
  }

  lemma SidsAfter(cs: seq<Client>, n: Notify, k: nat)
    requires k < |cs|
    ensures Deliver(cs, n)[k].sub.sid == cs[k].sub.sid
         || (Target(cs, n) == Some(k) && Deliver(cs, n)[k].sub.sid == GrantSid(n))
  {
    hide Target, Receive;
    SidAfter(cs[k], n);
  }

  /** Nothing but the granted SIDs matters: distinct ones stay distinct as long as the grants are fresh. */
  lemma {:induction false} FreshGrantsKeepDistinct(cs: seq<Client>, ns: seq<Notify>)
    requires DistinctSids(cs) && FreshGrants(cs, ns)
    ensures DistinctThroughout(cs, ns)
    decreases ns
  {
    if ns != [] {
      var cs' := Deliver(cs, ns[0]);
      hide Deliver, Target, GrantSid;
      forall k | 0 <= k < |cs|
        ensures cs'[k].sub.sid == cs[k].sub.sid || (Target(cs, ns[0]) == Some(k) && cs'[k].sub.sid == GrantSid(ns[0]))
      {
        SidsAfter(cs, ns[0], k);
      }
      assert forall m | 0 <= m < |ns[1..]| :: ns[1..][m] == ns[m + 1];
      assert DistinctSids(cs');
      assert FreshGrants(cs', ns[1..]);
      FreshGrantsKeepDistinct(cs', ns[1..]);
    }
  }

  /**
   * As long as devices hand out different SIDs, every service sees exactly
   * its own notifications: what is proved of one service holds of each.
   */
  lemma ServicesAreIndependent(cs: seq<Client>, ns: seq<Notify>, k: nat)
    requires k < |cs| && DistinctSids(cs) && FreshGrants(cs, ns)
    ensures RunAll(cs, ns)[k] == Run(cs[k], ns)
  {
    hide RunAll, Run, DistinctSids, FreshGrants, DistinctThroughout;
    FreshGrantsKeepDistinct(cs, ns);
    IndependentWhileDistinct(cs, ns, k);
  }

  /** With a shared SID only the first service in search order is told. */
  lemma LaterServiceIsShadowed(cs: seq<Client>, n: Notify, i: nat, k: nat)
    requires i < k < |cs| && IsFor(cs[i].sub, n)
    ensures Deliver(cs, n)[k] == cs[k]
  {
  }
}
