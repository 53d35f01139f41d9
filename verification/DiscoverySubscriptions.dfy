/** Event subscriptions through runs of the discovery protocol. */
module DiscoverySubscriptions {
  import opened Sequences
  import opened Text
  import opened DeviceTree
  import opened DeviceUpdate
  import opened Discovery
  import opened DiscoveryInvariant
  import opened DiscoveryRuns

  // ---------------------------------------------------------------------
  // Following a root object
  // ---------------------------------------------------------------------

  /** Where in the list a root object is. */
  function PlaceOf(roots: seq<Root>, objectId: nat): (r: Option<nat>)
    ensures r.Some? ==>
      && r.value < |roots| && roots[r.value].objectId == objectId
      && forall j | 0 <= j < r.value :: roots[j].objectId != objectId
    ensures r.None? ==> forall j | 0 <= j < |roots| :: roots[j].objectId != objectId
  {
    if roots == [] then None
    else if roots[0].objectId == objectId then Some(0)
    else
      match PlaceOf(roots[1..], objectId)
      case None => None
      case Some(i) => Some(i + 1)
  }

  /** A service of a cached device: the root object, the UDN of the owner and the serviceId. */
  datatype Address = Address(objectId: nat, udn: CString, serviceId: CString)

  /** The subscription at an address; `None` if the root is not cached or its description has no such service. */
  function SubscriptionAt(roots: seq<Root>, a: Address): Option<Subscription> {
    var k := PlaceOf(roots, a.objectId);
    if k.None? then None
    else
      match ServiceAt(roots[k.value].dev.tree, a.udn, a.serviceId)
      case None => None
      case Some(service) => Some(service.sub)
  }

  predicate HoldsSubscription(roots: seq<Root>, a: Address) {
    var sub := SubscriptionAt(roots, a);
    sub.Some? && IsSubscribed(sub.value)
  }

  /** The root object stays cached, and keeps the subscription if its description still has the address. */
  predicate KeepsSubscription(roots: seq<Root>, roots': seq<Root>, a: Address) {
    && PlaceOf(roots', a.objectId).Some?
    && (SubscriptionAt(roots', a).Some? ==> SubscriptionAt(roots', a) == SubscriptionAt(roots, a))
  }

  /** A device with UDN `x` is listed in the first one with this UDN, which a byebye for it takes out. */
  predicate GoesWith(d: Device, udn: string, x: CString) {
    var gone := FindByUdn(d, Some(udn));
    gone.Some? && FindByUdn(gone.value, x).Some?
  }

  /**
   * The steps that are meant for this subscription: the end of a stop, a
   * subscribe or an event that changes it, and a byebye for the device it
   * belongs to or one that this device is embedded in.
   */
  predicate Concerns(s: System, step: Step, a: Address) {
    match step
    case StopEnds => true
    case SubscriptionChange(i, tree) =>
      && i < |s.shared.roots| && Some(i) == PlaceOf(s.shared.roots, a.objectId)
      && ServiceAt(tree, a.udn, a.serviceId) != ServiceAt(s.shared.roots[i].dev.tree, a.udn, a.serviceId)
    case Byebye(udn) =>
      var found := RootIndex(s.shared.roots, udn);
      && found.Some? && s.shared.roots[found.value].objectId == a.objectId
      && GoesWith(s.shared.roots[found.value].dev.tree, udn, a.udn)
    case _ => false
  }

  // ---------------------------------------------------------------------
  // One step
  // ---------------------------------------------------------------------

  /** The roots keep their places, up to new ones at the end. */
  ghost predicate SamePlaces(roots: seq<Root>, roots': seq<Root>) {
    |roots| <= |roots'| && forall k | 0 <= k < |roots| :: roots'[k].objectId == roots[k].objectId
  }

  lemma PlaceStays(roots: seq<Root>, roots': seq<Root>, objectId: nat)
    requires SamePlaces(roots, roots') && PlaceOf(roots, objectId).Some?
    ensures PlaceOf(roots', objectId) == PlaceOf(roots, objectId)
  {
  }

  /** Taking out another root moves the place by one at most. */
  lemma PlaceAfterRemoval(roots: seq<Root>, i: nat, objectId: nat)
    requires i < |roots| && PlaceOf(roots, objectId).Some? && PlaceOf(roots, objectId) != Some(i)
    ensures var k := PlaceOf(roots, objectId).value;
            PlaceOf(roots[..i] + roots[i + 1..], objectId) == Some(if k < i then k else k - 1)
  {
    hide PlaceOf;
    WithoutAt(roots, i);
    PlaceMoves(roots, roots[..i] + roots[i + 1..], i, objectId);
  }

  lemma PlaceMoves(roots: seq<Root>, roots': seq<Root>, i: nat, objectId: nat)
    requires i < |roots| && PlaceOf(roots, objectId).Some? && PlaceOf(roots, objectId) != Some(i)
    requires |roots'| == |roots| - 1 && forall j | 0 <= j < |roots'| :: roots'[j] == roots[if j < i then j else j + 1]
    ensures var k := PlaceOf(roots, objectId).value;
            PlaceOf(roots', objectId) == Some(if k < i then k else k - 1)
  {
    hide PlaceOf;
    var k := PlaceOf(roots, objectId).value;
    assert roots'[if k < i then k else k - 1] == roots[k];
  }

  lemma CommitKeepsSubscription(roots: seq<Root>, call: Call, candidate: Option<Root>, a: Address)
    requires candidate.Some? ==> Usable(candidate.value.dev)
    requires HoldsSubscription(roots, a)
    ensures KeepsSubscription(roots, CommitRoots(roots, call, candidate).0, a)
  {
    hide CommitRoots, CaseOf, ServiceAt, TreeHas, DescriptionChanged, PlaceOf;
    var roots' := CommitRoots(roots, call, candidate).0;
    CommitRootsCases(roots, call, candidate);
    match CaseOf(roots, call, candidate)
    case Unchanged =>
    case Appended => PlaceStays(roots, roots', a.objectId);
    case InPlace(i) =>
      PlaceStays(roots, roots', a.objectId);
      CopyKeepsSubscriptionAtAddress(candidate.value.dev.tree, roots[i].dev.tree, a.udn, a.serviceId);
  }

  lemma AnnouncementKeepsSubscription(s: System, packet: Packet, a: Address)
    requires HoldsSubscription(s.shared.roots, a)
    ensures KeepsSubscription(s.shared.roots, ApplyAnnounce(s, packet).shared.roots, a)
  {
    hide ApplyAnnounce, ServiceAt, PlaceOf;
    RootsAfterAnnouncement(s, packet);
    PlaceStays(s.shared.roots, ApplyAnnounce(s, packet).shared.roots, a.objectId);
  }

  /** Both searches find the same services, as far as they find anything. */
  predicate SameServicesFound(d: Device, d': Device, x: CString) {
    && (FindByUdn(d', x).Some? <==> FindByUdn(d, x).Some?)
    && (FindByUdn(d, x).Some? ==> FindByUdn(d', x).value.services == FindByUdn(d, x).value.services)
  }

  predicate SameServicesAmong(ds: seq<Device>, ds': seq<Device>, x: CString) {
    && (FindByUdnAmong(ds', x).Some? <==> FindByUdnAmong(ds, x).Some?)
    && (FindByUdnAmong(ds, x).Some? ==> FindByUdnAmong(ds', x).value.services == FindByUdnAmong(ds, x).value.services)
  }

  /** Taking out an embedded device leaves the services of every device that is not listed in it. */
  lemma {:induction false} PruneKeepsServices(d: Device, udn: string, x: CString)
    requires FindByUdnAmong(d.children, Some(udn)).Some?
    requires FindByUdn(FindByUdnAmong(d.children, Some(udn)).value, x).None?
    ensures SameServicesFound(d, Prune(d, udn), x)
    decreases d, 1
  {
    PruneAmongKeepsServices(d.children, udn, x);
  }

  lemma {:induction false} PruneAmongKeepsServices(ds: seq<Device>, udn: string, x: CString)
    requires FindByUdnAmong(ds, Some(udn)).Some? && FindByUdn(FindByUdnAmong(ds, Some(udn)).value, x).None?
    ensures SameServicesAmong(ds, PruneAmong(ds, udn), x)
    decreases ds, 0
  {
    if !StrEq(ds[0].node.udn, Some(udn)) {
      if FindByUdnAmong(ds[0].children, Some(udn)).Some? {
        PruneKeepsServices(ds[0], udn, x);
        assert ([Prune(ds[0], udn)] + ds[1..])[1..] == ds[1..];
      } else {
        PruneAmongKeepsServices(ds[1..], udn, x);
        assert ([ds[0]] + PruneAmong(ds[1..], udn))[1..] == PruneAmong(ds[1..], udn);
      }
    }
  }

  lemma PruneKeepsSubscription(d: Device, udn: string, x: CString, serviceId: CString)
    requires TreeHas(d, udn) && !StrEq(d.node.udn, Some(udn)) && !GoesWith(d, udn, x)
    ensures ServiceAt(Prune(d, udn), x, serviceId) == ServiceAt(d, x, serviceId)
  {
    PruneKeepsServices(d, udn, x);
    hide Prune, FindByUdn;
  }

  lemma ByebyeKeepsSubscription(roots: seq<Root>, udn: string, a: Address)
    requires HoldsSubscription(roots, a)
    requires var found := RootIndex(roots, udn);
             found.Some? ==> roots[found.value].objectId != a.objectId || !GoesWith(roots[found.value].dev.tree, udn, a.udn)
    ensures KeepsSubscription(roots, RemoveFrom(roots, udn).0, a)
  {
    hide ServiceAt, PlaceOf, RootIndex, Prune, TreeHas, GoesWith;
    var found := RootIndex(roots, udn);
    if found.Some? {
      var k := PlaceOf(roots, a.objectId).value;
      RootGoesWithAll(roots[k].dev.tree, udn, a.udn, a.serviceId);
      if StrEq(UdnOf(roots[found.value]), Some(udn)) {
        PlaceAfterRemoval(roots, found.value, a.objectId);
      } else {
        PlaceStays(roots, RemoveFrom(roots, udn).0, a.objectId);
        if found.value == k {
          PruneKeepsSubscription(roots[k].dev.tree, udn, a.udn, a.serviceId);
        }
      }
    }
  }

  /** Everything goes with the root. */
  lemma RootGoesWithAll(d: Device, udn: string, x: CString, serviceId: CString)
    requires ServiceAt(d, x, serviceId).Some?
    ensures StrEq(d.node.udn, Some(udn)) && TreeHas(d, udn) ==> GoesWith(d, udn, x)
  {
  }

  lemma ChangeKeepsSubscription(s: System, step: Step, a: Address)
    requires step.SubscriptionChange? && Enabled(s, step) && !Concerns(s, step, a)
    requires HoldsSubscription(s.shared.roots, a)
    ensures KeepsSubscription(s.shared.roots, Apply(s, step).shared.roots, a)
  {
    hide ServiceAt, PlaceOf, Strip;
    PlaceStays(s.shared.roots, Apply(s, step).shared.roots, a.objectId);
  }

  lemma RootsAfterByebye(s: System, udn: string)
    ensures Apply(s, Byebye(udn)).shared.roots == RemoveFrom(s.shared.roots, udn).0
  {
    hide RemoveFrom;
  }

  /**
   * Nothing that happens to the cache costs a subscription that it is not
   * meant for: it stays as it is, SID, timeout, timestamp and event key, for
   * as long as its address is in the description, wherever its root moves.
   */
  lemma StepKeepsSubscription(s: System, step: Step, a: Address)
    requires Inv(s) && Enabled(s, step) && !Concerns(s, step, a)
    requires HoldsSubscription(s.shared.roots, a)
    ensures KeepsSubscription(s.shared.roots, Apply(s, step).shared.roots, a)
  {
    hide KeepsSubscription, HoldsSubscription, ServiceAt, PlaceOf, TreeHas, RootIndex, Usable;
    hide CommitRoots, ApplyAnnounce, RemoveFrom, PassesTest, OwnershipOk, PendingOk, RootsOk, Strip;
    match step
    case Announce(packet) => AnnouncementKeepsSubscription(s, packet, a);
    case CommitCall(id) =>
      RootsAfterCommit(s, id);
      CommitKeepsSubscription(s.shared.roots, s.threads[id].call, s.threads[id].phase.candidate, a);
      Unaffected(s.shared.roots, a);
    case Byebye(udn) =>
      RootsAfterByebye(s, udn);
      ByebyeKeepsSubscription(s.shared.roots, udn, a);
    case SubscriptionChange(_, _) => ChangeKeepsSubscription(s, step, a);
    case _ =>
      RootsOtherwise(s, step);
      Unaffected(s.shared.roots, a);
  }

  lemma Unaffected(roots: seq<Root>, a: Address)
    requires HoldsSubscription(roots, a)
    ensures KeepsSubscription(roots, roots, a)
  {
  }

  // ---------------------------------------------------------------------
  // Runs
  // ---------------------------------------------------------------------

  /** From `i` to `j` no step is meant for the subscription, and the description has the address all the time. */
  ghost predicate AddressStays(states: seq<System>, steps: seq<Step>, i: nat, j: nat, a: Address)
    requires |states| == |steps| + 1 && i <= j <= |steps|
  {
    && (forall m | i <= m < j :: !Concerns(states[m], steps[m], a))
    && (forall m | i <= m <= j :: SubscriptionAt(states[m].shared.roots, a).Some?)
  }

  lemma RunLength(states: seq<System>, steps: seq<Step>)
    requires IsRun(states, steps)
    ensures |states| == |steps| + 1
  {
  }

  lemma StaysUntilLast(states: seq<System>, steps: seq<Step>, i: nat, j: nat, a: Address)
    requires |states| == |steps| + 1 && i < j <= |steps| && AddressStays(states, steps, i, j, a)
    ensures AddressStays(states, steps, i, j - 1, a) && !Concerns(states[j - 1], steps[j - 1], a)
    ensures SubscriptionAt(states[j].shared.roots, a).Some?
  {
    hide SubscriptionAt, Concerns;
  }

  lemma RunStepKeepsSubscription(states: seq<System>, steps: seq<Step>, n: nat, a: Address)
    requires IsRun(states, steps) && n < |steps| && !Concerns(states[n], steps[n], a)
    requires HoldsSubscription(states[n].shared.roots, a)
    ensures KeepsSubscription(states[n].shared.roots, states[n + 1].shared.roots, a)
  {
    hide Inv, Enabled, Apply, HoldsSubscription, KeepsSubscription, Concerns;
    RunsKeepInv(states, steps, n);
    StepKeepsSubscription(states[n], steps[n], a);
  }

  /**
   * Over runs: a subscription is never lost or changed while its address is in
   * the description of its root, whatever happens to other devices, to other
   * services of the same device, and to the place of the root in the list.
   */
  lemma {:induction false} SubscriptionsSurvive(states: seq<System>, steps: seq<Step>, i: nat, j: nat, a: Address)
    requires IsRun(states, steps) && i <= j <= |steps| && AddressStays(states, steps, i, j, a)
    requires HoldsSubscription(states[i].shared.roots, a)
    ensures SubscriptionAt(states[j].shared.roots, a) == SubscriptionAt(states[i].shared.roots, a)
    decreases j
  {
    hide IsRun, AddressStays, SubscriptionAt, Concerns;
    RunLength(states, steps);
    if i < j {
      StaysUntilLast(states, steps, i, j, a);
      SubscriptionsSurvive(states, steps, i, j - 1, a);
      RunStepKeepsSubscription(states, steps, j - 1, a);
    }
  }
}
