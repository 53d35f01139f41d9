/**
 * No ABA: when an update is committed, the root is what it was at reservation.
 *
 * This needs that the descriptions which mention the announced device agree
 * on its family, the devices in one tree with it. A device that is only ever
 * described without embedded devices is a family of its own.
 */
module DiscoveryFamilies {
  import opened Text
  import opened DeviceTree
  import opened DeviceUpdate
  import opened Discovery
  import opened DiscoveryInvariant
  import opened DiscoveryRuns

  /** The UDNs of a root device and of the devices embedded in it. */
  datatype Family = Family(root: string, members: string -> bool)

  ghost predicate Mentions(d: Device, family: Family) {
    exists udn :: TreeHas(d, udn) && family.members(udn)
  }

  /** A description that mentions a member has no others and has the family's root; any other one is free. */
  ghost predicate InFamily(d: Device, family: Family) {
    Mentions(d, family) ==> d.node.udn == Some(family.root) && forall udn | TreeHas(d, udn) :: family.members(udn)
  }

  /** A description that arrives in this step agrees with the family. */
  ghost predicate StepInFamily(step: Step, family: Family) {
    step.Receive? && step.response.Some? ==> InFamily(step.response.value.tree, family)
  }

  // ---------------------------------------------------------------------
  // Operations keep the members of a tree
  // ---------------------------------------------------------------------

  lemma {:induction false} PruneKeepsMembers(d: Device, udn: string, x: CString)
    ensures FindByUdn(Prune(d, udn), x).Some? ==> FindByUdn(d, x).Some?
    decreases d, 1
  {
    PruneAmongKeepsMembers(d.children, udn, x);
  }

  lemma {:induction false} PruneAmongKeepsMembers(ds: seq<Device>, udn: string, x: CString)
    ensures FindByUdnAmong(PruneAmong(ds, udn), x).Some? ==> FindByUdnAmong(ds, x).Some?
    decreases ds, 0
  {
    if ds != [] && !StrEq(ds[0].node.udn, Some(udn)) {
      if FindByUdnAmong(ds[0].children, Some(udn)).Some? {
        PruneKeepsMembers(ds[0], udn, x);
        assert ([Prune(ds[0], udn)] + ds[1..])[1..] == ds[1..];
      } else {
        PruneAmongKeepsMembers(ds[1..], udn, x);
        assert ([ds[0]] + PruneAmong(ds[1..], udn))[1..] == PruneAmong(ds[1..], udn);
      }
    }
  }

  lemma {:induction false} StripKeepsMembers(d: Device, x: CString)
    ensures FindByUdn(Strip(d), x).Some? <==> FindByUdn(d, x).Some?
    decreases d, 1
  {
    StripAllKeepsMembers(d.children, x);
  }

  lemma {:induction false} StripAllKeepsMembers(ds: seq<Device>, x: CString)
    ensures FindByUdnAmong(StripAll(ds), x).Some? <==> FindByUdnAmong(ds, x).Some?
    decreases ds, 0
  {
    if ds != [] {
      StripKeepsMembers(ds[0], x);
      StripAllKeepsMembers(ds[1..], x);
      assert ([Strip(ds[0])] + StripAll(ds[1..]))[1..] == StripAll(ds[1..]);
    }
  }

  lemma SameMembers(d: Device, d': Device, family: Family)
    requires Strip(d) == Strip(d')
    ensures forall udn :: TreeHas(d, udn) <==> TreeHas(d', udn)
    ensures InFamily(d, family) ==> InFamily(d', family)
  {
    forall udn ensures TreeHas(d, udn) <==> TreeHas(d', udn) {
      StripKeepsMembers(d, Some(udn));
      StripKeepsMembers(d', Some(udn));
    }
    assert d.node == Strip(d).node == d'.node;
    FewerMembers(d, d', family);
  }

  /** A tree with the same root and no more members keeps to the family. */
  lemma FewerMembers(d: Device, d': Device, family: Family)
    requires d'.node == d.node && forall udn | TreeHas(d', udn) :: TreeHas(d, udn)
    ensures InFamily(d, family) ==> InFamily(d', family)
  {
  }

  lemma UpdateKeepsFamily(r: Root, candidate: Root, packet: Packet, family: Family)
    requires InFamily(r.dev.tree, family) && InFamily(candidate.dev.tree, family)
    ensures InFamily(UpdateRoot(r, candidate, packet).0.dev.tree, family)
  {
    var d, c := r.dev.tree, candidate.dev.tree;
    forall udn | TreeHas(CopySubscriptions(c, d), udn) ensures TreeHas(c, udn) {
      CopyCommutesWithFind(c, d, Some(udn));
    }
    FewerMembers(c, CopySubscriptions(c, d), family);
  }

  lemma PruneKeepsFamily(d: Device, udn: string, family: Family)
    requires InFamily(d, family)
    ensures InFamily(Prune(d, udn), family)
  {
    forall x | TreeHas(Prune(d, udn), x) ensures TreeHas(d, x) {
      PruneKeepsMembers(d, udn, Some(x));
    }
    FewerMembers(d, Prune(d, udn), family);
  }

  // ---------------------------------------------------------------------
  // The cache and the calls keep to the family
  // ---------------------------------------------------------------------

  ghost predicate RootsInFamily(roots: seq<Root>, family: Family) {
    forall i | 0 <= i < |roots| :: InFamily(roots[i].dev.tree, family)
  }

  ghost predicate CandidatesInFamily(threads: map<nat, Thread>, family: Family) {
    forall id | id in threads && Holds(threads[id]) :: InFamily(threads[id].phase.candidate.value.dev.tree, family)
  }

  /** A call for a member that found a root cached has recorded the family's root UDN. */
  ghost predicate EntryInFamily(s: System, id: nat, family: Family) {
    && id in s.threads && s.threads[id].call.cachedLocation.Some? && family.members(s.threads[id].call.packet.udn)
    && EntryOf(s.shared.pending, id).Some? ==>
      EntryOf(s.shared.pending, id).value.rootUdn == family.root
  }

  lemma CommitKeepsRootsInFamily(roots: seq<Root>, call: Call, candidate: Option<Root>, family: Family)
    requires RootsInFamily(roots, family)
    requires candidate.Some? ==> Usable(candidate.value.dev) && InFamily(candidate.value.dev.tree, family)
    ensures RootsInFamily(CommitRoots(roots, call, candidate).0, family)
  {
    CommitRootsCases(roots, call, candidate);
    match CaseOf(roots, call, candidate)
    case Unchanged =>
    case Appended => hide CommitRoots, CaseOf, InFamily, TreeHas, UpdateRoot;
    case InPlace(i) =>
      UpdateKeepsFamily(roots[i], candidate.value, call.packet, family);
      hide CommitRoots, CaseOf, InFamily, TreeHas, UpdateRoot;
  }

  lemma AnnounceKeepsRootsInFamily(s: System, packet: Packet, family: Family)
    requires RootsInFamily(s.shared.roots, family)
    ensures RootsInFamily(ApplyAnnounce(s, packet).shared.roots, family)
  {
    ReserveCases(s.shared, s.calls, packet);
    hide Reserve, InFamily, TreeHas, SameReservations;
  }

  lemma ByebyeKeepsRootsInFamily(sh: Shared, udn: string, family: Family)
    requires RootsInFamily(sh.roots, family)
    ensures RootsInFamily(Remove(sh, udn).0.roots, family)
  {
    var found := RootIndex(sh.roots, udn);
    if found.Some? {
      PruneKeepsFamily(sh.roots[found.value].dev.tree, udn, family);
    }
    hide InFamily, TreeHas;
  }

  lemma StepKeepsRootsInFamily(s: System, step: Step, family: Family)
    requires ThreadsOk(s) && Enabled(s, step)
    requires RootsInFamily(s.shared.roots, family) && CandidatesInFamily(s.threads, family)
    ensures RootsInFamily(Apply(s, step).shared.roots, family)
  {
    var roots := s.shared.roots;
    match step
    case Announce(packet) => AnnounceKeepsRootsInFamily(s, packet, family);
    case CommitCall(id) =>
      CommitKeepsRootsInFamily(roots, s.threads[id].call, s.threads[id].phase.candidate, family);
      hide CommitRoots, InFamily, TreeHas, RootsInFamily;
    case Byebye(udn) => ByebyeKeepsRootsInFamily(s.shared, udn, family);
    case SubscriptionChange(i, tree) =>
      SameMembers(roots[i].dev.tree, tree, family);
      hide InFamily, TreeHas;
    case _ => hide InFamily, TreeHas;
  }

  lemma StepKeepsCandidatesInFamily(s: System, step: Step, family: Family)
    requires Enabled(s, step) && StepInFamily(step, family)
    requires CandidatesInFamily(s.threads, family)
    ensures CandidatesInFamily(Apply(s, step).threads, family)
  {
    hide Reserve, Commit, Remove, InFamily, TreeHas, Usable;
  }

  /** The root UDN that a new reservation records. */
  lemma ReservedRootUdn(s: System, packet: Packet, family: Family)
    requires Inv(s) && RootsInFamily(s.shared.roots, family)
    ensures EntryInFamily(ApplyAnnounce(s, packet), s.calls, family)
  {
    var (sh', reservation) := Reserve(s.shared, s.calls, packet);
    if reservation.Reserved? {
      EntryOfHead(sh'.pending[0], sh'.pending[1..]);
      assert sh'.pending == [sh'.pending[0]] + sh'.pending[1..];
      hide Inv, Scan, EntryOf;
    } else {
      assert s.calls !in s.threads;
      hide Inv, Reserve, EntryOf;
    }
  }

  lemma NoOtherNewCall(s: System, step: Step)
    requires Inv(s) && Enabled(s, step)
    ensures !step.Announce? ==> s.calls !in Apply(s, step).threads
  {
    assert s.calls !in s.threads;
    hide Inv, Reserve, Commit, Remove, Usable, TreeHas;
  }

  lemma StepKeepsEntryInFamily(s: System, step: Step, id: nat, family: Family)
    requires Inv(s) && Enabled(s, step) && RootsInFamily(s.shared.roots, family)
    requires EntryInFamily(s, id, family)
    ensures id <= s.calls ==> EntryInFamily(Apply(s, step), id, family)
  {
    EndedCallsStayEnded(s, step);
    if id == s.calls && step.Announce? {
      ReservedRootUdn(s, step.packet, family);
    } else {
      NoOtherNewCall(s, step);
      hide Inv, Apply, Enabled, EntryOf, RootsInFamily;
      if id in s.threads && step != CommitCall(id) {
        StepKeepsCall(s, step, id);
      }
    }
  }

  lemma {:induction false} FamilyThroughRun(
    states: seq<System>, steps: seq<Step>, family: Family, j: nat, id: nat)
    requires IsRun(states, steps) && j <= |steps|
    requires forall m | 0 <= m < j :: StepInFamily(steps[m], family)
    ensures RootsInFamily(states[j].shared.roots, family) && CandidatesInFamily(states[j].threads, family)
    ensures EntryInFamily(states[j], id, family)
  {
    hide Enabled, Apply, StepInFamily;
    RunsKeepInv(states, steps, j);
    if j > 0 {
      FamilyThroughRun(states, steps, family, j - 1, id);
      RunsKeepInv(states, steps, j - 1);
      hide RootsInFamily, CandidatesInFamily, EntryOf, OwnershipOk, RootsOk, PendingOk, ModeOk;
      StepKeepsRootsInFamily(states[j - 1], steps[j - 1], family);
      StepKeepsCandidatesInFamily(states[j - 1], steps[j - 1], family);
      StepKeepsEntryInFamily(states[j - 1], steps[j - 1], id, family);
      CallsGrowByOne(states[j - 1], steps[j - 1]);
    }
  }

  lemma CallsGrowByOne(s: System, step: Step)
    requires Enabled(s, step)
    ensures Apply(s, step).calls <= s.calls + 1
  {
    hide Reserve, Commit, Remove, Usable, TreeHas;
  }

  // ---------------------------------------------------------------------
  // A root between reservation and commit
  // ---------------------------------------------------------------------

  /** The same root object with the same description and LOCATION; subscriptions may have come and gone. */
  ghost predicate KeptAt(before: seq<Root>, after: seq<Root>, k: nat) {
    && k < |before| && k < |after|
    && after[k].objectId == before[k].objectId && after[k].descriptionId == before[k].descriptionId
    && Strip(after[k].dev.tree) == Strip(before[k].dev.tree) && LocationOf(after[k]) == LocationOf(before[k])
  }

  /** The commit in this step may update the root whose tree this is. */
  ghost predicate MayUpdate(s: System, step: Step, d: Device) {
    && step.CommitCall? && step.id in s.threads && PassesTest(s, step.id)
    && s.threads[step.id].call.cachedLocation.Some? && TreeHas(d, s.threads[step.id].call.packet.udn)
  }

  lemma CommitKeepsRootAt(s: System, id: nat, k: nat)
    requires ThreadsOk(s) && Enabled(s, CommitCall(id)) && k < |s.shared.roots|
    ensures KeptAt(s.shared.roots, Apply(s, CommitCall(id)).shared.roots, k)
         || MayUpdate(s, CommitCall(id), s.shared.roots[k].dev.tree)
  {
    hide Apply, CommitRoots, CaseOf, Strip, TreeHas, UpdateRoot, PassesTest;
    RootsAfterCommit(s, id);
    var t := s.threads[id];
    CommitRootsCases(s.shared.roots, t.call, t.phase.candidate);
  }

  lemma AnnouncementKeepsRootAt(s: System, packet: Packet, k: nat)
    requires k < |s.shared.roots|
    ensures KeptAt(s.shared.roots, ApplyAnnounce(s, packet).shared.roots, k)
  {
    hide ApplyAnnounce, Strip;
    RootsAfterAnnouncement(s, packet);
  }

  lemma StepKeepsRootAt(s: System, step: Step, k: nat)
    requires Inv(s) && Enabled(s, step) && !Invalidates(step) && !s.shared.stopping && k < |s.shared.roots|
    ensures KeptAt(s.shared.roots, Apply(s, step).shared.roots, k) || MayUpdate(s, step, s.shared.roots[k].dev.tree)
  {
    hide ApplyAnnounce, ApplyReceive, ApplyCommit, OwnershipOk, RootsOk, PendingOk, ThreadsOk, PendingIsInFlight;
    hide TreeHas, Usable, Strip;
    match step
    case Announce(packet) => AnnouncementKeepsRootAt(s, packet, k);
    case CommitCall(id) => CommitKeepsRootAt(s, id, k);
    case Receive(_, _) => RootsOtherwise(s, step);
    case _ =>
  }

  /** Every call in flight was reserved by some earlier step. */
  lemma {:induction false} FindReservation(states: seq<System>, steps: seq<Step>, j: nat, id: nat) returns (i: nat)
    requires IsRun(states, steps) && j <= |steps| && id in states[j].threads
    ensures i < j && ReservesAt(states, steps, i, id)
  {
    hide Inv, Apply, Enabled;
    RunsKeepInv(states, steps, j);
    InFlightHasEntry(states[j], id);
    assert j > 0;
    if id in states[j - 1].threads {
      i := FindReservation(states, steps, j - 1, id);
    } else {
      EndedCallsStayEnded(states[j - 1], steps[j - 1]);
      CallsGrowByOne(states[j - 1], steps[j - 1]);
      OnlyAnnouncementsAddCalls(states[j - 1], steps[j - 1]);
      i := j - 1;
    }
  }

  lemma OnlyAnnouncementsAddCalls(s: System, step: Step)
    requires Enabled(s, step)
    ensures !step.Announce? ==> Apply(s, step).calls == s.calls
  {
    hide Commit, Remove, Usable, TreeHas;
  }

  /** The recorded root UDN of a call that found root `k` cached. */
  lemma ReservationOfRoot(states: seq<System>, steps: seq<Step>, family: Family, i: nat, id: nat, k: nat)
    requires IsRun(states, steps) && ReservesAt(states, steps, i, id)
    requires forall m | 0 <= m < i :: StepInFamily(steps[m], family)
    requires RootIndex(states[i].shared.roots, steps[i].packet.udn) == Some(k) && family.members(steps[i].packet.udn)
    ensures KeptAt(states[i].shared.roots, states[i + 1].shared.roots, k)
    ensures UdnOf(states[i].shared.roots[k]) == Some(family.root)
    ensures var e := EntryOf(states[i + 1].shared.pending, id);
            e.Some? && Some(e.value.rootUdn) == UdnOf(states[i].shared.roots[k])
  {
    var s, packet := states[i], steps[i].packet;
    RunsKeepInv(states, steps, i);
    FamilyThroughRun(states, steps, family, i, id);
    assert TreeHas(s.shared.roots[k].dev.tree, packet.udn) && InFamily(s.shared.roots[k].dev.tree, family);
    assert UdnOf(s.shared.roots[k]) == Some(family.root);
    hide IsRun, InFamily, TreeHas, Strip, OwnershipOk, PendingOk;
    assert s.calls !in s.threads;
    var (sh', reservation) := Reserve(s.shared, s.calls, packet);
    assert reservation.Reserved?;
    EntryOfHead(sh'.pending[0], sh'.pending[1..]);
    assert sh'.pending == [sh'.pending[0]] + sh'.pending[1..];
  }

  /** A call that publishes between the reservation and the publication of `id` is not its rival. */
  lemma NoRivalPublishes(states: seq<System>, steps: seq<Step>, i: nat, m: nat, j: nat, id: nat, b: nat)
    requires IsRun(states, steps) && ReservesAt(states, steps, i, id) && PublishesAt(states, steps, j, id)
    requires i < m < j && PublishesAt(states, steps, m, b)
    ensures var e, eb := EntryOf(states[i + 1].shared.pending, id), EntryOf(states[m].shared.pending, b);
            e.Some? && eb.Some? && eb.value.udn != e.value.udn && eb.value.rootUdn != e.value.rootUdn
  {
    hide Inv, Enabled, Apply, EntryOf, PassesTest;
    InFlightBetween(states, steps, i, i + 1, j, id);
    CommitIsEnabled(states[m], b, steps[m]);
    var ib := FindReservation(states, steps, m, b);
    InFlightBetween(states, steps, ib, ib + 1, m, b);
    var e, eb := EntryOf(states[i + 1].shared.pending, id), EntryOf(states[ib + 1].shared.pending, b);
    if eb.value.udn == e.value.udn || eb.value.rootUdn == e.value.rootUdn {
      if ib < i {
        PublicationsInReservationOrder(states, steps, ib, m, b, i, j, id);
      } else if ib > i {
        PublicationsInReservationOrder(states, steps, i, j, id, ib, m, b);
      } else {
        InFlightBetween(states, steps, i, m + 1, j, id);
        CallsGrow(states, steps, i + 1, m);
        NewCallIsCounted(states[i], steps[i]);
        EndedCallsStayEnded(states[m], steps[m]);
      }
      assert false;
    }
  }

  /** Another call that would update the root before `id` commits is its rival, and rivals do not publish. */
  lemma NoRivalUpdate(states: seq<System>, steps: seq<Step>, family: Family,
                      i: nat, m: nat, j: nat, id: nat, k: nat)
    requires IsRun(states, steps) && ReservesAt(states, steps, i, id) && PublishesAt(states, steps, j, id)
    requires forall m | 0 <= m < j :: StepInFamily(steps[m], family)
    requires RootIndex(states[i].shared.roots, steps[i].packet.udn) == Some(k) && family.members(steps[i].packet.udn)
    requires i < m < j && KeptAt(states[i].shared.roots, states[m].shared.roots, k)
    ensures !MayUpdate(states[m], steps[m], states[m].shared.roots[k].dev.tree)
  {
    hide Enabled, Apply, StepInFamily, PassesTest, RootIndex, Strip, TreeHas, OwnershipOk, RootsOk, PendingOk, ModeOk;
    if MayUpdate(states[m], steps[m], states[m].shared.roots[k].dev.tree) {
      var b := steps[m].id;
      ReservationOfRoot(states, steps, family, i, id, k);
      FamilyThroughRun(states, steps, family, m, b);
      NoRivalPublishes(states, steps, i, m, j, id, b);
      IndexedTreeHas(states[i].shared.roots, steps[i].packet.udn, k);
      SameMembers(states[i].shared.roots[k].dev.tree, states[m].shared.roots[k].dev.tree, family);
      MemberOfSameTree(states[m].shared.roots[k].dev.tree, steps[i].packet.udn, states[m].threads[b].call.packet.udn, family);
      assert false;
    }
  }

  lemma IndexedTreeHas(roots: seq<Root>, udn: string, k: nat)
    requires RootIndex(roots, udn) == Some(k)
    ensures k < |roots| && TreeHas(roots[k].dev.tree, udn)
  {
  }

  lemma MemberOfSameTree(d: Device, x: string, y: string, family: Family)
    requires InFamily(d, family) && TreeHas(d, x) && TreeHas(d, y) && family.members(x)
    ensures family.members(y)
  {
  }

  lemma {:induction false} KeptUntil(states: seq<System>, steps: seq<Step>, family: Family,
                                     i: nat, m: nat, j: nat, id: nat, k: nat)
    requires IsRun(states, steps) && ReservesAt(states, steps, i, id) && PublishesAt(states, steps, j, id)
    requires forall m | 0 <= m < j :: StepInFamily(steps[m], family)
    requires RootIndex(states[i].shared.roots, steps[i].packet.udn) == Some(k) && family.members(steps[i].packet.udn)
    requires i < m <= j
    ensures KeptAt(states[i].shared.roots, states[m].shared.roots, k)
    decreases m
  {
    hide Inv, Enabled, Apply, StepInFamily, Invalidates, PassesTest, RootIndex, MayUpdate, Strip;
    if m == i + 1 {
      ReservationOfRoot(states, steps, family, i, id, k);
    } else {
      KeptUntil(states, steps, family, i, m - 1, j, id, k);
      NoRivalUpdate(states, steps, family, i, m - 1, j, id, k);
      UndisturbedBefore(states, steps, i, m - 1, j, id);
      RunsKeepInv(states, steps, m - 1);
      StepKeepsRootAt(states[m - 1], steps[m - 1], k);
    }
  }

  lemma UndisturbedBefore(states: seq<System>, steps: seq<Step>, i: nat, m: nat, j: nat, id: nat)
    requires IsRun(states, steps) && ReservesAt(states, steps, i, id) && PublishesAt(states, steps, j, id)
    requires i < m < j
    ensures !Invalidates(steps[m]) && !states[m].shared.stopping
  {
    PublishesIffUndisturbed(states, steps, i, j, id);
    RunsKeepInv(states, steps, i);
    ReservedEpoch(states[i], steps[i].packet);
    hide Inv, Apply, Enabled, PassesTest;
    EpochThroughRun(states, steps, i + 1, m);
  }

  lemma FamilyRootIsIndexed(roots: seq<Root>, udn: string, k: nat, family: Family)
    requires RootsOk(roots) && RootsInFamily(roots, family) && k < |roots|
    requires TreeHas(roots[k].dev.tree, udn) && family.members(udn)
    ensures RootIndex(roots, udn) == Some(k)
  {
    var found := RootIndex(roots, udn);
    assert TreeHas(roots[found.value].dev.tree, udn);
    assert UdnOf(roots[found.value]) == Some(family.root) == UdnOf(roots[k]);
  }

  /**
   * No ABA: if a cached root was found at reservation and the commit passes
   * the publish test, then the same root is found at commit, at the same
   * place, with the same object, description and LOCATION as at reservation.
   */
  lemma NoAba(states: seq<System>, steps: seq<Step>, family: Family, i: nat, j: nat, id: nat, k: nat)
    requires IsRun(states, steps) && ReservesAt(states, steps, i, id) && PublishesAt(states, steps, j, id)
    requires forall m | 0 <= m < j :: StepInFamily(steps[m], family)
    requires RootIndex(states[i].shared.roots, steps[i].packet.udn) == Some(k) && family.members(steps[i].packet.udn)
    ensures i < j && KeptAt(states[i].shared.roots, states[j].shared.roots, k)
    ensures RootIndex(states[j].shared.roots, steps[i].packet.udn) == Some(k)
  {
    ReservedBeforeCommitted(states, steps, i, j, id);
    KeptUntil(states, steps, family, i, j, j, id, k);
    FamilyThroughRun(states, steps, family, j, id);
    RunsKeepInv(states, steps, j);
    var before, after := states[i].shared.roots[k].dev.tree, states[j].shared.roots[k].dev.tree;
    assert TreeHas(before, steps[i].packet.udn);
    SameMembers(before, after, family);
    hide Enabled, Apply, StepInFamily, PassesTest, TreeHas, RootIndex;
    FamilyRootIsIndexed(states[j].shared.roots, steps[i].packet.udn, k, family);
  }

  /** A description that mentions the UDN only where there are no embedded devices keeps to the family of it alone. */
  lemma ChildlessIsFamily(d: Device, udn: string)
    requires TreeHas(d, udn) ==> d.children == []
    ensures InFamily(d, Family(udn, x => x == udn))
  {
    var family := Family(udn, x => x == udn);
    if Mentions(d, family) {
      assert TreeHas(d, udn);
      forall x | TreeHas(d, x) ensures x == udn && d.node.udn == Some(udn) {
        assert FindByUdnAmong(d.children, Some(x)).None? && FindByUdnAmong(d.children, Some(udn)).None?;
      }
    }
  }

  /**
   * No ABA for a device without embedded devices, whatever else is described
   * by anyone: it is enough that no description that mentions it has any.
   */
  lemma NoAbaForChildless(states: seq<System>, steps: seq<Step>, i: nat, j: nat, id: nat, k: nat)
    requires IsRun(states, steps) && ReservesAt(states, steps, i, id) && PublishesAt(states, steps, j, id)
    requires RootIndex(states[i].shared.roots, steps[i].packet.udn) == Some(k)
    requires forall m | 0 <= m < j && steps[m].Receive? && steps[m].response.Some? ::
               TreeHas(steps[m].response.value.tree, steps[i].packet.udn) ==> steps[m].response.value.tree.children == []
    ensures i < j && KeptAt(states[i].shared.roots, states[j].shared.roots, k)
    ensures RootIndex(states[j].shared.roots, steps[i].packet.udn) == Some(k)
  {
    var udn := steps[i].packet.udn;
    var family := Family(udn, x => x == udn);
    forall m | 0 <= m < j ensures StepInFamily(steps[m], family) {
      if steps[m].Receive? && steps[m].response.Some? {
        ChildlessIsFamily(steps[m].response.value.tree, udn);
      }
    }
    hide Enabled, Apply, StepInFamily, TreeHas, RootIndex, KeptAt, PassesTest;
    NoAba(states, steps, family, i, j, id, k);
  }
}
