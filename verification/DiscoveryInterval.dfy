/** What may happen between the reservation of a fetch and its commit, step by step. */
module DiscoveryInterval {
  import opened Text
  import opened DeviceTree
  import opened DeviceUpdate
  import opened Discovery
  import opened DiscoveryInvariant
  import opened DiscoveryRuns
  import opened DiscoveryCommit
  import opened DiscoveryFamilies

  // ---------------------------------------------------------------------
  // Which announcements supersede a call
  // ---------------------------------------------------------------------

  /** The root UDN that an announcement goes by. */
  function RecordedRoot(roots: seq<Root>, udn: string): string {
    match RootIndex(roots, udn)
    case None => udn
    case Some(i) => OrEmpty(UdnOf(roots[i]))
  }

  /**
   * The announcement is not turned away, its scan reaches the entry of the
   * call before it meets its own LOCATION, and both are about one UDN or one
   * root.
   */
  ghost predicate Overtakes(sh: Shared, packet: Packet, id: nat) {
    && !ReturnsEarly(sh, packet)
    && exists p | 0 <= p < FirstAt(sh.pending, packet.location.value) ::
         sh.pending[p].id == id && Supersedes(packet.udn, RecordedRoot(sh.roots, packet.udn), sh.pending[p])
  }

  lemma EntryAt(pending: seq<Entry>, p: nat)
    requires PendingOk(pending) && p < |pending|
    ensures EntryOf(pending, pending[p].id) == Some(pending[p])
  {
    UnlinkIsRemoval(pending, pending[p].id, p);
  }

  lemma {:induction false} EntryOfSameIds(before: seq<Entry>, after: seq<Entry>, p: nat)
    requires p < |before| == |after| && EntryOf(before, before[p].id) == Some(before[p])
    requires forall i | 0 <= i <= p :: after[i].id == before[i].id
    requires forall i | 0 <= i < p :: before[i].id != before[p].id
    ensures EntryOf(after, before[p].id) == Some(after[p])
  {
    if p > 0 {
      EntryOfSameIds(before[1..], after[1..], p - 1);
    }
  }

  /** After the scan, the entry is superseded if it was before or if the scan got to it. */
  lemma ScanSupersedesIff(pending: seq<Entry>, udn: string, rootUdn: string, location: string, p: nat)
    requires PendingOk(pending) && p < |pending|
    ensures var after := EntryOf(Scan(pending, udn, rootUdn, location).0, pending[p].id);
            && after.Some?
            && (after.value.superseded
                <==> pending[p].superseded || (p < FirstAt(pending, location) && Supersedes(udn, rootUdn, pending[p])))
  {
    hide Scan, FirstAt, EntryOf;
    var n, scanned := FirstAt(pending, location), Scan(pending, udn, rootUdn, location).0;
    ScanMarksUpTo(pending, udn, rootUdn, location);
    forall i | 0 <= i < |pending| ensures scanned[i] == if i < n then Marked(pending[i], udn, rootUdn) else pending[i] {
      assert i >= n ==> scanned[n..][i - n] == pending[n..][i - n];
    }
    EntryAt(pending, p);
    forall i | 0 <= i < p ensures pending[i].id != pending[p].id {
      DifferentIds(pending, i, p);
    }
    EntryOfSameIds(pending, scanned, p);
  }

  /** The pending list after an announcement. */
  lemma AnnouncedPending(s: System, packet: Packet)
    ensures var pending, pending' := s.shared.pending, ApplyAnnounce(s, packet).shared.pending;
            if ReturnsEarly(s.shared, packet) then pending' == pending
            else
              var rootUdn, location := RecordedRoot(s.shared.roots, packet.udn), packet.location.value;
              var (scanned, joined) := Scan(pending, packet.udn, rootUdn, location);
              pending' == if joined then scanned else [Entry(s.calls, packet.udn, rootUdn, location, false)] + scanned
  {
    hide RootIndex, Scan;
  }

  lemma DifferentIds(pending: seq<Entry>, i: nat, p: nat)
    requires PendingOk(pending) && i < |pending| && p < |pending|
    ensures pending[i].id == pending[p].id <==> i == p
  {
    if i < p {
      assert Compatible(pending[i], pending[p]);
    } else if p < i {
      assert Compatible(pending[p], pending[i]);
    }
  }

  lemma OvertakesIff(sh: Shared, packet: Packet, p: nat)
    requires PendingOk(sh.pending) && p < |sh.pending| && !ReturnsEarly(sh, packet)
    ensures Overtakes(sh, packet, sh.pending[p].id)
       <==> p < FirstAt(sh.pending, packet.location.value)
            && Supersedes(packet.udn, RecordedRoot(sh.roots, packet.udn), sh.pending[p])
  {
    hide FirstAt, RecordedRoot, PendingOk;
    forall i | 0 <= i < |sh.pending| && sh.pending[i].id == sh.pending[p].id ensures i == p {
      DifferentIds(sh.pending, i, p);
    }
  }

  lemma NotOvertaken(sh: Shared, packet: Packet, id: nat)
    requires ReturnsEarly(sh, packet)
    ensures !Overtakes(sh, packet, id)
  {
  }

  lemma AnnounceSupersedesEntryIff(s: System, packet: Packet, p: nat)
    requires PendingOk(s.shared.pending) && p < |s.shared.pending| && s.shared.pending[p].id < s.calls
    ensures var e := s.shared.pending[p];
            var after := EntryOf(ApplyAnnounce(s, packet).shared.pending, e.id);
            && after.Some?
            && (after.value.superseded <==> e.superseded || Overtakes(s.shared, packet, e.id))
  {
    hide ApplyAnnounce, PendingOk, EntryOf, Scan, FirstAt, RecordedRoot, Overtakes, Supersedes;
    var pending := s.shared.pending;
    AnnouncedPending(s, packet);
    EntryAt(pending, p);
    if ReturnsEarly(s.shared, packet) {
      NotOvertaken(s.shared, packet, pending[p].id);
    } else {
      var rootUdn, location := RecordedRoot(s.shared.roots, packet.udn), packet.location.value;
      var entry := Entry(s.calls, packet.udn, rootUdn, location, false);
      ScanSupersedesIff(pending, packet.udn, rootUdn, location, p);
      OvertakesIff(s.shared, packet, p);
      EntryOfTail(entry, Scan(pending, packet.udn, rootUdn, location).0, pending[p].id);
    }
  }

  lemma AnnounceSupersedesIff(s: System, packet: Packet, id: nat)
    requires Inv(s) && id in s.threads
    ensures IsSuperseded(ApplyAnnounce(s, packet), id) <==> IsSuperseded(s, id) || Overtakes(s.shared, packet, id)
  {
    hide ApplyAnnounce, PendingOk, Overtakes, OwnershipOk, RootsOk, ModeOk;
    InFlightHasEntry(s, id);
    var p :| 0 <= p < |s.shared.pending| && s.shared.pending[p] == EntryOf(s.shared.pending, id).value;
    AnnounceSupersedesEntryIff(s, packet, p);
  }

  /** The step is an announcement that supersedes the call. */
  ghost predicate OvertakesAt(s: System, step: Step, id: nat) {
    step.Announce? && Overtakes(s.shared, step.packet, id)
  }

  lemma StepSupersedesIff(s: System, step: Step, id: nat)
    requires Inv(s) && Enabled(s, step) && id in s.threads && step != CommitCall(id)
    ensures IsSuperseded(Apply(s, step), id) <==> IsSuperseded(s, id) || OvertakesAt(s, step, id)
  {
    match step
    case Announce(packet) =>
      hide Inv, Overtakes, ApplyAnnounce, IsSuperseded;
      AnnounceSupersedesIff(s, packet, id);
    case CommitCall(other) => OtherCommitKeepsEntry(s, other, id);
    case _ =>
      hide Inv, Apply, Enabled, EntryOf;
      OtherStepsKeepPending(s, step);
  }

  lemma OtherCommitKeepsEntry(s: System, other: nat, id: nat)
    requires Inv(s) && Enabled(s, CommitCall(other)) && id != other
    ensures EntryOf(Apply(s, CommitCall(other)).shared.pending, id) == EntryOf(s.shared.pending, id)
  {
    hide PendingOk, CommitRoots, Unlink, EntryOf, PublishTest, OwnershipOk, RootsOk;
    InFlightHasEntry(s, other);
    UnlinkKeepsOthers(s.shared.pending, other);
  }

  lemma FreshCallIsLive(s: System, packet: Packet)
    requires Inv(s) && s.calls in ApplyAnnounce(s, packet).threads
    ensures !IsSuperseded(ApplyAnnounce(s, packet), s.calls)
  {
    assert s.calls !in s.threads;
    ReserveCases(s.shared, s.calls, packet);
    var pending' := ApplyAnnounce(s, packet).shared.pending;
    hide Inv, Reserve, EntryOf, CachedLocation;
    assert pending' == [pending'[0]] + pending'[1..];
    EntryOfHead(pending'[0], pending'[1..]);
  }

  lemma {:induction false} SupersededIffOvertaken(
    states: seq<System>, steps: seq<Step>, i: nat, m: nat, j: nat, id: nat)
    requires IsRun(states, steps) && ReservesAt(states, steps, i, id) && CommitsAt(states, steps, j, id) && i < m <= j
    ensures IsSuperseded(states[m], id) <==> exists l | i < l < m :: OvertakesAt(states[l], steps[l], id)
    decreases m
  {
    hide Inv, Enabled, Apply, IsSuperseded, OvertakesAt;
    RunsKeepInv(states, steps, m - 1);
    if m == i + 1 {
      AnnouncementIsApplied(states[i], steps[i]);
      FreshCallIsLive(states[i], steps[i].packet);
    } else {
      SupersededIffOvertaken(states, steps, i, m - 1, j, id);
      InFlightBetween(states, steps, i, m - 1, j, id);
      InFlightBetween(states, steps, i, m, j, id);
      EndedCallsStayEnded(states[m - 1], steps[m - 1]);
      ReservedIsCounted(states, steps, i, m - 1, id);
      StepSupersedesIff(states[m - 1], steps[m - 1], id);
    }
  }

  lemma AnnouncementIsApplied(s: System, step: Step)
    requires step.Announce? && Enabled(s, step)
    ensures Apply(s, step) == ApplyAnnounce(s, step.packet)
  {
  }

  lemma ReservedIsCounted(states: seq<System>, steps: seq<Step>, i: nat, m: nat, id: nat)
    requires IsRun(states, steps) && ReservesAt(states, steps, i, id) && i < m <= |steps|
    ensures id < states[m].calls
  {
    hide Enabled, Apply;
    NewCallIsCounted(states[i], steps[i]);
    CallsGrow(states, steps, i + 1, m);
  }

  /**
   * What the publish test decides, in terms of the steps since the
   * reservation: the commit publishes exactly if none of them was a byebye,
   * the beginning of a stop, or an announcement that overtook the call.
   */
  lemma PublishesIffNotOvertaken(states: seq<System>, steps: seq<Step>, i: nat, j: nat, id: nat)
    requires IsRun(states, steps) && ReservesAt(states, steps, i, id) && CommitsAt(states, steps, j, id)
    ensures PublishesAt(states, steps, j, id)
       <==> forall m | i < m < j :: !Invalidates(steps[m]) && !OvertakesAt(states[m], steps[m], id)
  {
    ReservedBeforeCommitted(states, steps, i, j, id);
    PublishesIffUndisturbed(states, steps, i, j, id);
    hide IsRun, OvertakesAt, PassesTest, IsSuperseded, Invalidates;
    SupersededIffOvertaken(states, steps, i, j, j, id);
  }

  // ---------------------------------------------------------------------
  // Which commits disturb a call
  // ---------------------------------------------------------------------

  /**
   * The commit in this step publishes an update of root `k`, or it gives a
   * root before that one a description in which the UDN occurs.
   */
  ghost predicate Disturbs(s: System, step: Step, k: nat, udn: string) {
    && step.CommitCall? && step.id in s.threads && PassesTest(s, step.id)
    && Updates(s.shared.roots, s.threads[step.id], k, udn)
  }

  predicate Updates(roots: seq<Root>, t: Thread, k: nat, udn: string) {
    && t.phase.Fetched? && t.phase.candidate.Some?
    && var c := t.phase.candidate.value;
    && var found := RootIndex(roots, t.call.packet.udn);
    && found.Some? && StrEq(t.call.cachedLocation, LocationOf(roots[found.value]))
    && StrEq(UdnOf(c), UdnOf(roots[found.value]))
    && (found.value == k || (found.value < k && TreeHas(c.dev.tree, udn)))
  }

  /** Root `k` is still the same, and still the first in which the UDN occurs. */
  ghost predicate StaysFirst(before: seq<Root>, after: seq<Root>, k: nat, udn: string) {
    KeptAt(before, after, k) && RootIndex(after, udn) == Some(k)
  }

  lemma FirstIff(roots: seq<Root>, k: nat, udn: string)
    requires k < |roots|
    ensures RootIndex(roots, udn) == Some(k)
       <==> TreeHas(roots[k].dev.tree, udn) && forall j | 0 <= j < k :: !TreeHas(roots[j].dev.tree, udn)
  {
    hide TreeHas;
  }

  lemma {:induction false} SameStructureSameMembers(a: Device, b: Device, x: CString)
    requires SameStructure(a, b)
    ensures FindByUdn(a, x).Some? <==> FindByUdn(b, x).Some?
    decreases a, 1
  {
    SameChildrenSameMembers(a.children, b.children, x);
  }

  lemma {:induction false} SameChildrenSameMembers(a: seq<Device>, b: seq<Device>, x: CString)
    requires SameChildren(a, b)
    ensures FindByUdnAmong(a, x).Some? <==> FindByUdnAmong(b, x).Some?
    decreases a, 0
  {
    if a != [] {
      SameStructureSameMembers(a[0], b[0], x);
      SameChildrenSameMembers(a[1..], b[1..], x);
    }
  }

  /** An update either does nothing or moves the root to the new LOCATION and to the members of the new description. */
  lemma UpdateEffect(r: Root, candidate: Root, packet: Packet, udn: string)
    ensures var r' := UpdateRoot(r, candidate, packet).0;
            if StrEq(UdnOf(candidate), UdnOf(r)) then
              LocationOf(r') == packet.location && (TreeHas(r'.dev.tree, udn) <==> TreeHas(candidate.dev.tree, udn))
            else r' == r
  {
    CopyCommutesWithFind(candidate.dev.tree, r.dev.tree, Some(udn));
    if SameStructure(r.dev.tree, candidate.dev.tree) {
      SameStructureSameMembers(r.dev.tree, candidate.dev.tree, Some(udn));
    }
    hide SameStructure, CopySubscriptions, FindByUdn;
  }

  lemma ReplacedStaysFirstIff(roots: seq<Root>, q: nat, r': Root, k: nat, udn: string)
    requires q < |roots| && RootIndex(roots, udn) == Some(k) && (r' == roots[q] || LocationOf(r') != LocationOf(roots[q]))
    ensures StaysFirst(roots, roots[q := r'], k, udn)
       <==> r' == roots[q] || q > k || (q < k && !TreeHas(r'.dev.tree, udn))
  {
    hide RootIndex, TreeHas, Strip;
    var roots' := roots[q := r'];
    FirstIff(roots, k, udn);
    FirstIff(roots', k, udn);
    if q < k {
      assert roots'[q] == r';
    }
  }

  lemma CommitStaysFirstIff(roots: seq<Root>, t: Thread, k: nat, udn: string)
    requires t.phase.Fetched? && (t.phase.candidate.Some? ==> Usable(t.phase.candidate.value.dev))
    requires !StrEq(t.call.cachedLocation, t.call.packet.location) && RootIndex(roots, udn) == Some(k)
    ensures StaysFirst(roots, CommitRoots(roots, t.call, t.phase.candidate).0, k, udn) <==> !Updates(roots, t, k, udn)
  {
    hide CommitRoots, RootIndex, TreeHas, Strip, UpdateRoot;
    var roots' := CommitRoots(roots, t.call, t.phase.candidate).0;
    CommitRootsCases(roots, t.call, t.phase.candidate);
    FirstIff(roots, k, udn);
    FirstIff(roots', k, udn);
    match CaseOf(roots, t.call, t.phase.candidate)
    case Unchanged => assert roots' == roots;
    case Appended => assert forall j | 0 <= j < |roots| :: roots'[j] == roots[j];
    case InPlace(q) =>
      UpdateEffect(roots[q], t.phase.candidate.value, t.call.packet, udn);
      var r' := UpdateRoot(roots[q], t.phase.candidate.value, t.call.packet).0;
      ReplacedStaysFirstIff(roots, q, r', k, udn);
  }

  // ---------------------------------------------------------------------
  // Through the interval
  // ---------------------------------------------------------------------

  /** No call in flight was reserved for the LOCATION that its root was cached with. */
  ghost predicate NoRefresh(s: System) {
    forall id | id in s.threads :: !StrEq(s.threads[id].call.cachedLocation, s.threads[id].call.packet.location)
  }

  lemma AnnouncementKeepsNoRefresh(s: System, packet: Packet)
    requires NoRefresh(s)
    ensures NoRefresh(ApplyAnnounce(s, packet))
  {
    hide Scan, RootIndex;
  }

  lemma StepKeepsNoRefresh(s: System, step: Step)
    requires NoRefresh(s) && Enabled(s, step)
    ensures NoRefresh(Apply(s, step))
  {
    match step
    case Announce(packet) =>
      hide NoRefresh, ApplyAnnounce;
      AnnouncementKeepsNoRefresh(s, packet);
    case CommitCall(_) => hide Commit;
    case _ =>
      hide Apply, Enabled;
      OtherStepsKeepPending(s, step);
  }

  lemma InitialNoRefresh()
    ensures NoRefresh(INITIAL)
  {
  }

  lemma {:induction false} RunsKeepNoRefresh(states: seq<System>, steps: seq<Step>, i: nat)
    requires IsRun(states, steps) && i <= |steps|
    ensures NoRefresh(states[i])
  {
    hide Enabled, Apply, NoRefresh;
    if i == 0 {
      InitialNoRefresh();
    } else {
      RunsKeepNoRefresh(states, steps, i - 1);
      StepKeepsNoRefresh(states[i - 1], steps[i - 1]);
    }
  }

  /** One step of the interval. */
  lemma StepStaysFirstIff(s: System, step: Step, k: nat, udn: string)
    requires Inv(s) && NoRefresh(s) && Enabled(s, step) && !Invalidates(step) && !s.shared.stopping
    requires RootIndex(s.shared.roots, udn) == Some(k)
    ensures StaysFirst(s.shared.roots, Apply(s, step).shared.roots, k, udn) <==> !Disturbs(s, step, k, udn)
  {
    hide ApplyAnnounce, ApplyReceive, ApplyCommit, OwnershipOk, RootsOk, PendingOk, PendingIsInFlight, Strip, TreeHas, RootIndex;
    var roots, roots' := s.shared.roots, Apply(s, step).shared.roots;
    if step.CommitCall? {
      hide CommitRoots, PassesTest, Updates, StaysFirst;
      RootsAfterCommit(s, step.id);
      CommitStaysFirstIff(roots, s.threads[step.id], k, udn);
      Reflexive(roots, k, udn);
    } else {
      forall j | 0 <= j < |roots| ensures KeptAt(roots, roots', j) {
        StepKeepsRootAt(s, step, j);
      }
      KeptIsFirst(roots, roots', k, udn);
    }
  }

  lemma Reflexive(roots: seq<Root>, k: nat, udn: string)
    requires RootIndex(roots, udn) == Some(k)
    ensures StaysFirst(roots, roots, k, udn)
  {
    hide TreeHas, Strip;
  }

  lemma KeptIsFirst(roots: seq<Root>, roots': seq<Root>, k: nat, udn: string)
    requires RootIndex(roots, udn) == Some(k) && forall j | 0 <= j < |roots| :: KeptAt(roots, roots', j)
    ensures StaysFirst(roots, roots', k, udn)
  {
    hide TreeHas, Strip, RootIndex;
    FirstIff(roots, k, udn);
    assert KeptAt(roots, roots', k);
    FirstIff(roots', k, udn);
    forall j | 0 <= j <= k ensures TreeHas(roots'[j].dev.tree, udn) <==> TreeHas(roots[j].dev.tree, udn) {
      assert KeptAt(roots, roots', j);
      SameStripSameMember(roots[j].dev.tree, roots'[j].dev.tree, udn);
    }
  }

  lemma SameStripSameMember(d: Device, d': Device, udn: string)
    requires Strip(d) == Strip(d')
    ensures TreeHas(d, udn) <==> TreeHas(d', udn)
  {
    StripKeepsMembers(d, Some(udn));
    StripKeepsMembers(d', Some(udn));
  }

  lemma StaysFirstChain(r0: seq<Root>, r1: seq<Root>, r2: seq<Root>, k: nat, udn: string)
    requires StaysFirst(r0, r1, k, udn)
    ensures StaysFirst(r0, r2, k, udn) <==> StaysFirst(r1, r2, k, udn)
  {
    hide RootIndex, Strip;
  }

  lemma {:induction false} FirstUntilIff(states: seq<System>, steps: seq<Step>, i: nat, n: nat, j: nat, id: nat, k: nat)
    requires IsRun(states, steps) && ReservesAt(states, steps, i, id) && PublishesAt(states, steps, j, id) && i < n <= j
    requires RootIndex(states[i].shared.roots, steps[i].packet.udn) == Some(k)
    ensures (forall m | i < m <= n :: StaysFirst(states[i].shared.roots, states[m].shared.roots, k, steps[i].packet.udn))
       <==> forall m | i < m < n :: !Disturbs(states[m], steps[m], k, steps[i].packet.udn)
    decreases n
  {
    hide Inv, NoRefresh, Enabled, Apply, Disturbs, StaysFirst, RootIndex, Invalidates, PassesTest;
    var roots, udn := states[i].shared.roots, steps[i].packet.udn;
    RunsKeepInv(states, steps, n - 1);
    if n == i + 1 {
      ReservingKeepsRoots(states[i], steps[i]);
      Reflexive(roots, k, udn);
    } else {
      FirstUntilIff(states, steps, i, n - 1, j, id, k);
      if forall m | i < m <= n - 1 :: StaysFirst(roots, states[m].shared.roots, k, udn) {
        var s := states[n - 1];
        StillFirst(roots, s.shared.roots, k, udn);
        RunsKeepNoRefresh(states, steps, n - 1);
        UndisturbedBefore(states, steps, i, n - 1, j, id);
        StepStaysFirstIff(s, steps[n - 1], k, udn);
        StaysFirstChain(roots, s.shared.roots, states[n].shared.roots, k, udn);
      }
    }
  }

  lemma StillFirst(before: seq<Root>, after: seq<Root>, k: nat, udn: string)
    requires StaysFirst(before, after, k, udn)
    ensures RootIndex(after, udn) == Some(k)
  {
    hide Strip, RootIndex;
  }

  lemma ReservingKeepsRoots(s: System, step: Step)
    requires Inv(s) && step.Announce? && Enabled(s, step) && s.calls in Apply(s, step).threads
    ensures Apply(s, step).shared.roots == s.shared.roots
  {
    assert s.calls !in s.threads;
    ReserveCases(s.shared, s.calls, step.packet);
    hide Inv, Reserve, CachedLocation;
  }

  /**
   * Exactly when there is no ABA: through the whole interval of a publishing
   * call the root that its reservation found stays the same object with the
   * same description and LOCATION, and the one that the announced UDN is found
   * in, if and only if no commit in between updates that root or brings the
   * UDN into an earlier one.
   */
  lemma UndisturbedIff(states: seq<System>, steps: seq<Step>, i: nat, j: nat, id: nat, k: nat)
    requires IsRun(states, steps) && ReservesAt(states, steps, i, id) && PublishesAt(states, steps, j, id)
    requires RootIndex(states[i].shared.roots, steps[i].packet.udn) == Some(k)
    ensures i < j
    ensures (forall m | i < m <= j :: StaysFirst(states[i].shared.roots, states[m].shared.roots, k, steps[i].packet.udn))
       <==> forall m | i < m < j :: !Disturbs(states[m], steps[m], k, steps[i].packet.udn)
  {
    hide StaysFirst, Disturbs, RootIndex, Enabled, Apply, PassesTest;
    ReservedBeforeCommitted(states, steps, i, j, id);
    FirstUntilIff(states, steps, i, j, j, id, k);
  }

  /** Such a commit can only be that of a call that went by another UDN and by another root UDN. */
  lemma DisturbersAreForeign(states: seq<System>, steps: seq<Step>, i: nat, m: nat, j: nat, id: nat, k: nat)
    requires IsRun(states, steps) && ReservesAt(states, steps, i, id) && PublishesAt(states, steps, j, id)
    requires i < m < j && Disturbs(states[m], steps[m], k, steps[i].packet.udn)
    ensures var e, other := EntryOf(states[i + 1].shared.pending, id), EntryOf(states[m].shared.pending, steps[m].id);
            e.Some? && other.Some? && other.value.udn != e.value.udn && other.value.rootUdn != e.value.rootUdn
  {
    hide IsRun, Updates, PassesTest, EntryOf;
    NoRivalPublishes(states, steps, i, m, j, id, steps[m].id);
  }
}
