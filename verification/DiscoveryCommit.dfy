/** What a single reservation and a single commit do to the cache. */
module DiscoveryCommit {
  import opened Sequences
  import opened Text
  import opened DeviceTree
  import opened DeviceUpdate
  import opened Discovery
  import opened DiscoveryInvariant
  import opened DiscoveryRuns

  // ---------------------------------------------------------------------
  // Compare and commit
  // ---------------------------------------------------------------------

  /** The root was brought up to date by the call: same object, same UDN, and its LOCATION was the recorded one. */
  predicate UpdatedBy(before: Root, after: Root, call: Call) {
    && LocationOf(before) == call.cachedLocation && LocationOf(after) == call.packet.location
    && TreeHas(before.dev.tree, call.packet.udn)
    && after.objectId == before.objectId && UdnOf(after) == UdnOf(before)
  }

  /** Both lists differ at one position at most, as far as the first one goes. */
  ghost predicate DifferOnce(before: seq<Root>, after: seq<Root>) {
    forall k, l | 0 <= k < |before| <= |after| && 0 <= l < |before| && after[k] != before[k] && after[l] != before[l] :: k == l
  }

  /**
   * The last root is the call's candidate and has the announced UDN. No other
   * tree knows that UDN or the root's own, as a root or as an embedded device.
   */
  predicate AppendedBy(roots: seq<Root>, t: Thread)
    requires roots != []
  {
    var last, others := roots[|roots| - 1], roots[..|roots| - 1];
    && t.phase == Fetched(Some(last)) && TreeHas(last.dev.tree, t.call.packet.udn)
    && UdnOf(last).Some?
    && forall r | r in others :: !TreeHas(r.dev.tree, t.call.packet.udn) && !TreeHas(r.dev.tree, UdnOf(last).value)
  }

  /** What one commit may do to the root list, in terms of what the call recorded. */
  ghost predicate Compares(roots: seq<Root>, roots': seq<Root>, t: Thread) {
    && |roots| <= |roots'| <= |roots| + 1
    && (forall k | 0 <= k < |roots| :: roots'[k] == roots[k] || UpdatedBy(roots[k], roots'[k], t.call))
    && DifferOnce(roots, roots')
    && (|roots'| > |roots| ==> roots'[..|roots|] == roots && AppendedBy(roots', t))
  }

  lemma CommitCompares(s: System, id: nat)
    requires Inv(s) && Enabled(s, CommitCall(id))
    ensures var roots, roots' := s.shared.roots, Apply(s, CommitCall(id)).shared.roots;
            (!PassesTest(s, id) ==> roots' == roots) && Compares(roots, roots', s.threads[id])
  {
    hide Apply, CommitRoots, OwnershipOk, PendingOk, RootsOk, PendingIsInFlight, TreeHas, PassesTest, Compares;
    RootsAfterCommit(s, id);
    NothingCompares(s.shared.roots, s.threads[id]);
    CommitRootsCompares(s.shared.roots, s.threads[id]);
  }

  lemma NothingCompares(roots: seq<Root>, t: Thread)
    ensures Compares(roots, roots, t)
  {
    hide UpdatedBy, AppendedBy;
  }

  lemma CommitRootsCompares(roots: seq<Root>, t: Thread)
    requires t.phase.Fetched?
    requires t.phase.candidate.Some? ==>
      Usable(t.phase.candidate.value.dev) && TreeHas(t.phase.candidate.value.dev.tree, t.call.packet.udn)
    ensures Compares(roots, CommitRoots(roots, t.call, t.phase.candidate).0, t)
  {
    hide CommitRoots, RootIndex, UpdateRoot, TreeHas, CaseOf, Compares;
    CommitRootsCases(roots, t.call, t.phase.candidate);
    match CaseOf(roots, t.call, t.phase.candidate)
    case Unchanged => NothingCompares(roots, t);
    case Appended => AppendedCompares(roots, t.phase.candidate.value, t);
    case InPlace(i) =>
      UpdatedInPlace(roots[i], t.phase.candidate.value, t.call);
      ReplacedCompares(roots, i, UpdateRoot(roots[i], t.phase.candidate.value, t.call.packet).0, t);
  }

  lemma AppendedCompares(roots: seq<Root>, r: Root, t: Thread)
    requires t.phase == Fetched(Some(r)) && UdnOf(r).Some? && TreeHas(r.dev.tree, t.call.packet.udn)
    requires forall x | x in roots :: !TreeHas(x.dev.tree, t.call.packet.udn) && !TreeHas(x.dev.tree, UdnOf(r).value)
    ensures Compares(roots, roots + [r], t)
  {
    hide UpdatedBy, TreeHas;
    assert (roots + [r])[..|roots|] == roots;
  }

  lemma ReplacedCompares(roots: seq<Root>, i: nat, r: Root, t: Thread)
    requires i < |roots| && (r == roots[i] || UpdatedBy(roots[i], r, t.call))
    ensures Compares(roots, roots[i := r], t)
  {
    hide UpdatedBy, AppendedBy;
  }

  lemma UpdatedInPlace(r: Root, candidate: Root, call: Call)
    requires StrEq(call.cachedLocation, LocationOf(r)) && TreeHas(r.dev.tree, call.packet.udn)
    ensures UpdateRoot(r, candidate, call.packet).0 == r || UpdatedBy(r, UpdateRoot(r, candidate, call.packet).0, call)
  {
    UpdateRootIdentity(r, candidate, call.packet);
    UpdateRootChanges(r, candidate, call.packet);
    hide UpdateRoot, TreeHas;
  }

  lemma UpdateRootChanges(r: Root, candidate: Root, packet: Packet)
    ensures UpdateRoot(r, candidate, packet).0 == r
         || LocationOf(UpdateRoot(r, candidate, packet).0) == packet.location
  {
  }

  lemma ReservedCall(s: System, packet: Packet)
    requires Inv(s) && s.calls in ApplyAnnounce(s, packet).threads
    ensures ApplyAnnounce(s, packet).threads[s.calls].call
         == Call(packet, s.shared.epoch, CachedLocation(s.shared.roots, packet.udn))
  {
    assert s.calls !in s.threads;
    ReserveCases(s.shared, s.calls, packet);
    hide Reserve, Inv, Enqueues, CachedLocation;
  }

  lemma CommittedCall(states: seq<System>, steps: seq<Step>, i: nat, j: nat, id: nat)
    requires IsRun(states, steps) && ReservesAt(states, steps, i, id) && CommitsAt(states, steps, j, id)
    ensures i < j && id in states[j].threads
    ensures states[j].threads[id].call
         == Call(steps[i].packet, states[i].shared.epoch, CachedLocation(states[i].shared.roots, steps[i].packet.udn))
  {
    ReservedBeforeCommitted(states, steps, i, j, id);
    InFlightBetween(states, steps, i, i + 1, j, id);
    RunsKeepInv(states, steps, i);
    ReservedCall(states[i], steps[i].packet);
    hide Inv, CachedLocation, EntryOf;
  }

  /**
   * How `roots` may become `roots'` by the commit of a call that announced
   * `packet` when the list was `reserved`: no root moves and at most one
   * changes. That one has the announced UDN, its LOCATION is still that of the
   * root found at reservation, and it keeps its object and its UDN.
   */
  ghost predicate FollowsReservation(reserved: seq<Root>, packet: Packet, roots: seq<Root>, roots': seq<Root>) {
    var found := RootIndex(reserved, packet.udn);
    && |roots| <= |roots'| <= |roots| + 1
    && (found.None? ==> roots <= roots')
    && (forall k | 0 <= k < |roots| && roots'[k] != roots[k] ::
          && found.Some? && LocationOf(roots[k]) == LocationOf(reserved[found.value])
          && TreeHas(roots[k].dev.tree, packet.udn) && LocationOf(roots'[k]) == packet.location
          && roots'[k].objectId == roots[k].objectId && UdnOf(roots'[k]) == UdnOf(roots[k]))
    && DifferOnce(roots, roots')
    && (|roots'| > |roots| ==> roots'[..|roots|] == roots)
  }

  lemma CommitFollowsReservation(s: System, id: nat, reserved: seq<Root>, packet: Packet)
    requires Inv(s) && Enabled(s, CommitCall(id)) && s.threads[id].call.packet == packet
    requires s.threads[id].call.cachedLocation == CachedLocation(reserved, packet.udn)
    ensures FollowsReservation(reserved, packet, s.shared.roots, Apply(s, CommitCall(id)).shared.roots)
  {
    hide Apply, RootIndex, TreeHas, PassesTest, AppendedBy, DifferOnce, OwnershipOk, PendingOk, ThreadsOk, PendingIsInFlight;
    CommitCompares(s, id);
    assert forall k | 0 <= k < |s.shared.roots| :: LocationOf(s.shared.roots[k]).Some?;
  }

  /**
   * Compare and commit over runs: a commit changes the cache only if it
   * passes the publish test, and then only as the state at its reservation
   * allows. In particular a call that found nothing cached never changes a
   * root; it only appends one, and only one that no cached tree knows.
   */
  lemma CompareAndCommit(states: seq<System>, steps: seq<Step>, i: nat, j: nat, id: nat)
    requires IsRun(states, steps) && ReservesAt(states, steps, i, id) && CommitsAt(states, steps, j, id)
    ensures i < j && id in states[j].threads
    ensures FollowsReservation(states[i].shared.roots, steps[i].packet, states[j].shared.roots, states[j + 1].shared.roots)
    ensures states[j + 1].shared.roots != states[j].shared.roots ==> PublishesAt(states, steps, j, id)
    ensures |states[j + 1].shared.roots| > |states[j].shared.roots| ==>
      AppendedBy(states[j + 1].shared.roots, states[j].threads[id])
  {
    CommittedCall(states, steps, i, j, id);
    RunsKeepInv(states, steps, j);
    hide Inv, Enabled, Apply, CachedLocation, FollowsReservation, AppendedBy, DifferOnce, PassesTest;
    CommitCompares(states[j], id);
    CommitFollowsReservation(states[j], id, states[i].shared.roots, steps[i].packet);
  }

  // ---------------------------------------------------------------------
  // What an announcement leaves in flight
  // ---------------------------------------------------------------------

  predicate Live(e: Entry, udn: string) {
    e.udn == udn && !e.superseded
  }

  /** The position of the first entry with the LOCATION, or the length of the list. */
  function FirstAt(pending: seq<Entry>, location: string): (n: nat)
    ensures n <= |pending|
    ensures n < |pending| ==> pending[n].location == location
    ensures forall i | 0 <= i < n :: pending[i].location != location
  {
    if pending == [] || pending[0].location == location then 0
    else 1 + FirstAt(pending[1..], location)
  }

  /** The scan marks the entries before the first one with the LOCATION, and no other. */
  lemma ScanMarksUpTo(pending: seq<Entry>, udn: string, rootUdn: string, location: string)
    ensures var n, scanned := FirstAt(pending, location), Scan(pending, udn, rootUdn, location).0;
            && |scanned| == |pending| && scanned[n..] == pending[n..]
            && forall i | 0 <= i < n :: scanned[i] == Marked(pending[i], udn, rootUdn)
  {
    var n := FirstAt(pending, location);
    var passed, rest := pending[..n], pending[n..];
    assert Scan(rest, udn, rootUdn, location).0 == rest;
    assert forall e | e in passed :: e.location != location;
    assert forall i | 0 <= i < n :: passed[i] == pending[i];
    hide Scan, FirstAt, Marked, MarkAll;
    Cut(pending, n);
    ScanPasses(passed, rest, udn, rootUdn, location);
    ConcatParts(MarkAll(passed, udn, rootUdn), rest);
  }

  lemma ConcatParts(a: seq<Entry>, b: seq<Entry>)
    ensures (a + b)[|a|..] == b && forall i | 0 <= i < |a| :: (a + b)[i] == a[i]
  {
  }

  /** After a scan that meets the LOCATION, the live fetches of the UDN are those it did not reach. */
  lemma ScanLeavesLiveIff(pending: seq<Entry>, udn: string, rootUdn: string, location: string)
    ensures (exists e | e in Scan(pending, udn, rootUdn, location).0 :: Live(e, udn))
       <==> exists q | FirstAt(pending, location) <= q < |pending| :: Live(pending[q], udn)
  {
    var n, scanned := FirstAt(pending, location), Scan(pending, udn, rootUdn, location).0;
    ScanMarksUpTo(pending, udn, rootUdn, location);
    hide Scan, FirstAt;
    forall q | n <= q < |scanned| ensures scanned[q] == pending[q] {
      assert scanned[n..][q - n] == pending[n..][q - n];
    }
    if e :| e in scanned && Live(e, udn) {
      var q :| 0 <= q < |scanned| && scanned[q] == e;
      assert q >= n;
    }
    if q :| n <= q < |pending| && Live(pending[q], udn) {
      assert scanned[q] in scanned;
    }
  }

  /** The announcement repeats the LOCATION of the cached root that the UDN belongs to. */
  predicate IsRefresh(roots: seq<Root>, packet: Packet) {
    var found := RootIndex(roots, packet.udn);
    found.Some? && StrEq(LocationOf(roots[found.value]), packet.location)
  }

  /** The announcement is turned away, or is a refresh, before the pending list is looked at. */
  predicate ReturnsEarly(sh: Shared, packet: Packet) {
    packet.udn == "" || IsBlank(packet.location) || sh.stopping || IsRefresh(sh.roots, packet)
  }

  /**
   * Exactly when an unsuperseded fetch of the announced UDN is in flight after
   * an announcement: if it returns early, when there was one before;
   * otherwise, when its LOCATION is new to the pending list, or there was one
   * that the partial scan does not reach.
   */
  lemma AnnouncedFetchIsLiveIff(sh: Shared, id: nat, packet: Packet)
    ensures (exists e | e in Reserve(sh, id, packet).0.pending :: Live(e, packet.udn))
       <==> if ReturnsEarly(sh, packet) then exists e | e in sh.pending :: Live(e, packet.udn)
            else
              var n := FirstAt(sh.pending, packet.location.value);
              n == |sh.pending| || exists q | n <= q < |sh.pending| :: Live(sh.pending[q], packet.udn)
  {
    if ReturnsEarly(sh, packet) {
      assert Reserve(sh, id, packet).0.pending == sh.pending;
      return;
    }
    var found := RootIndex(sh.roots, packet.udn);
    var rootUdn := if found.Some? then OrEmpty(UdnOf(sh.roots[found.value])) else packet.udn;
    var n := FirstAt(sh.pending, packet.location.value);
    ScanLeavesLiveIff(sh.pending, packet.udn, rootUdn, packet.location.value);
    var (scanned, joined) := Scan(sh.pending, packet.udn, rootUdn, packet.location.value);
    var pending' := Reserve(sh, id, packet).0.pending;
    if n == |sh.pending| {
      assert !joined && Live(pending'[0], packet.udn);
    } else {
      assert joined && pending' == scanned;
    }
  }

  /** An announcement while nothing is cached. */
  lemma AnnounceToEmptyCache(s: System, packet: Packet)
    requires s.shared.roots == [] && !s.shared.stopping && packet.udn != "" && !IsBlank(packet.location)
    ensures var (scanned, joined) := Scan(s.shared.pending, packet.udn, packet.udn, packet.location.value);
            var s' := ApplyAnnounce(s, packet);
            && s'.calls == s.calls + 1
            && s'.shared == s.shared.(pending :=
                 if joined then scanned
                 else [Entry(s.calls, packet.udn, packet.udn, packet.location.value, false)] + scanned)
  {
    hide Scan, TreeHas;
  }

  const OTHER := Packet("uuid:b", Some("http://b/"), None, 0)
  const FIRST := Packet("uuid:a", Some("http://a/"), None, 0)
  const SECOND := Packet("uuid:a", Some("http://b/"), None, 1)

  /** The pending list after OTHER and FIRST, and after SECOND, which marks the fetch of FIRST and joins that of OTHER. */
  lemma ThreeAnnouncements(s1: System, s2: System, s3: System)
    requires s1 == ApplyAnnounce(INITIAL, OTHER) && s2 == ApplyAnnounce(s1, FIRST) && s3 == ApplyAnnounce(s2, SECOND)
    ensures var b := Entry(0, "uuid:b", "uuid:b", "http://b/", false);
            var a := Entry(1, "uuid:a", "uuid:a", "http://a/", false);
            s2.shared.pending == [a, b] && s3.shared.pending == [a.(superseded := true), b]
  {
    hide ApplyAnnounce;
    assert "uuid:a"[5] != "uuid:b"[5] && "http://a/"[7] != "http://b/"[7];
    var b, a := Entry(0, "uuid:b", "uuid:b", "http://b/", false), Entry(1, "uuid:a", "uuid:a", "http://a/", false);
    AnnounceToEmptyCache(INITIAL, OTHER);
    assert s1.shared.pending == [b];
    AnnounceToEmptyCache(s1, FIRST);
    ScanStep(b, [], "uuid:a", "uuid:a", "http://a/");
    assert [b] + [] == [b] && s2.shared.pending == [a, b];
    AnnounceToEmptyCache(s2, SECOND);
    ScanStep(a, [b], "uuid:a", "uuid:a", "http://b/");
    assert [a] + [b] == [a, b];
  }

  /**
   * So an announced UDN can be left without a live fetch: a fetch of it is
   * superseded by an announcement that then joins a fetch of something else.
   */
  lemma AnnouncementCanLeaveNoFetch()
    ensures exists states: seq<System>, steps: seq<Step> ::
              && IsRun(states, steps) && |steps| == 3 && steps[2].Announce?
              && (exists e | e in states[2].shared.pending :: Live(e, steps[2].packet.udn))
              && !(exists e | e in states[3].shared.pending :: Live(e, steps[2].packet.udn))
  {
    var s1 := ApplyAnnounce(INITIAL, OTHER);
    var s2 := ApplyAnnounce(s1, FIRST);
    var s3 := ApplyAnnounce(s2, SECOND);
    var states, steps := [INITIAL, s1, s2, s3], [Announce(OTHER), Announce(FIRST), Announce(SECOND)];
    hide ApplyAnnounce;
    assert IsRun(states, steps);
    hide IsRun;
    assert "uuid:a"[5] != "uuid:b"[5];
    ThreeAnnouncements(s1, s2, s3);
    assert Live(s2.shared.pending[0], SECOND.udn);
  }

  // ---------------------------------------------------------------------
  // What a byebye removes
  // ---------------------------------------------------------------------

  /** How many devices of the tree have the UDN. */
  function Occurrences(d: Device, udn: string): nat
    decreases d, 1
  {
    (if StrEq(d.node.udn, Some(udn)) then 1 else 0) + OccurrencesAmong(d.children, udn)
  }

  function OccurrencesAmong(ds: seq<Device>, udn: string): nat
    decreases ds, 0
  {
    if ds == [] then 0 else Occurrences(ds[0], udn) + OccurrencesAmong(ds[1..], udn)
  }

  function OccurrencesIn(roots: seq<Root>, udn: string): nat {
    if roots == [] then 0 else Occurrences(roots[0].dev.tree, udn) + OccurrencesIn(roots[1..], udn)
  }

  lemma {:induction false} FoundIffOccurs(d: Device, udn: string)
    requires udn != ""
    ensures FindByUdn(d, Some(udn)).Some? <==> Occurrences(d, udn) > 0
    decreases d, 1
  {
    FoundAmongIffOccurs(d.children, udn);
  }

  lemma {:induction false} FoundAmongIffOccurs(ds: seq<Device>, udn: string)
    requires udn != ""
    ensures FindByUdnAmong(ds, Some(udn)).Some? <==> OccurrencesAmong(ds, udn) > 0
    decreases ds, 0
  {
    if ds != [] {
      FoundIffOccurs(ds[0], udn);
      FoundAmongIffOccurs(ds[1..], udn);
    }
  }

  /** Pruning takes out embedded devices, at least one with the UDN and at most what was there. */
  lemma {:induction false} PruneRemoves(d: Device, udn: string, x: string)
    requires udn != "" && FindByUdnAmong(d.children, Some(udn)).Some?
    ensures Occurrences(Prune(d, udn), x) <= Occurrences(d, x)
    ensures Occurrences(Prune(d, udn), udn) < Occurrences(d, udn)
    decreases d, 1
  {
    PruneAmongRemoves(d.children, udn, x);
  }

  lemma {:induction false} PruneAmongRemoves(ds: seq<Device>, udn: string, x: string)
    requires udn != "" && FindByUdnAmong(ds, Some(udn)).Some?
    ensures OccurrencesAmong(PruneAmong(ds, udn), x) <= OccurrencesAmong(ds, x)
    ensures OccurrencesAmong(PruneAmong(ds, udn), udn) < OccurrencesAmong(ds, udn)
    decreases ds, 0
  {
    if !StrEq(ds[0].node.udn, Some(udn)) {
      if FindByUdnAmong(ds[0].children, Some(udn)).Some? {
        PruneRemoves(ds[0], udn, x);
        assert ([Prune(ds[0], udn)] + ds[1..])[1..] == ds[1..];
      } else {
        PruneAmongRemoves(ds[1..], udn, x);
        assert ([ds[0]] + PruneAmong(ds[1..], udn))[1..] == PruneAmong(ds[1..], udn);
      }
    }
  }

  lemma {:induction false} OccurrencesConcat(a: seq<Root>, b: seq<Root>, udn: string)
    ensures OccurrencesIn(a + b, udn) == OccurrencesIn(a, udn) + OccurrencesIn(b, udn)
  {
    if a == [] {
      assert a + b == b;
    } else {
      OccurrencesConcat(a[1..], b, udn);
      assert (a + b)[1..] == a[1..] + b;
    }
  }

  /** The occurrences in a list that differs from `roots` at position `i` only. */
  lemma OccurrencesAt(roots: seq<Root>, i: nat, middle: seq<Root>, udn: string)
    requires i < |roots|
    ensures OccurrencesIn(roots[..i] + middle + roots[i + 1..], udn) + Occurrences(roots[i].dev.tree, udn)
         == OccurrencesIn(roots, udn) + OccurrencesIn(middle, udn)
  {
    var before, after := roots[..i], roots[i + 1..];
    OccurrencesConcat(before + middle, after, udn);
    OccurrencesConcat(before, middle, udn);
    OccurrencesConcat(before + [roots[i]], after, udn);
    OccurrencesConcat(before, [roots[i]], udn);
    assert roots == before + [roots[i]] + after;
  }

  /**
   * A byebye takes out at least one cached device with the UDN if there is
   * one, and adds none with any UDN; so if the UDN occurred once, it is gone.
   */
  lemma ByebyeRemoves(sh: Shared, udn: string, x: string)
    ensures var roots' := Remove(sh, udn).0.roots;
            && OccurrencesIn(roots', x) <= OccurrencesIn(sh.roots, x)
            && (RootIndex(sh.roots, udn).Some? ==> OccurrencesIn(roots', udn) < OccurrencesIn(sh.roots, udn))
            && (RootIndex(sh.roots, udn).None? ==> roots' == sh.roots)
  {
    var roots := sh.roots;
    var found := RootIndex(roots, udn);
    if found.Some? {
      var i := found.value;
      var tree := roots[i].dev.tree;
      assert udn != "" && FindByUdn(tree, Some(udn)).Some?;
      FoundIffOccurs(tree, udn);
      if StrEq(UdnOf(roots[i]), Some(udn)) {
        OccurrencesAt(roots, i, [], x);
        OccurrencesAt(roots, i, [], udn);
        assert roots[..i] + [] + roots[i + 1..] == roots[..i] + roots[i + 1..];
      } else {
        PruneRemoves(tree, udn, x);
        var pruned := roots[i].(dev := roots[i].dev.(tree := Prune(tree, udn)));
        OccurrencesAt(roots, i, [pruned], x);
        OccurrencesAt(roots, i, [pruned], udn);
        assert OccurrencesIn([pruned], x) == Occurrences(pruned.dev.tree, x);
        assert OccurrencesIn([pruned], udn) == Occurrences(pruned.dev.tree, udn);
        assert roots[i := pruned] == roots[..i] + [pruned] + roots[i + 1..];
      }
    }
  }
}
