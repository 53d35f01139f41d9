/**
 * What the regions of the discovery protocol do, in terms of the devices that
 * the cached descriptions list.
 */
module DiscoveryOutcomes {
  import opened Text
  import opened DeviceTree
  import opened DeviceUpdate
  import opened Discovery
  import opened DiscoveryInvariant
  import opened DiscoveryRuns
  import opened DiscoveryCommit

  // ---------------------------------------------------------------------
  // Which devices a description lists
  // ---------------------------------------------------------------------

  /** Some device of the tree, the root or an embedded one, has the UDN. */
  ghost predicate Occurs(d: Device, udn: string) {
    udn != "" && exists x | x in AllDevices(d) :: x.node.udn == Some(udn)
  }

  lemma OccursIff(d: Device, udn: string)
    ensures TreeHas(d, udn) <==> Occurs(d, udn)
  {
    if udn != "" {
      FindByUdnIsFirst(d, Some(udn));
      hide FindByUdn, AllDevices, FirstDevice;
      var found := FirstDevice(AllDevices(d), Some(udn));
      if found.Some? {
        assert found.value in AllDevices(d);
      }
    }
  }

  /** Root `k` is the first one cached that lists the UDN. */
  ghost predicate FirstWith(roots: seq<Root>, k: nat, udn: string) {
    k < |roots| && Occurs(roots[k].dev.tree, udn) && forall j | 0 <= j < k :: !Occurs(roots[j].dev.tree, udn)
  }

  ghost predicate IsCached(roots: seq<Root>, udn: string) {
    exists r | r in roots :: Occurs(r.dev.tree, udn)
  }

  lemma RootIndexIff(roots: seq<Root>, udn: string)
    ensures forall k: nat :: RootIndex(roots, udn) == Some(k) <==> FirstWith(roots, k, udn)
    ensures RootIndex(roots, udn).None? <==> !IsCached(roots, udn)
  {
    hide TreeHas, Occurs, RootIndex;
    forall r | r in roots ensures TreeHas(r.dev.tree, udn) <==> Occurs(r.dev.tree, udn) {
      OccursIff(r.dev.tree, udn);
    }
    var found := RootIndex(roots, udn);
    if found.Some? {
      assert roots[found.value] in roots;
    }
    forall k: nat ensures found == Some(k) <==> FirstWith(roots, k, udn) {
      if FirstWith(roots, k, udn) {
        assert roots[k] in roots;
        assert found.Some? && forall j | 0 <= j < |roots| :: roots[j] in roots;
      }
    }
  }

  // ---------------------------------------------------------------------
  // Announcements
  // ---------------------------------------------------------------------

  /** The packet names a device and where it is described. */
  predicate Named(packet: Packet) {
    packet.udn != "" && packet.location.Some? && packet.location.value != ""
  }

  /** The first root that lists the announced UDN is cached from the announced LOCATION. */
  ghost predicate Repeated(roots: seq<Root>, packet: Packet) {
    exists k: nat :: FirstWith(roots, k, packet.udn) && roots[k].dev.packet.location == packet.location
  }

  ghost predicate Fetching(pending: seq<Entry>, location: CString) {
    exists e | e in pending :: Some(e.location) == location
  }

  /** How an announcement is answered, each answer by the inputs alone. */
  lemma ReserveOutcome(sh: Shared, id: nat, packet: Packet)
    ensures var answer := Reserve(sh, id, packet).1;
            && (answer.Ignored? <==> !Named(packet))
            && (answer.Rejected? <==> Named(packet) && sh.stopping)
            && (answer.Refreshed? <==> Named(packet) && !sh.stopping && Repeated(sh.roots, packet))
            && (answer.Joined? <==> Named(packet) && !sh.stopping && !Repeated(sh.roots, packet)
                                    && Fetching(sh.pending, packet.location))
            && (answer.Reserved? <==> Named(packet) && !sh.stopping && !Repeated(sh.roots, packet)
                                      && !Fetching(sh.pending, packet.location))
  {
    RootIndexIff(sh.roots, packet.udn);
    hide RootIndex, FirstWith, IsCached, Scan, Marked;
    if Named(packet) {
      FetchingIff(sh.pending, packet.location.value);
    }
  }

  lemma FetchingIff(pending: seq<Entry>, location: string)
    ensures Fetching(pending, Some(location)) <==> exists i | 0 <= i < |pending| :: pending[i].location == location
  {
    if e :| e in pending && e.location == location {
      var i :| 0 <= i < |pending| && pending[i] == e;
    }
  }

  /** The root UDN that the announcement goes by: that of the root found, or the announced one. */
  ghost predicate GoesBy(roots: seq<Root>, udn: string, rootUdn: string) {
    && (forall k: nat | FirstWith(roots, k, udn) :: rootUdn == OrEmpty(roots[k].dev.tree.node.udn))
    && (!IsCached(roots, udn) ==> rootUdn == udn)
  }

  /**
   * The scan: up to the first fetch of the announced LOCATION every fetch of
   * the same UDN or the same root is marked, and nothing else changes.
   */
  ghost predicate MarkedRivals(pending: seq<Entry>, after: seq<Entry>, packet: Packet, rootUdn: string) {
    && |after| == |pending|
    && forall p | 0 <= p < |pending| ::
         after[p] == pending[p].(superseded := pending[p].superseded || (
           && (pending[p].udn == packet.udn || pending[p].rootUdn == rootUdn)
           && forall q | 0 <= q <= p :: Some(pending[q].location) != packet.location))
  }

  lemma ScanMarksRivals(pending: seq<Entry>, packet: Packet, rootUdn: string)
    requires packet.location.Some?
    ensures MarkedRivals(pending, Scan(pending, packet.udn, rootUdn, packet.location.value).0, packet, rootUdn)
  {
    hide Scan, FirstAt;
    var location := packet.location.value;
    var n, scanned := FirstAt(pending, location), Scan(pending, packet.udn, rootUdn, location).0;
    ScanMarksUpTo(pending, packet.udn, rootUdn, location);
    forall p | 0 <= p < |pending|
      ensures scanned[p] == if p < n then Marked(pending[p], packet.udn, rootUdn) else pending[p]
      ensures (forall q | 0 <= q <= p :: pending[q].location != location) <==> p < n
    {
      assert p >= n ==> scanned[n..][p - n] == pending[n..][p - n];
    }
  }

  /**
   * What an announcement changes: a refresh the packet of that one root, a
   * join the marks, a reservation the marks and the new entry, which records
   * the LOCATION of the root found; anything else nothing.
   */
  lemma ReserveEffect(sh: Shared, id: nat, packet: Packet)
    ensures var (sh', answer) := Reserve(sh, id, packet);
            match answer
            case Ignored => sh' == sh
            case Rejected => sh' == sh
            case Refreshed =>
              forall k: nat | FirstWith(sh.roots, k, packet.udn) ::
                sh' == sh.(roots := sh.roots[k := sh.roots[k].(dev := sh.roots[k].dev.(packet := packet))])
            case Joined =>
              && sh' == sh.(pending := sh'.pending)
              && exists rootUdn :: GoesBy(sh.roots, packet.udn, rootUdn)
                                   && MarkedRivals(sh.pending, sh'.pending, packet, rootUdn)
            case Reserved(call) =>
              && sh' == sh.(pending := sh'.pending) && sh'.pending != [] && packet.location.Some?
              && var e := sh'.pending[0];
              && e == Entry(id, packet.udn, e.rootUdn, packet.location.value, false)
              && GoesBy(sh.roots, packet.udn, e.rootUdn) && MarkedRivals(sh.pending, sh'.pending[1..], packet, e.rootUdn)
              && call.packet == packet && call.epoch == sh.epoch
              && (forall k: nat | FirstWith(sh.roots, k, packet.udn) ::
                    call.cachedLocation == sh.roots[k].dev.packet.location)
              && (!IsCached(sh.roots, packet.udn) ==> call.cachedLocation == None)
  {
    RootIndexIff(sh.roots, packet.udn);
    hide RootIndex, FirstWith, IsCached, Scan, Marked, MarkedRivals;
    var (sh', answer) := Reserve(sh, id, packet);
    if answer.Joined? || answer.Reserved? {
      var found := RootIndex(sh.roots, packet.udn);
      var rootUdn := if found.Some? then OrEmpty(UdnOf(sh.roots[found.value])) else packet.udn;
      ScanMarksRivals(sh.pending, packet, rootUdn);
      assert GoesBy(sh.roots, packet.udn, rootUdn);
      if answer.Reserved? {
        assert sh'.pending[1..] == Scan(sh.pending, packet.udn, rootUdn, packet.location.value).0;
      }
    }
  }

  /** The network is free: anything may be announced or taken back at any time, and any fetch may fail or succeed. */
  lemma AnythingCanHappen(s: System, packet: Packet, udn: string, id: nat, response: Cached)
    ensures Enabled(s, Announce(packet)) && Enabled(s, Byebye(udn))
    ensures id in s.threads && s.threads[id].phase.Fetching? ==>
      && Enabled(s, Receive(id, None))
      && (OrEmpty(response.tree.node.udn) != "" ==> Enabled(s, Receive(id, Some(response))))
    ensures id in s.threads && s.threads[id].phase.Fetched? ==> Enabled(s, CommitCall(id))
  {
  }

  // ---------------------------------------------------------------------
  // Arrivals
  // ---------------------------------------------------------------------

  /**
   * A call keeps what arrived for it exactly if something arrived and some
   * device of it, root or embedded, has the announced UDN. A candidate is a
   * new object with that description and the announced packet.
   */
  lemma ArrivalIsKeptIff(s: System, id: nat, response: Option<Cached>)
    requires Inv(s) && Enabled(s, Receive(id, response))
    ensures var s' := Apply(s, Receive(id, response));
            && id in s'.threads && s'.threads == s.threads[id := s'.threads[id]] && s'.shared == s.shared
            && s'.threads[id].call == s.threads[id].call && s'.threads[id].phase.Fetched?
            && var candidate := s'.threads[id].phase.candidate;
            && (candidate.Some? <==> response.Some? && Occurs(response.value.tree, s.threads[id].call.packet.udn))
            && (candidate.Some? ==>
                  candidate.value == Root(s.created, s.created, response.value.(packet := s.threads[id].call.packet)))
  {
    hide OwnershipOk, RootsOk, PendingOk, PendingIsInFlight, Occurs, TreeHas, Usable;
    if response.Some? {
      OccursIff(response.value.tree, s.threads[id].call.packet.udn);
    }
  }

  // ---------------------------------------------------------------------
  // Commits
  // ---------------------------------------------------------------------

  /** The root that the call was reserved against is still cached from the LOCATION it had then. */
  ghost predicate StillAt(roots: seq<Root>, call: Call) {
    exists k: nat :: FirstWith(roots, k, call.packet.udn) && call.cachedLocation.Some?
                     && roots[k].dev.packet.location == call.cachedLocation
  }

  ghost predicate IsNew(roots: seq<Root>, call: Call, candidate: Root) {
    !IsCached(roots, call.packet.udn) && !IsCached(roots, OrEmpty(candidate.dev.tree.node.udn))
  }

  /** What listeners are told of a commit that passed the test, by the inputs alone, and what the call deletes. */
  lemma CommitOutcome(roots: seq<Root>, call: Call, candidate: Option<Root>)
    ensures var (roots', outcome) := CommitRoots(roots, call, candidate);
            && (outcome.status.Added? <==> candidate.Some? && IsNew(roots, call, candidate.value))
            && (outcome.status.Updated? <==> StillAt(roots, call))
            && (outcome.publish <==> outcome.status.Added? || outcome.status.Updated?
                                     || (candidate.None? && !IsCached(roots, call.packet.udn)))
            && (outcome.leftover.None? <==> outcome.status.Added? || candidate.None?)
            && (outcome.status.Added? ==> roots' == roots + [candidate.value])
            && (!outcome.status.Added? && !(outcome.status.Updated? && candidate.Some?) ==>
                  roots' == roots && outcome.leftover == candidate)
  {
    RootIndexIff(roots, call.packet.udn);
    if candidate.Some? {
      RootIndexIff(roots, OrEmpty(UdnOf(candidate.value)));
    }
    hide RootIndex, FirstWith, IsCached, UpdateRoot;
  }

  /** A call that was superseded, or overtaken by a byebye or a stop, tells no one, and deletes what it fetched. */
  lemma UntestedOutcome(sh: Shared, id: nat, superseded: bool, call: Call, candidate: Option<Root>)
    requires sh.stopping || superseded || call.epoch != sh.epoch
    ensures var (sh', outcome) := Commit(sh, id, superseded, call, candidate);
            && sh' == sh.(pending := sh'.pending)
            && !outcome.publish && outcome.status.Invalid? && outcome.leftover == candidate
  {
  }

  /**
   * What an update leaves: if the description is of another root, everything
   * as it was; otherwise the root object, exposing the new description at the
   * new LOCATION, and the candidate object with whichever description the
   * root does not have.
   */
  ghost predicate Replaced(r: Root, candidate: Root, packet: Packet, r': Root, other: Root) {
    && (candidate.dev.tree.node.udn != r.dev.tree.node.udn ==> r' == r && other == candidate)
    && (candidate.dev.tree.node.udn == r.dev.tree.node.udn ==>
          && r'.objectId == r.objectId && other.objectId == candidate.objectId
          && r'.dev.packet == packet && r'.dev.httpPort == candidate.dev.httpPort
          && SkeletonOf(r'.dev.tree) == SkeletonOf(candidate.dev.tree)
          && (if SkeletonOf(r.dev.tree) == SkeletonOf(candidate.dev.tree)
                 && OrEmpty(r.dev.packet.configId) == OrEmpty(packet.configId)
              then
                && r'.dev.tree == r.dev.tree && other.dev.tree == candidate.dev.tree
                && r'.descriptionId == r.descriptionId && other.descriptionId == candidate.descriptionId
              else
                && Strip(r'.dev.tree) == Strip(candidate.dev.tree) && other.dev.tree == r.dev.tree
                && r'.descriptionId == candidate.descriptionId && other.descriptionId == r.descriptionId))
  }

  lemma UpdateReplaces(r: Root, candidate: Root, packet: Packet)
    requires candidate.dev.tree.node.udn.Some?
    ensures Replaced(r, candidate, packet, UpdateRoot(r, candidate, packet).0, UpdateRoot(r, candidate, packet).1)
  {
    hide SkeletonOf, SameStructure, CopySubscriptions, Strip;
    SameStructureIffSkeleton(r.dev.tree, candidate.dev.tree);
    if candidate.dev.tree.node.udn == r.dev.tree.node.udn {
      UpdateShowsNewDescription(r.dev, candidate.dev, packet);
    }
  }

  /** A commit that updates touches the root it was reserved against, and no other. */
  lemma UpdateEffect(roots: seq<Root>, call: Call, candidate: Root, k: nat)
    requires FirstWith(roots, k, call.packet.udn) && StillAt(roots, call) && Usable(candidate.dev)
    ensures var (roots', outcome) := CommitRoots(roots, call, Some(candidate));
            && |roots'| == |roots| && roots' == roots[k := roots'[k]] && outcome.leftover.Some?
            && Replaced(roots[k], candidate, call.packet, roots'[k], outcome.leftover.value)
  {
    RootIndexIff(roots, call.packet.udn);
    hide RootIndex, FirstWith, IsCached, UpdateRoot, Replaced;
    UpdateReplaces(roots[k], candidate, call.packet);
  }

  // ---------------------------------------------------------------------
  // From arrival to publication
  // ---------------------------------------------------------------------

  /** The call keeps its candidate until it commits. */
  lemma {:induction false} CandidateStays(states: seq<System>, steps: seq<Step>, m: nat, j: nat, id: nat)
    requires IsRun(states, steps) && m <= j <= |steps| && id < states[m].calls
    requires id in states[m].threads && states[m].threads[id].phase.Fetched? && id in states[j].threads
    ensures states[j].threads[id] == states[m].threads[id]
    decreases j
  {
    hide Enabled, Apply, Inv;
    if m < j {
      CallsGrow(states, steps, m, j - 1);
      EndedCallsStayEnded(states[j - 1], steps[j - 1]);
      CandidateStays(states, steps, m, j - 1, id);
      StepKeepsCandidate(states[j - 1], steps[j - 1], id);
    }
  }

  lemma StepKeepsCandidate(s: System, step: Step, id: nat)
    requires Enabled(s, step) && id in s.threads && s.threads[id].phase.Fetched? && id < s.calls
    requires id in Apply(s, step).threads
    ensures Apply(s, step).threads[id] == s.threads[id]
  {
    hide Reserve, Commit, Remove, Usable, TreeHas;
  }

  /**
   * Over runs: a description in which the announced UDN occurs, root or
   * embedded, is in the cache after its call published, as one more root, if
   * no cached tree listed the announced UDN or the description's own root.
   */
  lemma FetchedRootIsAdded(states: seq<System>, steps: seq<Step>, m: nat, j: nat, id: nat, response: Cached)
    requires IsRun(states, steps) && m < j && m < |steps| && steps[m] == Receive(id, Some(response))
    requires PublishesAt(states, steps, j, id) && id in states[m].threads
    requires Occurs(response.tree, states[m].threads[id].call.packet.udn)
    requires !IsCached(states[j].shared.roots, states[m].threads[id].call.packet.udn)
    requires !IsCached(states[j].shared.roots, OrEmpty(response.tree.node.udn))
    ensures states[j + 1].shared.roots == states[j].shared.roots
         + [Root(states[m].created, states[m].created, response.(packet := states[m].threads[id].call.packet))]
  {
    hide Inv, Enabled, Apply, IsCached, Occurs, PassesTest, CommitRoots;
    RunsKeepInv(states, steps, m);
    ArrivalIsKeptIff(states[m], id, Some(response));
    CommitIsEnabled(states[j], id, steps[j]);
    InFlightHasEntry(states[m], id);
    EndedCallsStayEnded(states[m], steps[m]);
    CandidateStays(states, steps, m + 1, j, id);
    RootsAfterCommit(states[j], id);
    CommitOutcome(states[j].shared.roots, states[j].threads[id].call, states[j].threads[id].phase.candidate);
  }
}
