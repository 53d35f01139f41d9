/**
 * Why NoAba needs its hypothesis: when two roots claim the same device, a
 * commit can find another root than its reservation did.
 */
module DiscoveryOverlap {
  import opened Text
  import opened DeviceTree
  import opened DeviceUpdate
  import opened Discovery
  import opened DiscoveryRuns

  ghost predicate Leads(s: System, step: Step, s': System) {
    Enabled(s, step) && s' == Apply(s, step)
  }

  /** A fetch with nothing else in flight that adds a root. */
  lemma FetchAlone(s: System, packet: Packet, response: Cached) returns (s1: System, s2: System, s3: System)
    requires s.threads == map[] && s.shared.pending == [] && !s.shared.stopping
    requires packet.udn != "" && !IsBlank(packet.location) && RootUdn(response) == Some(packet.udn)
    requires RootIndex(s.shared.roots, packet.udn).None?
    ensures Leads(s, Announce(packet), s1) && Leads(s1, Receive(s.calls, Some(response)), s2)
    ensures Leads(s2, CommitCall(s.calls), s3)
    ensures s3.threads == map[] && s3.calls == s.calls + 1 && s3.created == s.created + 1
    ensures s3.shared == s.shared.(roots := s.shared.roots + [Root(s.created, s.created, response.(packet := packet))])
  {
    hide RootIndex;
    var entry := Entry(s.calls, packet.udn, packet.udn, packet.location.value, false);
    s1 := ApplyAnnounce(s, packet);
    assert s1.shared.pending == [entry] + [] == [entry];
    assert TreeHas(response.tree, packet.udn);
    s2 := ApplyReceive(s1, s.calls, Some(response));
    assert s2.shared.pending == [entry] && EntryOf(s2.shared.pending, s.calls) == Some(entry);
    s3 := ApplyCommit(s2, s.calls);
    assert s3.shared.pending == [];
    assert s3.threads == map[];
  }

  const P := "uuid:p"
  const R := "uuid:r"
  const ALONE_P := Device(DeviceNode(Some(P), None), [], [])
  const ALONE_R := Device(DeviceNode(Some(R), None), [], [])
  /** A description of P that also claims R. */
  const BOTH := Device(DeviceNode(Some(P), None), [], [ALONE_R])

  function At(udn: string, location: string): Packet {
    Packet(udn, Some(location), None, 0)
  }

  const P_AT_P := At(P, "http://p/")
  const R_AT_R := At(R, "http://r/")
  const R_AT_N := At(R, "http://n/")
  const P_AT_R := At(P, "http://r/")

  lemma TheyDiffer()
    ensures P != R && "http://p/" != "http://r/" && "http://n/" != "http://r/"
    ensures !TreeHas(ALONE_P, R) && TreeHas(ALONE_R, R) && TreeHas(ALONE_P, P) && TreeHas(BOTH, R) && TreeHas(BOTH, P)
    ensures !TreeHas(ALONE_R, P)
  {
    assert P[5] != R[5] && "http://p/"[7] != "http://r/"[7] && "http://n/"[7] != "http://r/"[7];
  }

  const ROOT_P := Root(0, 0, Cached(ALONE_P, P_AT_P, 80))
  const ROOT_R := Root(1, 1, Cached(ALONE_R, R_AT_R, 80))
  const FETCH_R := Entry(2, R, R, "http://n/", false)
  const FETCH_P := Entry(3, P, P, "http://r/", false)

  /** P and then R are announced, described and cached. */
  lemma BothCached() returns (s1: System, s2: System, s3: System, s4: System, s5: System, s6: System)
    ensures Leads(INITIAL, Announce(P_AT_P), s1) && Leads(s1, Receive(0, Some(ROOT_P.dev)), s2) && Leads(s2, CommitCall(0), s3)
    ensures Leads(s3, Announce(R_AT_R), s4) && Leads(s4, Receive(1, Some(ROOT_R.dev)), s5) && Leads(s5, CommitCall(1), s6)
    ensures s6.shared == Shared([ROOT_P, ROOT_R], [], 0, false) && s6.threads == map[] && s6.calls == 2
  {
    TheyDiffer();
    hide TreeHas, Leads;
    s1, s2, s3 := FetchAlone(INITIAL, P_AT_P, ROOT_P.dev);
    assert s3.shared.roots == [] + [ROOT_P] == [ROOT_P] && [ROOT_P][1..] == [];
    s4, s5, s6 := FetchAlone(s3, R_AT_R, ROOT_R.dev);
    assert s6.shared.roots == [ROOT_P] + [ROOT_R] == [ROOT_P, ROOT_R];
  }

  /** With both roots cached: R is announced at a new LOCATION, then P at the one that R is cached with. */
  lemma BothAnnounced(s: System) returns (a: System, b: System)
    requires s.shared == Shared([ROOT_P, ROOT_R], [], 0, false) && s.threads == map[] && s.calls == 2
    ensures Leads(s, Announce(R_AT_N), a) && Leads(a, Announce(P_AT_R), b)
    ensures RootIndex(s.shared.roots, R) == Some(1) && 2 in a.threads
    ensures b.shared == Shared([ROOT_P, ROOT_R], [FETCH_P, FETCH_R], 0, false)
    ensures b.threads == map[2 := Thread(Call(R_AT_N, 0, Some("http://r/")), Fetching),
                             3 := Thread(Call(P_AT_R, 0, Some("http://p/")), Fetching)]
  {
    TheyDiffer();
    var roots := s.shared.roots;
    assert TreeHas(roots[0].dev.tree, P) && !TreeHas(roots[0].dev.tree, R) && TreeHas(roots[1].dev.tree, R);
    hide TreeHas;
    assert RootIndex(roots, R) == Some(1);
    assert RootIndex(roots, P) == Some(0);
    hide RootIndex;
    a := ApplyAnnounce(s, R_AT_N);
    assert a.shared.pending == [FETCH_R] + [] == [FETCH_R];
    ScanStep(FETCH_R, [], P, P, "http://r/");
    assert [FETCH_R] + [] == [FETCH_R];
    b := ApplyAnnounce(a, P_AT_R);
    assert b.shared.pending == [FETCH_P] + [FETCH_R] == [FETCH_P, FETCH_R];
  }

  /** The description of P that claims R, as the candidate of the second call. */
  function Candidate(n: nat): Root {
    Root(n, n, Cached(BOTH, P_AT_R, 80))
  }

  /** What it makes of P's root: R is now found there. */
  lemma UpdatedByBoth(n: nat)
    ensures var r := UpdateRoot(ROOT_P, Candidate(n), P_AT_R).0;
            r.objectId == 0 && LocationOf(r) == Some("http://r/") && RootIndex([r, ROOT_R], R) == Some(0)
  {
    TheyDiffer();
    CopyCommutesWithFind(BOTH, ALONE_P, Some(R));
    assert !SameStructure(ALONE_P, BOTH);
    assert TreeHas(CopySubscriptions(BOTH, ALONE_P), R);
    hide TreeHas, CopySubscriptions, SameStructure;
  }

  /** The description of P that claims R is published, and the download for R fails. */
  lemma PublishedFirst(b: System) returns (c: System, d: System, e: System)
    requires b.shared == Shared([ROOT_P, ROOT_R], [FETCH_P, FETCH_R], 0, false)
    requires b.threads == map[2 := Thread(Call(R_AT_N, 0, Some("http://r/")), Fetching),
                              3 := Thread(Call(P_AT_R, 0, Some("http://p/")), Fetching)]
    ensures Leads(b, Receive(3, Some(Cached(BOTH, P_AT_R, 80))), c) && Leads(c, CommitCall(3), d)
    ensures Leads(d, Receive(2, None), e) && Enabled(e, CommitCall(2)) && PassesTest(e, 2)
    ensures RootIndex(e.shared.roots, R) == Some(0) && e.shared.roots[0].objectId == 0
  {
    TheyDiffer();
    hide TreeHas, RootIndex, UpdateRoot, CommitRoots;
    UpdatedByBoth(b.created);
    PIsFirst(b.created);
    c := ApplyReceive(b, 3, Some(Cached(BOTH, P_AT_R, 80)));
    assert c.threads[3].phase == Fetched(Some(Candidate(b.created)));
    d := ApplyCommit(c, 3);
    assert d.shared.roots == [UpdateRoot(ROOT_P, Candidate(b.created), P_AT_R).0, ROOT_R];
    assert d.shared.pending == [FETCH_R];
    e := ApplyReceive(d, 2, None);
  }

  /** What the commit of the second call does to the root list. */
  lemma PIsFirst(n: nat)
    ensures CommitRoots([ROOT_P, ROOT_R], Call(P_AT_R, 0, Some("http://p/")), Some(Candidate(n))).0
         == [UpdateRoot(ROOT_P, Candidate(n), P_AT_R).0, ROOT_R]
  {
    TheyDiffer();
    var roots := [ROOT_P, ROOT_R];
    assert TreeHas(roots[0].dev.tree, P);
    hide TreeHas, UpdateRoot;
    assert RootIndex(roots, P) == Some(0);
    hide RootIndex;
    assert roots[0 := UpdateRoot(ROOT_P, Candidate(n), P_AT_R).0] == [UpdateRoot(ROOT_P, Candidate(n), P_AT_R).0, ROOT_R];
  }

  /** A call that publishes finds another root at its commit than at its reservation. */
  ghost predicate FindsAnother(states: seq<System>, steps: seq<Step>, i: nat, j: nat, id: nat)
    requires IsRun(states, steps)
  {
    && ReservesAt(states, steps, i, id) && PublishesAt(states, steps, j, id)
    && var before := RootIndex(states[i].shared.roots, steps[i].packet.udn);
    && var after := RootIndex(states[j].shared.roots, steps[i].packet.udn);
    && before.Some? && after.Some?
    && states[i].shared.roots[before.value].objectId != states[j].shared.roots[after.value].objectId
  }

  /**
   * The compare in the commit does not notice: R was found cached in its own
   * root, but at the commit P's root, brought to the same LOCATION by an
   * announcement of P, claims R as well and comes first in the list.
   */
  lemma AnotherRootCanBeFound()
    ensures exists states: seq<System>, steps: seq<Step>, i: nat, j: nat, id: nat ::
              IsRun(states, steps) && FindsAnother(states, steps, i, j, id)
  {
    hide TreeHas, RootIndex, Enabled, Apply, PassesTest;
    var s1, s2, s3, s4, s5, s6 := BothCached();
    var s7, s8 := BothAnnounced(s6);
    var s9, s10, s11 := PublishedFirst(s8);
    var s12 := Apply(s11, CommitCall(2));
    var states := [INITIAL, s1, s2, s3, s4, s5, s6, s7, s8, s9, s10, s11, s12];
    var steps := [Announce(P_AT_P), Receive(0, Some(ROOT_P.dev)), CommitCall(0),
                  Announce(R_AT_R), Receive(1, Some(ROOT_R.dev)), CommitCall(1),
                  Announce(R_AT_N), Announce(P_AT_R), Receive(3, Some(Cached(BOTH, P_AT_R, 80))), CommitCall(3),
                  Receive(2, None), CommitCall(2)];
    assert IsRun(states, steps);
    hide IsRun;
    assert FindsAnother(states, steps, 6, 11, 2);
  }
}
