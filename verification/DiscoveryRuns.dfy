/** Theorems about whole runs of the discovery system. */
module DiscoveryRuns {
  import opened Text
  import opened DeviceTree
  import opened DeviceUpdate
  import opened Discovery
  import opened DiscoveryInvariant

  ghost predicate IsRun(states: seq<System>, steps: seq<Step>) {
    && |states| == |steps| + 1 && states[0] == INITIAL
    && forall i | 0 <= i < |steps| :: Enabled(states[i], steps[i]) && states[i + 1] == Apply(states[i], steps[i])
  }

  /** Every state of every run satisfies the invariant. */
  lemma {:induction false} RunsKeepInv(states: seq<System>, steps: seq<Step>, i: nat)
    requires IsRun(states, steps) && i <= |steps|
    ensures Inv(states[i])
  {
    hide Inv, Enabled, Apply;
    if i == 0 {
      InitialInv();
    } else {
      RunsKeepInv(states, steps, i - 1);
      StepKeepsInv(states[i - 1], steps[i - 1]);
    }
  }

  // ---------------------------------------------------------------------
  // One call through a run
  // ---------------------------------------------------------------------

  /** The same reservation of the same call, seen before and after. */
  ghost predicate SameCall(s: System, s': System, id: nat) {
    && id in s.threads && id in s'.threads && s'.threads[id].call == s.threads[id].call
    && EntryOf(s.shared.pending, id).Some? && EntryOf(s'.shared.pending, id).Some?
    && Later(EntryOf(s.shared.pending, id).value, EntryOf(s'.shared.pending, id).value)
  }

  lemma EntryOfTail(entry: Entry, scanned: seq<Entry>, id: nat)
    requires entry.id != id
    ensures EntryOf([entry] + scanned, id) == EntryOf(scanned, id)
  {
    assert ([entry] + scanned)[1..] == scanned;
  }

  lemma AnnounceKeepsCall(s: System, packet: Packet, id: nat)
    requires EntryOf(s.shared.pending, id).Some? && id in s.threads && id < s.calls
    ensures SameCall(s, ApplyAnnounce(s, packet), id)
  {
    var (sh', reservation) := Reserve(s.shared, s.calls, packet);
    ReserveCases(s.shared, s.calls, packet);
    hide Reserve, Supersedes, EntryOf;
    if reservation.Joined? {
      SameReservationsSameEntries(s.shared.pending, sh'.pending, id);
    } else if reservation.Reserved? {
      var entry, scanned := sh'.pending[0], sh'.pending[1..];
      assert sh'.pending == [entry] + scanned;
      SameReservationsSameEntries(s.shared.pending, scanned, id);
      EntryOfTail(entry, scanned, id);
      hide SameReservations, EntryFits, IsBlank, Enqueues;
    }
  }

  lemma CommitKeepsCall(s: System, other: nat, id: nat)
    requires PendingOk(s.shared.pending) && Enabled(s, CommitCall(other))
    requires id in s.threads && other != id
    requires EntryOf(s.shared.pending, id).Some? && EntryOf(s.shared.pending, other).Some?
    ensures SameCall(s, ApplyCommit(s, other), id)
  {
    UnlinkKeepsOthers(s.shared.pending, other);
    hide PendingOk, CommitRoots, Unlink, PublishTest, EntryOf, IsSuperseded;
  }

  lemma InFlightHasEntry(s: System, id: nat)
    requires Inv(s) && id in s.threads
    ensures id < s.calls && EntryOf(s.shared.pending, id).Some?
  {
  }

  /** Only announcements and commits touch the pending list. */
  lemma OtherStepsKeepPending(s: System, step: Step)
    requires Enabled(s, step) && !step.Announce? && !step.CommitCall?
    ensures var s' := Apply(s, step);
            && s'.shared.pending == s.shared.pending && s'.threads.Keys == s.threads.Keys
            && forall id | id in s.threads :: s'.threads[id].call == s.threads[id].call
  {
    hide RootIndex, Prune, Strip, Usable, TreeHas;
  }

  /** The reservation of a call stays in place, at most superseded, until the call commits. */
  lemma StepKeepsCall(s: System, step: Step, id: nat)
    requires Inv(s) && Enabled(s, step) && id in s.threads && step != CommitCall(id)
    ensures SameCall(s, Apply(s, step), id)
  {
    InFlightHasEntry(s, id);
    match step
    case Announce(packet) => AnnounceKeepsCall(s, packet, id);
    case CommitCall(other) =>
      InFlightHasEntry(s, other);
      CommitKeepsCall(s, other, id);
    case _ =>
      OtherStepsKeepPending(s, step);
      hide Inv, Apply, Enabled, EntryOf;
  }

  /** A call that ended never comes back. */
  lemma EndedCallsStayEnded(s: System, step: Step)
    requires Enabled(s, step)
    ensures s.calls <= Apply(s, step).calls
    ensures forall id | id in Apply(s, step).threads && id < s.calls :: id in s.threads && step != CommitCall(id)
  {
    hide Reserve, Commit, Remove, Usable, TreeHas;
  }

  lemma {:induction false} CallsGrow(states: seq<System>, steps: seq<Step>, i: nat, j: nat)
    requires IsRun(states, steps) && i <= j <= |steps|
    ensures states[i].calls <= states[j].calls
  {
    if i < j {
      CallsGrow(states, steps, i, j - 1);
      EndedCallsStayEnded(states[j - 1], steps[j - 1]);
      hide Enabled, Apply;
    }
  }

  /** The superseded flag never reverts, and a reservation never changes otherwise. */
  lemma {:induction false} CallThroughRun(states: seq<System>, steps: seq<Step>, i: nat, j: nat, id: nat)
    requires IsRun(states, steps) && i <= j <= |steps|
    requires id in states[j].threads && id < states[i].calls
    ensures SameCall(states[i], states[j], id)
    decreases j
  {
    hide Enabled, Apply, Inv;
    if i == j {
      RunsKeepInv(states, steps, j);
      InFlightHasEntry(states[j], id);
    } else {
      CallsGrow(states, steps, i, j - 1);
      EndedCallsStayEnded(states[j - 1], steps[j - 1]);
      RunsKeepInv(states, steps, j - 1);
      StepKeepsCall(states[j - 1], steps[j - 1], id);
      CallThroughRun(states, steps, i, j - 1, id);
    }
  }

  // ---------------------------------------------------------------------
  // Reserve-to-commit intervals
  // ---------------------------------------------------------------------

  ghost predicate ReservesAt(states: seq<System>, steps: seq<Step>, i: nat, id: nat)
    requires IsRun(states, steps)
  {
    i < |steps| && steps[i].Announce? && id == states[i].calls && id in states[i + 1].threads
  }

  ghost predicate CommitsAt(states: seq<System>, steps: seq<Step>, j: nat, id: nat)
    requires IsRun(states, steps)
  {
    j < |steps| && steps[j] == CommitCall(id)
  }

  predicate PassesTest(s: System, id: nat)
    requires id in s.threads
  {
    PublishTest(s.shared, IsSuperseded(s, id), s.threads[id].call)
  }

  /** The root list after a commit. */
  lemma RootsAfterCommit(s: System, id: nat)
    requires Enabled(s, CommitCall(id))
    ensures var t := s.threads[id];
            && Apply(s, CommitCall(id)).shared.roots
            == (if PassesTest(s, id) then CommitRoots(s.shared.roots, t.call, t.phase.candidate).0 else s.shared.roots)
  {
    hide CommitRoots, Unlink, PublishTest, IsSuperseded;
  }

  /** The root list after an announcement: at most one root's packet was refreshed. */
  lemma RootsAfterAnnouncement(s: System, packet: Packet)
    ensures var sh' := ApplyAnnounce(s, packet).shared;
            sh'.roots == s.shared.roots || exists i :: Refreshes(s.shared, sh', packet, i)
  {
    hide Reserve, CachedLocation, SameReservations, Refreshes;
    ReserveCases(s.shared, s.calls, packet);
  }

  lemma RootsOtherwise(s: System, step: Step)
    requires Enabled(s, step) && (step.Receive? || step.StopBegins? || step.Start?)
    ensures Apply(s, step).shared.roots == s.shared.roots
  {
    hide TreeHas, Usable;
  }

  /** The commit of the call passes the publish test. */
  ghost predicate PublishesAt(states: seq<System>, steps: seq<Step>, j: nat, id: nat)
    requires IsRun(states, steps)
  {
    CommitsAt(states, steps, j, id) && PassesTest(states[j], id)
  }

  /** Two reservations for the same announced UDN, or with the same recorded root UDN. */
  predicate Rivals(a: Option<Entry>, b: Option<Entry>) {
    a.Some? && b.Some? && Supersedes(b.value.udn, b.value.rootUdn, a.value)
  }

  /** A reservation supersedes every rival that is in flight. */
  lemma ReservingSupersedesRivals(s: System, packet: Packet, id: nat)
    requires Inv(s) && id in s.threads && s.calls in ApplyAnnounce(s, packet).threads
    requires var pending := ApplyAnnounce(s, packet).shared.pending;
             Rivals(EntryOf(s.shared.pending, id), EntryOf(pending, s.calls))
    ensures IsSuperseded(ApplyAnnounce(s, packet), id)
  {
    InFlightHasEntry(s, id);
    var (sh', reservation) := Reserve(s.shared, s.calls, packet);
    ReserveCases(s.shared, s.calls, packet);
    assert reservation.Reserved? by {
      assert s.calls !in s.threads;
    }
    hide Inv, Reserve, EntryOf;
    var entry, scanned := sh'.pending[0], sh'.pending[1..];
    assert sh'.pending == [entry] + scanned;
    SameReservationsSameEntries(s.shared.pending, scanned, id);
    EntryOfTail(entry, scanned, id);
    EntryOfHead(entry, scanned);
  }

  lemma EntryOfHead(entry: Entry, scanned: seq<Entry>)
    ensures EntryOf([entry] + scanned, entry.id) == Some(entry)
  {
  }

  /** A call is in flight from its reservation to its commit. */
  lemma InFlightBetween(states: seq<System>, steps: seq<Step>, i: nat, k: nat, j: nat, id: nat)
    requires IsRun(states, steps) && ReservesAt(states, steps, i, id) && CommitsAt(states, steps, j, id)
    requires i < k <= j
    ensures SameCall(states[i + 1], states[k], id) && SameCall(states[k], states[j], id)
  {
    EndedCallsStayEnded(states[i], steps[i]);
    hide Enabled, Apply;
    NewCallIsCounted(states[i], steps[i]);
    CallsGrow(states, steps, i + 1, k);
    assert id in states[j].threads by { CommitIsEnabled(states[j], id, steps[j]); }
    CallThroughRun(states, steps, k, j, id);
    CallThroughRun(states, steps, i + 1, k, id);
  }

  lemma CommitIsEnabled(s: System, id: nat, step: Step)
    requires step == CommitCall(id) && Enabled(s, step)
    ensures id in s.threads
  {
  }

  lemma NewCallIsCounted(s: System, step: Step)
    requires step.Announce? && Enabled(s, step)
    ensures Apply(s, step).calls == s.calls + 1
  {
  }

  lemma ReservedBeforeCommitted(states: seq<System>, steps: seq<Step>, i: nat, j: nat, id: nat)
    requires IsRun(states, steps) && ReservesAt(states, steps, i, id) && CommitsAt(states, steps, j, id)
    ensures i < j
  {
    hide Enabled, Apply;
    CommitIsEnabled(states[j], id, steps[j]);
    RunsKeepInv(states, steps, j);
    InFlightHasEntry(states[j], id);
    if j <= i {
      CallsGrow(states, steps, j, i);
    }
  }

  /**
   * Two fetches for one UDN, or for one recorded root, that both publish have
   * disjoint reserve-to-commit intervals: the earlier reservation commits
   * before the later one is even made. So publications for a UDN occur in
   * reservation order.
   */
  lemma PublicationsInReservationOrder(
    states: seq<System>, steps: seq<Step>, ia: nat, ja: nat, a: nat, ib: nat, jb: nat, b: nat)
    requires IsRun(states, steps)
    requires ReservesAt(states, steps, ia, a) && PublishesAt(states, steps, ja, a)
    requires ReservesAt(states, steps, ib, b) && PublishesAt(states, steps, jb, b)
    requires ia < ib
    requires Rivals(EntryOf(states[ia + 1].shared.pending, a), EntryOf(states[ib + 1].shared.pending, b))
    ensures ia < ja < ib < jb
  {
    ReservedBeforeCommitted(states, steps, ia, ja, a);
    ReservedBeforeCommitted(states, steps, ib, jb, b);
    if ib < ja {
      InFlightBetween(states, steps, ia, ib, ja, a);
      InFlightBetween(states, steps, ia, ib + 1, ja, a);
      RunsKeepInv(states, steps, ib);
      hide Inv, EntryOf;
      ReservingSupersedesRivals(states[ib], steps[ib].packet, a);
      assert false;
    }
    assert ja != ib;
  }

  // ---------------------------------------------------------------------
  // Invalidation
  // ---------------------------------------------------------------------

  /** The steps that invalidate every description not yet published. */
  predicate Invalidates(step: Step) {
    step.Byebye? || step.StopBegins?
  }

  lemma StepAndEpoch(s: System, step: Step)
    requires Enabled(s, step)
    ensures var s' := Apply(s, step);
            && s'.shared.epoch == s.shared.epoch + (if Invalidates(step) then 1 else 0)
            && (s'.shared.stopping ==> s.shared.stopping || step.StopBegins?)
  {
    ReserveKeepsEpoch(s, step);
    hide Reserve, CommitRoots, RootIndex, Prune, Usable, TreeHas, Strip;
  }

  lemma ReserveKeepsEpoch(s: System, step: Step)
    ensures step.Announce? ==>
      var sh := Reserve(s.shared, s.calls, step.packet).0;
      sh.epoch == s.shared.epoch && sh.stopping == s.shared.stopping
  {
  }

  lemma {:induction false} EpochThroughRun(states: seq<System>, steps: seq<Step>, i: nat, j: nat)
    requires IsRun(states, steps) && i <= j <= |steps|
    ensures states[i].shared.epoch <= states[j].shared.epoch
    ensures states[i].shared.epoch == states[j].shared.epoch
       <==> forall k | i <= k < j :: !Invalidates(steps[k])
    ensures states[i].shared.epoch == states[j].shared.epoch && states[j].shared.stopping
       ==> states[i].shared.stopping
    decreases j
  {
    hide Apply, Enabled;
    if i < j {
      EpochThroughRun(states, steps, i, j - 1);
      StepAndEpoch(states[j - 1], steps[j - 1]);
    }
  }

  /**
   * What the publish test decides: a commit passes exactly when no later
   * reservation superseded the call and no byebye and no stop happened since
   * it was reserved.
   */
  lemma PublishesIffUndisturbed(states: seq<System>, steps: seq<Step>, i: nat, j: nat, id: nat)
    requires IsRun(states, steps) && ReservesAt(states, steps, i, id) && CommitsAt(states, steps, j, id)
    ensures id in states[j].threads
    ensures PublishesAt(states, steps, j, id)
       <==> !IsSuperseded(states[j], id) && forall k | i < k < j :: !Invalidates(steps[k])
  {
    ReservedBeforeCommitted(states, steps, i, j, id);
    InFlightBetween(states, steps, i, i + 1, j, id);
    RunsKeepInv(states, steps, i);
    ReservedEpoch(states[i], steps[i].packet);
    hide Apply, Enabled;
    EpochThroughRun(states, steps, i + 1, j);
  }

  lemma ReservedEpoch(s: System, packet: Packet)
    requires Inv(s) && s.calls in ApplyAnnounce(s, packet).threads
    ensures var s' := ApplyAnnounce(s, packet);
            s'.threads[s.calls].call.epoch == s'.shared.epoch && !s'.shared.stopping
  {
    assert s.calls !in s.threads;
    ReserveCases(s.shared, s.calls, packet);
    hide Reserve, Inv;
  }
}
