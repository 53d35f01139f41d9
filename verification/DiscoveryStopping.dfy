/** What stopping the control point guarantees. */
module DiscoveryStopping {
  import opened Sequences
  import opened Text
  import opened DeviceTree
  import opened DeviceUpdate
  import opened Discovery
  import opened DiscoveryInvariant
  import opened DiscoveryRuns

  // ---------------------------------------------------------------------
  // Draining
  // ---------------------------------------------------------------------

  /** While stopping, nothing joins the pending list, and each commit takes exactly its own entry out. */
  lemma StoppingDrains(s: System, step: Step)
    requires Inv(s) && Enabled(s, step)
    ensures var pending, pending' := s.shared.pending, Apply(s, step).shared.pending;
            && (s.shared.stopping && !step.CommitCall? ==> pending' == pending)
            && (step.CommitCall? ==>
                  && |pending'| == |pending| - 1
                  && forall e :: e in pending' <==> e in pending && e.id != step.id)
  {
    match step
    case Announce(packet) =>
      hide Inv, Scan, RootIndex, Enabled;
      assert s.shared.stopping ==> ApplyAnnounce(s, packet).shared.pending == s.shared.pending;
    case CommitCall(id) =>
      hide Apply, PendingOk, OwnershipOk, RootsOk, Unlink, EntryOf;
      InFlightHasEntry(s, id);
      UnlinkKeepsOthers(s.shared.pending, id);
      CommitUnlinks(s, id);
    case _ =>
      hide Inv, Apply;
      OtherStepsKeepPending(s, step);
  }

  lemma CommitUnlinks(s: System, id: nat)
    requires Enabled(s, CommitCall(id))
    ensures Apply(s, CommitCall(id)).shared.pending == Unlink(s.shared.pending, id)
  {
    hide CommitRoots, Unlink, PublishTest, IsSuperseded;
  }

  /** With no entry pending there is no call in flight. */
  lemma NoEntryNoCall(s: System)
    requires Inv(s) && s.shared.pending == []
    ensures s.threads == map[]
  {
    forall id | id in s.threads ensures false {
      InFlightHasEntry(s, id);
    }
  }

  /** The steps that the calls in flight take on their own. */
  predicate IsCallStep(step: Step) {
    step.Receive? || step.CommitCall?
  }

  ghost function Downloading(threads: map<nat, Thread>): set<nat> {
    set id | id in threads && threads[id].phase.Fetching?
  }

  /** What the calls in flight still have to do: a download and a commit, or only a commit. */
  ghost function Work(s: System): nat {
    |s.threads.Keys| + |Downloading(s.threads)|
  }

  lemma ReceivingWorks(threads: map<nat, Thread>, id: nat, phase: Phase)
    requires id in threads && threads[id].phase.Fetching? && phase.Fetched?
    ensures var threads' := threads[id := threads[id].(phase := phase)];
            threads'.Keys == threads.Keys && |Downloading(threads')| == |Downloading(threads)| - 1
  {
    var threads' := threads[id := threads[id].(phase := phase)];
    assert Downloading(threads') == Downloading(threads) - {id};
  }

  lemma CommittingWorks(threads: map<nat, Thread>, id: nat)
    requires id in threads && threads[id].phase.Fetched?
    ensures |(threads - {id}).Keys| == |threads.Keys| - 1 && Downloading(threads - {id}) == Downloading(threads)
  {
    assert (threads - {id}).Keys == threads.Keys - {id};
  }

  /** While stopping, only the calls in flight change what is in flight. */
  lemma OthersDoNoWork(s: System, step: Step)
    requires ModeOk(s) && Enabled(s, step) && s.mode == Draining && !step.StopEnds? && !IsCallStep(step)
    ensures Apply(s, step).threads == s.threads && Apply(s, step).mode == Draining
  {
    hide RootIndex, Scan, Prune, Strip, TreeHas;
  }

  /** While stopping, every step of a call does one unit of work, and no other step makes any. */
  lemma StepAndWork(s: System, step: Step)
    requires ModeOk(s) && Enabled(s, step) && s.mode == Draining && !step.StopEnds?
    ensures Apply(s, step).mode == Draining
    ensures Work(Apply(s, step)) + (if IsCallStep(step) then 1 else 0) == Work(s)
  {
    hide Downloading, TreeHas, Usable, ApplyAnnounce, Commit, Remove;
    match step
    case Receive(id, response) => ReceivingWorks(s.threads, id, Apply(s, step).threads[id].phase);
    case CommitCall(id) => CommittingWorks(s.threads, id);
    case _ => OthersDoNoWork(s, step);
  }

  /** These steps lead from one state to the other without ending the stop. */
  ghost predicate Drains(s: System, steps: seq<Step>, s': System)
    decreases |steps|
  {
    if steps == [] then s' == s
    else Enabled(s, steps[0]) && !steps[0].StopEnds? && Drains(Apply(s, steps[0]), steps[1..], s')
  }

  function CallSteps(steps: seq<Step>): nat {
    if steps == [] then 0 else (if IsCallStep(steps[0]) then 1 else 0) + CallSteps(steps[1..])
  }

  lemma StopCanEndIff(s: System)
    requires Inv(s) && s.mode == Draining
    ensures Enabled(s, StopEnds) <==> Work(s) == 0
  {
    if s.shared.pending == [] {
      NoEntryNoCall(s);
      assert s.threads.Keys == {} && Downloading(s.threads) == {};
    } else {
      assert s.shared.pending[0].id in s.threads.Keys;
    }
  }

  /**
   * The measure of the wait loop: however a stop is interleaved with other
   * steps, it can end exactly when the calls that were in flight have done
   * the work they had left, each step of theirs counting for one.
   */
  lemma {:induction false} WaitEndsAfterWork(s: System, steps: seq<Step>, s': System)
    requires Inv(s) && s.mode == Draining && Drains(s, steps, s')
    ensures Inv(s') && s'.mode == Draining && CallSteps(steps) + Work(s') == Work(s)
    ensures Enabled(s', StopEnds) <==> CallSteps(steps) == Work(s)
    decreases |steps|
  {
    assert ModeOk(s);
    hide Inv, Enabled, Apply, Work;
    if steps == [] {
      StopCanEndIff(s);
    } else {
      StepKeepsInv(s, steps[0]);
      StepAndWork(s, steps[0]);
      WaitEndsAfterWork(Apply(s, steps[0]), steps[1..], s');
    }
  }

  lemma WorkNeedsCalls(s: System)
    ensures Work(s) > 0 ==> s.threads.Keys != {}
  {
    assert Downloading(s.threads) <= s.threads.Keys;
  }

  /** And as long as some work is left, some call can do a unit of it, provided its download returns. */
  lemma WorkCanBeDone(s: System) returns (id: nat)
    requires Inv(s) && s.mode == Draining && Work(s) > 0
    ensures id in s.threads
    ensures if s.threads[id].phase.Fetching? then forall r: Option<Cached> | r.Some? ==> Usable(r.value) :: Enabled(s, Receive(id, r))
            else Enabled(s, CommitCall(id))
  {
    WorkNeedsCalls(s);
    id :| id in s.threads.Keys;
  }

  /** So, if every download returns, with whatever result, the stop can reach its end. */
  lemma {:induction false} StopCanBeReached(s: System) returns (steps: seq<Step>, s': System)
    requires Inv(s) && s.mode == Draining
    ensures Drains(s, steps, s') && |steps| == Work(s) && Enabled(s', StopEnds)
    decreases Work(s)
  {
    assert ModeOk(s);
    hide Inv, Enabled, Apply, Work;
    if Work(s) == 0 {
      StopCanEndIff(s);
      steps, s' := [], s;
    } else {
      var id := WorkCanBeDone(s);
      var step := if s.threads[id].phase.Fetching? then Receive(id, None) else CommitCall(id);
      StepKeepsInv(s, step);
      StepAndWork(s, step);
      var rest;
      rest, s' := StopCanBeReached(Apply(s, step));
      steps := [step] + rest;
      assert steps[1..] == rest;
    }
  }

  // ---------------------------------------------------------------------
  // Stopped
  // ---------------------------------------------------------------------

  ghost predicate Quiet(s: System) {
    s.shared.stopping && s.shared.roots == [] && s.shared.pending == [] && s.threads == map[]
  }

  lemma QuietStaysQuiet(s: System, step: Step)
    requires Quiet(s) && Enabled(s, step) && !step.Start?
    ensures Quiet(Apply(s, step))
  {
  }

  /**
   * When the stop clears the list no fetch is in flight, and from then until
   * the next start the cache and the pending list stay empty.
   */
  lemma {:induction false} StoppedStaysEmpty(states: seq<System>, steps: seq<Step>, i: nat, j: nat)
    requires IsRun(states, steps) && i < j <= |steps|
    requires steps[i].StopEnds? && forall k | i < k < j :: !steps[k].Start?
    ensures states[i].threads == map[] && Quiet(states[j])
    decreases j
  {
    RunsKeepInv(states, steps, i);
    NoEntryNoCall(states[i]);
    if i + 1 == j {
    } else {
      hide Inv, Quiet, Enabled, Apply;
      StoppedStaysEmpty(states, steps, i, j - 1);
      QuietStaysQuiet(states[j - 1], steps[j - 1]);
    }
  }

  /** And nothing leaked: every object and every description ever created has been deleted, once. */
  lemma StoppedHasFreedEverything(states: seq<System>, steps: seq<Step>, i: nat, j: nat, id: nat)
    requires IsRun(states, steps) && i < j <= |steps|
    requires steps[i].StopEnds? && forall k | i < k < j :: !steps[k].Start?
    ensures Distinct(states[j].deletedObjects) && Distinct(states[j].deletedDescriptions)
    ensures id in states[j].deletedObjects <==> id < states[j].created
    ensures id in states[j].deletedDescriptions <==> id < states[j].created
  {
    RunsKeepInv(states, steps, j);
    StoppedStaysEmpty(states, steps, i, j);
    hide PendingOk, ThreadsOk, RootsOk, PendingIsInFlight, Enabled, Apply;
    assert HeldObjects(states[j].threads) == map[] && HeldDescriptions(states[j].threads) == map[];
    assert Objects(states[j].shared.roots) == [] && Descriptions(states[j].shared.roots) == [];
  }
}
