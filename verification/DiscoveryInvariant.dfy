/** What every reachable state of the discovery system satisfies. */
module DiscoveryInvariant {
  import opened Sequences
  import opened Text
  import opened DeviceTree
  import opened DeviceUpdate
  import opened Discovery
  import Ledger

  // ---------------------------------------------------------------------
  // The invariant
  // ---------------------------------------------------------------------

  /** Two entries may wait at once only for different LOCATIONs, and only one of them may publish for a UDN or a root. */
  predicate Compatible(a: Entry, b: Entry) {
    && a.id != b.id && a.location != b.location
    && (!a.superseded && !b.superseded ==> a.udn != b.udn && a.rootUdn != b.rootUdn)
  }

  ghost predicate PendingOk(pending: seq<Entry>) {
    forall i, j | 0 <= i < j < |pending| :: Compatible(pending[i], pending[j])
  }

  predicate EntryFits(e: Entry, call: Call) {
    call.packet.udn == e.udn && call.packet.location == Some(e.location)
  }

  /** The pending list holds exactly the calls in flight. */
  ghost predicate PendingIsInFlight(pending: seq<Entry>, threads: map<nat, Thread>) {
    && (forall e | e in pending :: e.id in threads && EntryFits(e, threads[e.id].call))
    && (forall id | id in threads :: EntryOf(pending, id).Some?)
  }

  predicate ThreadOk(t: Thread, epoch: nat) {
    && t.call.epoch <= epoch && t.call.packet.udn != "" && !IsBlank(t.call.packet.location)
    && (t.phase.Fetched? && t.phase.candidate.Some? ==>
          var c := t.phase.candidate.value;
          Usable(c.dev) && TreeHas(c.dev.tree, t.call.packet.udn) && c.dev.packet == t.call.packet)
  }

  ghost predicate ThreadsOk(s: System) {
    forall id | id in s.threads :: id < s.calls && ThreadOk(s.threads[id], s.shared.epoch)
  }

  ghost predicate RootsOk(roots: seq<Root>) {
    && (forall i | 0 <= i < |roots| :: !IsBlank(UdnOf(roots[i])) && !IsBlank(LocationOf(roots[i])))
    && (forall i, j | 0 <= i < j < |roots| :: UdnOf(roots[i]) != UdnOf(roots[j]))
  }

  ghost predicate ModeOk(s: System) {
    && (s.shared.stopping <==> s.mode != Up)
    && (s.mode == Down ==> s.shared.pending == [] && s.shared.roots == [])
  }

  predicate Holds(t: Thread) {
    t.phase.Fetched? && t.phase.candidate.Some?
  }

  ghost function HeldObjects(threads: map<nat, Thread>): map<nat, nat> {
    map id | id in threads && Holds(threads[id]) :: threads[id].phase.candidate.value.objectId
  }

  ghost function HeldDescriptions(threads: map<nat, Thread>): map<nat, nat> {
    map id | id in threads && Holds(threads[id]) :: threads[id].phase.candidate.value.descriptionId
  }

  /**
   * Ownership: every device object ever created is linked in the root list,
   * held by the call that fetched it, or was deleted, exactly one of these
   * and exactly once; and the same for every description tree.
   */
  ghost predicate OwnershipOk(s: System) {
    && Ledger.Conserved(Objects(s.shared.roots), HeldObjects(s.threads), s.deletedObjects, s.created)
    && Ledger.Conserved(Descriptions(s.shared.roots), HeldDescriptions(s.threads), s.deletedDescriptions, s.created)
  }

  ghost predicate Inv(s: System) {
    && PendingOk(s.shared.pending) && PendingIsInFlight(s.shared.pending, s.threads) && ThreadsOk(s)
    && RootsOk(s.shared.roots) && ModeOk(s) && OwnershipOk(s)
  }

  lemma InitialInv()
    ensures Inv(INITIAL)
  {
  }

  // ---------------------------------------------------------------------
  // The pending list
  // ---------------------------------------------------------------------

  lemma {:induction false} UnlinkIsRemoval(pending: seq<Entry>, id: nat, k: nat)
    requires PendingOk(pending) && k < |pending| && pending[k].id == id
    ensures Unlink(pending, id) == pending[..k] + pending[k + 1..]
    ensures EntryOf(pending, id) == Some(pending[k])
  {
    if k > 0 {
      assert Compatible(pending[0], pending[k]);
      assert PendingOk(pending[1..]);
      UnlinkIsRemoval(pending[1..], id, k - 1);
      assert pending[1..][..k - 1] == pending[1..k] && pending[1..][k..] == pending[k + 1..];
    }
  }

  /** Unlinking takes out the call's own entry and nothing else. */
  lemma UnlinkKeepsOthers(pending: seq<Entry>, id: nat)
    requires PendingOk(pending) && EntryOf(pending, id).Some?
    ensures PendingOk(Unlink(pending, id)) && |Unlink(pending, id)| == |pending| - 1
    ensures forall e :: e in Unlink(pending, id) <==> e in pending && e.id != id
    ensures forall other | other != id :: EntryOf(Unlink(pending, id), other) == EntryOf(pending, other)
  {
    var k :| 0 <= k < |pending| && pending[k] == EntryOf(pending, id).value;
    UnlinkIsRemoval(pending, id, k);
    RemovalKeepsOthers(pending, k);
    forall other | other != id ensures EntryOf(Unlink(pending, id), other) == EntryOf(pending, other) {
      EntryOfUnlink(pending, id, other);
    }
  }

  lemma RemovalKeepsOthers(pending: seq<Entry>, k: nat)
    requires PendingOk(pending) && k < |pending|
    ensures var rest := pending[..k] + pending[k + 1..];
            PendingOk(rest) && forall e :: e in rest <==> e in pending && e.id != pending[k].id
  {
    WithoutAt(pending, k);
    OthersAreKept(pending, pending[..k] + pending[k + 1..], k);
  }

  lemma OthersAreKept(pending: seq<Entry>, rest: seq<Entry>, k: nat)
    requires PendingOk(pending) && k < |pending| && |rest| == |pending| - 1
    requires forall i | 0 <= i < |rest| :: rest[i] == pending[if i < k then i else i + 1]
    ensures PendingOk(rest) && forall e :: e in rest <==> e in pending && e.id != pending[k].id
  {
    forall e | e in pending && e.id != pending[k].id ensures e in rest {
      var i :| 0 <= i < |pending| && pending[i] == e;
      assert e == rest[if i < k then i else i - 1];
    }
    forall e | e in rest ensures e in pending && e.id != pending[k].id {
      var i :| 0 <= i < |rest| && rest[i] == e;
      assert if i < k then Compatible(pending[i], pending[k]) else Compatible(pending[k], pending[i + 1]);
    }
  }

  lemma {:induction false} EntryOfUnlink(pending: seq<Entry>, id: nat, other: nat)
    requires other != id
    ensures EntryOf(Unlink(pending, id), other) == EntryOf(pending, other)
  {
    if pending != [] && pending[0].id != id {
      EntryOfUnlink(pending[1..], id, other);
    }
  }

  /** An entry seen again later: the same reservation, possibly superseded meanwhile. */
  predicate Later(before: Entry, after: Entry) {
    after == before || after == before.(superseded := true)
  }

  /** A list of the same reservations, some of them superseded meanwhile. */
  ghost predicate SameReservations(before: seq<Entry>, after: seq<Entry>) {
    && |before| == |after|
    && forall i | 0 <= i < |before| :: Later(before[i], after[i])
  }

  lemma {:induction false} SameReservationsSameEntries(before: seq<Entry>, after: seq<Entry>, id: nat)
    requires SameReservations(before, after)
    ensures EntryOf(before, id).Some? <==> EntryOf(after, id).Some?
    ensures EntryOf(before, id).Some? ==> Later(EntryOf(before, id).value, EntryOf(after, id).value)
  {
    if before != [] {
      assert SameReservations(before[1..], after[1..]);
      SameReservationsSameEntries(before[1..], after[1..], id);
    }
  }

  // ---------------------------------------------------------------------
  // What the regions do, case by case
  // ---------------------------------------------------------------------

  ghost predicate Refreshes(sh: Shared, sh': Shared, packet: Packet, i: nat) {
    && i < |sh.roots| && StrEq(LocationOf(sh.roots[i]), packet.location)
    && sh' == sh.(roots := sh.roots[i := sh.roots[i].(dev := sh.roots[i].dev.(packet := packet))])
  }

  /** `entry` was put in front of the scanned list, in which everything it supersedes is marked. */
  ghost predicate Enqueues(sh: Shared, sh': Shared, entry: Entry, scanned: seq<Entry>) {
    && sh' == sh.(pending := [entry] + scanned) && SameReservations(sh.pending, scanned)
    && !entry.superseded
    && (forall e | e in scanned :: e.location != entry.location)
    && (forall e | e in scanned && Supersedes(entry.udn, entry.rootUdn, e) :: e.superseded)
  }

  /** The LOCATION of the root that an announced UDN belongs to, if one is cached. */
  function CachedLocation(roots: seq<Root>, udn: string): CString {
    match RootIndex(roots, udn)
    case None => None
    case Some(i) => LocationOf(roots[i])
  }

  lemma ReserveCases(sh: Shared, id: nat, packet: Packet)
    ensures var (sh', reservation) := Reserve(sh, id, packet);
            match reservation
            case Ignored => sh' == sh
            case Rejected => sh' == sh
            case Refreshed => exists i :: Refreshes(sh, sh', packet, i)
            case Joined => sh' == sh.(pending := sh'.pending) && SameReservations(sh.pending, sh'.pending)
            case Reserved(call) =>
              && !sh.stopping && packet.location.Some? && !IsBlank(packet.location)
              && call == Call(packet, sh.epoch, CachedLocation(sh.roots, packet.udn)) && packet.udn != ""
              && sh'.pending != [] && EntryFits(sh'.pending[0], call) && sh'.pending[0].id == id
              && Enqueues(sh, sh', sh'.pending[0], sh'.pending[1..])
  {
    var (sh', reservation) := Reserve(sh, id, packet);
    if reservation.Refreshed? {
      assert Refreshes(sh, sh', packet, RootIndex(sh.roots, packet.udn).value);
    } else if reservation.Reserved? {
      var found := RootIndex(sh.roots, packet.udn);
      var rootUdn := if found.Some? then OrEmpty(UdnOf(sh.roots[found.value])) else packet.udn;
      var scanned := Scan(sh.pending, packet.udn, rootUdn, packet.location.value).0;
      assert sh'.pending[1..] == scanned;
      forall e | e in scanned
        ensures e.location != packet.location.value && (Supersedes(packet.udn, rootUdn, e) ==> e.superseded)
      {
        var i :| 0 <= i < |scanned| && scanned[i] == e;
      }
    }
  }

  // ---------------------------------------------------------------------
  // Steps keep the invariant
  // ---------------------------------------------------------------------

  lemma SameReservationsKeepPending(before: seq<Entry>, after: seq<Entry>)
    requires PendingOk(before) && SameReservations(before, after)
    ensures PendingOk(after)
  {
    forall i, j | 0 <= i < j < |after| ensures Compatible(after[i], after[j]) {
      assert Compatible(before[i], before[j]);
    }
  }

  lemma SameReservationsKeepInFlight(before: seq<Entry>, after: seq<Entry>, threads: map<nat, Thread>)
    requires PendingIsInFlight(before, threads) && SameReservations(before, after)
    ensures PendingIsInFlight(after, threads)
  {
    forall e | e in after ensures e.id in threads && EntryFits(e, threads[e.id].call) {
      var i :| 0 <= i < |after| && after[i] == e;
      assert before[i] in before;
    }
    forall id | id in threads ensures EntryOf(after, id).Some? {
      SameReservationsSameEntries(before, after, id);
    }
  }

  lemma EnqueueingKeepsInFlight(entry: Entry, scanned: seq<Entry>, threads: map<nat, Thread>, call: Call)
    requires PendingIsInFlight(scanned, threads) && entry.id !in threads && EntryFits(entry, call)
    ensures PendingIsInFlight([entry] + scanned, threads[entry.id := Thread(call, Fetching)])
  {
    var pending, threads' := [entry] + scanned, threads[entry.id := Thread(call, Fetching)];
    assert pending[1..] == scanned;
  }

  lemma UnlinkingKeepsInFlight(pending: seq<Entry>, threads: map<nat, Thread>, id: nat)
    requires PendingOk(pending) && PendingIsInFlight(pending, threads) && id in threads
    ensures PendingOk(Unlink(pending, id)) && PendingIsInFlight(Unlink(pending, id), threads - {id})
  {
    UnlinkKeepsOthers(pending, id);
    var rest, threads' := Unlink(pending, id), threads - {id};
    hide PendingOk, Unlink, EntryOf, Compatible;
    forall e | e in rest ensures e.id in threads' && EntryFits(e, threads'[e.id].call) {
      assert e in pending;
    }
    forall other | other in threads' ensures EntryOf(rest, other).Some? {
      assert EntryOf(pending, other).Some?;
    }
  }

  lemma ReceivingKeepsInFlight(pending: seq<Entry>, threads: map<nat, Thread>, id: nat, phase: Phase)
    requires PendingIsInFlight(pending, threads) && id in threads
    ensures PendingIsInFlight(pending, threads[id := threads[id].(phase := phase)])
  {
    hide EntryOf, EntryFits;
  }

  lemma EnqueueingKeepsPending(entry: Entry, scanned: seq<Entry>)
    requires PendingOk(scanned) && !entry.superseded
    requires forall e | e in scanned :: e.id != entry.id && e.location != entry.location
    requires forall e | e in scanned && Supersedes(entry.udn, entry.rootUdn, e) :: e.superseded
    ensures PendingOk([entry] + scanned)
  {
    var pending := [entry] + scanned;
    forall i, j | 0 <= i < j < |pending| ensures Compatible(pending[i], pending[j]) {
      assert pending[j] == scanned[j - 1] && pending[j] in scanned;
      assert i > 0 ==> Compatible(scanned[i - 1], scanned[j - 1]);
    }
  }

  lemma AnnounceKeepsPending(s: System, packet: Packet)
    requires PendingOk(s.shared.pending) && PendingIsInFlight(s.shared.pending, s.threads) && ThreadsOk(s)
    ensures var s' := ApplyAnnounce(s, packet);
            PendingOk(s'.shared.pending) && PendingIsInFlight(s'.shared.pending, s'.threads)
  {
    var (sh', reservation) := Reserve(s.shared, s.calls, packet);
    ReserveCases(s.shared, s.calls, packet);
    hide Reserve, PendingOk;
    if reservation.Joined? {
      SameReservationsKeepPending(s.shared.pending, sh'.pending);
      SameReservationsKeepInFlight(s.shared.pending, sh'.pending, s.threads);
    } else if reservation.Reserved? {
      var entry, scanned := sh'.pending[0], sh'.pending[1..];
      SameReservationsKeepPending(s.shared.pending, scanned);
      SameReservationsKeepInFlight(s.shared.pending, scanned, s.threads);
      EnqueueingKeepsPending(entry, scanned);
      EnqueueingKeepsInFlight(entry, scanned, s.threads, reservation.call);
    }
  }

  lemma HeldAfterReserving(threads: map<nat, Thread>, id: nat, call: Call)
    requires id !in threads
    ensures HeldObjects(threads[id := Thread(call, Fetching)]) == HeldObjects(threads)
    ensures HeldDescriptions(threads[id := Thread(call, Fetching)]) == HeldDescriptions(threads)
  {
  }

  lemma AnnounceKeepsThreads(s: System, packet: Packet)
    requires ThreadsOk(s)
    ensures ThreadsOk(ApplyAnnounce(s, packet))
  {
    ReserveCases(s.shared, s.calls, packet);
    hide Reserve, Enqueues, SameReservations, TreeHas, Usable;
  }

  lemma CallsAreCounted(s: System)
    requires ThreadsOk(s)
    ensures s.calls !in s.threads
  {
  }

  lemma AnnounceKeepsInv(s: System, packet: Packet)
    requires Inv(s)
    ensures Inv(ApplyAnnounce(s, packet))
  {
    hide Reserve, PendingOk, ThreadsOk, PendingIsInFlight, Ledger.Conserved, HeldObjects, HeldDescriptions;
    hide SameReservations, Enqueues, TreeHas, Usable, CachedLocation;
    var (sh', reservation) := Reserve(s.shared, s.calls, packet);
    AnnounceKeepsPending(s, packet);
    AnnounceKeepsThreads(s, packet);
    ReserveCases(s.shared, s.calls, packet);
    if reservation.Refreshed? {
      var i :| Refreshes(s.shared, sh', packet, i);
      assert Objects(sh'.roots) == Objects(s.shared.roots) && Descriptions(sh'.roots) == Descriptions(s.shared.roots);
    } else if reservation.Reserved? {
      CallsAreCounted(s);
      HeldAfterReserving(s.threads, s.calls, reservation.call);
    }
  }

  lemma HeldAfterReceiving(threads: map<nat, Thread>, id: nat, candidate: Option<Root>)
    requires id in threads && threads[id].phase.Fetching?
    ensures var threads' := threads[id := threads[id].(phase := Fetched(candidate))];
            && id !in HeldObjects(threads) && id !in HeldDescriptions(threads)
            && HeldObjects(threads') == (if candidate.Some? then HeldObjects(threads)[id := candidate.value.objectId]
                                         else HeldObjects(threads))
            && HeldDescriptions(threads') == (if candidate.Some? then HeldDescriptions(threads)[id := candidate.value.descriptionId]
                                              else HeldDescriptions(threads))
  {
  }

  lemma ReceiveKeepsOwnership(s: System, id: nat, response: Option<Cached>)
    requires OwnershipOk(s) && Enabled(s, Receive(id, response))
    ensures OwnershipOk(ApplyReceive(s, id, response))
  {
    hide Ledger.Conserved, HeldObjects, HeldDescriptions, Objects, Descriptions, TreeHas, Usable;
    var s' := ApplyReceive(s, id, response);
    HeldAfterReceiving(s.threads, id, s'.threads[id].phase.candidate);
    Ledger.Creating(Objects(s.shared.roots), HeldObjects(s.threads), s.deletedObjects, s.created, id);
    Ledger.Creating(Descriptions(s.shared.roots), HeldDescriptions(s.threads), s.deletedDescriptions, s.created, id);
  }

  lemma ReceiveKeepsThreads(s: System, id: nat, response: Option<Cached>)
    requires ThreadsOk(s) && Enabled(s, Receive(id, response))
    ensures ThreadsOk(ApplyReceive(s, id, response))
  {
    hide TreeHas;
  }

  lemma ReceiveKeepsInv(s: System, id: nat, response: Option<Cached>)
    requires Inv(s) && Enabled(s, Receive(id, response))
    ensures Inv(ApplyReceive(s, id, response))
  {
    hide OwnershipOk, RootsOk, PendingOk, PendingIsInFlight, ThreadsOk, TreeHas;
    ReceiveKeepsOwnership(s, id, response);
    ReceivingKeepsInFlight(s.shared.pending, s.threads, id, ApplyReceive(s, id, response).threads[id].phase);
    ReceiveKeepsThreads(s, id, response);
  }

  /** The four ways a commit can treat the root list. */
  datatype CommitCase = Unchanged | Appended | InPlace(index: nat)

  ghost function CaseOf(roots: seq<Root>, call: Call, candidate: Option<Root>): CommitCase {
    var found := RootIndex(roots, call.packet.udn);
    if candidate.None? then Unchanged
    else if found.Some? then
      if StrEq(call.cachedLocation, LocationOf(roots[found.value])) then InPlace(found.value) else Unchanged
    else if RootIndex(roots, OrEmpty(UdnOf(candidate.value))).None? then Appended
    else Unchanged
  }

  /** What each case means for the list, and that nothing else can happen to it. */
  lemma CommitRootsCases(roots: seq<Root>, call: Call, candidate: Option<Root>)
    requires candidate.Some? ==> Usable(candidate.value.dev)
    ensures var (roots', outcome) := CommitRoots(roots, call, candidate);
            match CaseOf(roots, call, candidate)
            case Unchanged => roots' == roots && outcome.leftover == candidate && outcome.status != Added
            case Appended =>
              && candidate.Some? && outcome == Outcome(true, Added, None) && roots' == roots + [candidate.value]
              && (forall r | r in roots :: !TreeHas(r.dev.tree, call.packet.udn))
              && (forall r | r in roots :: !TreeHas(r.dev.tree, OrEmpty(UdnOf(candidate.value))))
              && forall i | 0 <= i < |roots| :: UdnOf(roots[i]) != UdnOf(candidate.value)
            case InPlace(i) =>
              && candidate.Some? && i < |roots|
              && StrEq(call.cachedLocation, LocationOf(roots[i])) && TreeHas(roots[i].dev.tree, call.packet.udn)
              && roots' == roots[i := UpdateRoot(roots[i], candidate.value, call.packet).0]
              && outcome == Outcome(true, Updated, Some(UpdateRoot(roots[i], candidate.value, call.packet).1))
  {
    if candidate.Some? {
      var udn := OrEmpty(UdnOf(candidate.value));
      if RootIndex(roots, udn).None? {
        forall i | 0 <= i < |roots| ensures UdnOf(roots[i]) != UdnOf(candidate.value) {
          assert !TreeHas(roots[i].dev.tree, udn);
        }
      }
    }
  }

  /** An update keeps the object and its UDN; the two description trees change hands or stay. */
  lemma UpdateRootIdentity(r: Root, candidate: Root, packet: Packet)
    ensures var (r', rest) := UpdateRoot(r, candidate, packet);
            && r'.objectId == r.objectId && rest.objectId == candidate.objectId && UdnOf(r') == UdnOf(r)
            && (r'.dev.packet == r.dev.packet || r'.dev.packet == packet)
            && (|| (r'.descriptionId == r.descriptionId && rest.descriptionId == candidate.descriptionId)
                || (r'.descriptionId == candidate.descriptionId && rest.descriptionId == r.descriptionId))
  {
  }

  lemma CommitKeepsRoots(roots: seq<Root>, call: Call, candidate: Option<Root>)
    requires RootsOk(roots) && !IsBlank(call.packet.location)
    requires candidate.Some? ==> Usable(candidate.value.dev) && candidate.value.dev.packet == call.packet
    ensures RootsOk(CommitRoots(roots, call, candidate).0)
  {
    CommitRootsCases(roots, call, candidate);
    match CaseOf(roots, call, candidate)
    case Unchanged =>
    case Appended =>
    case InPlace(i) =>
      UpdateRootIdentity(roots[i], candidate.value, call.packet);
      hide CommitRoots, UpdateRoot, CaseOf, TreeHas;
  }

  lemma HeldAfterCommitting(threads: map<nat, Thread>, id: nat)
    requires id in threads
    ensures HeldObjects(threads - {id}) == Ledger.Without(HeldObjects(threads), id)
    ensures HeldDescriptions(threads - {id}) == Ledger.Without(HeldDescriptions(threads), id)
    ensures Holds(threads[id]) ==>
      && id in HeldObjects(threads) && HeldObjects(threads)[id] == threads[id].phase.candidate.value.objectId
      && id in HeldDescriptions(threads) && HeldDescriptions(threads)[id] == threads[id].phase.candidate.value.descriptionId
    ensures !Holds(threads[id]) ==>
      && Ledger.Without(HeldObjects(threads), id) == HeldObjects(threads)
      && Ledger.Without(HeldDescriptions(threads), id) == HeldDescriptions(threads)
  {
  }

  /** Root `i` took over the candidate's object or only its description; the rest is left over. */
  predicate ReplacedAt(roots: seq<Root>, roots': seq<Root>, c: Root, leftover: Root, i: nat) {
    && i < |roots| && |roots'| == |roots| && roots' == roots[i := roots'[i]]
    && roots'[i].objectId == roots[i].objectId && leftover.objectId == c.objectId
    && (|| (roots'[i].descriptionId == roots[i].descriptionId && leftover.descriptionId == c.descriptionId)
        || (roots'[i].descriptionId == c.descriptionId && leftover.descriptionId == roots[i].descriptionId))
  }

  /** Committing a candidate moves it from the call to the root list or to the deleted, and a replaced description with it. */
  lemma CommittedOwnership(s: System, id: nat, roots': seq<Root>, leftover: Option<Root>)
    requires OwnershipOk(s) && id in s.threads && Holds(s.threads[id])
    requires var roots, c := s.shared.roots, s.threads[id].phase.candidate.value;
             || (roots' == roots && leftover == Some(c))
             || (roots' == roots + [c] && leftover.None?)
             || (leftover.Some? && exists i: nat :: ReplacedAt(roots, roots', c, leftover.value, i))
    ensures var s' := Deleting(s.(shared := s.shared.(roots := roots'), threads := s.threads - {id}), leftover);
            OwnershipOk(s')
  {
    var roots, c := s.shared.roots, s.threads[id].phase.candidate.value;
    var heldO: map<nat, nat>, heldD: map<nat, nat> := HeldObjects(s.threads), HeldDescriptions(s.threads);
    HeldAfterCommitting(s.threads, id);
    var objects, descriptions := Objects(roots), Descriptions(roots);
    if leftover.None? {
      Ledger.Linking(objects, heldO, s.deletedObjects, s.created, id);
      Ledger.Linking(descriptions, heldD, s.deletedDescriptions, s.created, id);
      assert Objects(roots') == objects + [c.objectId] && Descriptions(roots') == descriptions + [c.descriptionId];
    } else {
      Ledger.DeletingHeld(objects, heldO, s.deletedObjects, s.created, id);
      Ledger.DeletingHeld(descriptions, heldD, s.deletedDescriptions, s.created, id);
      hide Ledger.Conserved, HeldObjects, HeldDescriptions;
      assert Objects(roots') == objects;
      if Descriptions(roots') == descriptions && leftover.value.descriptionId == c.descriptionId {
      } else {
        var i: nat :| ReplacedAt(roots, roots', c, leftover.value, i);
        Ledger.Replacing(descriptions, heldD, s.deletedDescriptions, s.created, id, i);
        assert Descriptions(roots') == descriptions[i := c.descriptionId];
      }
    }
  }

  lemma CommitKeepsOwnership(s: System, id: nat)
    requires OwnershipOk(s) && ThreadsOk(s) && Enabled(s, CommitCall(id))
    ensures OwnershipOk(ApplyCommit(s, id))
  {
    var t := s.threads[id];
    var (sh, outcome) := CommitResult(s, id);
    if t.phase.candidate.Some? {
      var roots := s.shared.roots;
      CommitRootsCases(roots, t.call, t.phase.candidate);
      var kind := CaseOf(roots, t.call, t.phase.candidate);
      if kind.InPlace? {
        UpdateRootIdentity(roots[kind.index], t.phase.candidate.value, t.call.packet);
        assert ReplacedAt(roots, sh.roots, t.phase.candidate.value, outcome.leftover.value, kind.index);
      }
      hide CommitRoots, UpdateRoot, CaseOf, HeldObjects, HeldDescriptions, Ledger.Conserved, Objects, Descriptions;
      CommittedOwnership(s, id, sh.roots, outcome.leftover);
    } else {
      HeldAfterCommitting(s.threads, id);
      hide HeldObjects, HeldDescriptions, Ledger.Conserved, Objects, Descriptions;
    }
  }

  lemma CommitKeepsInv(s: System, id: nat)
    requires Inv(s) && Enabled(s, CommitCall(id))
    ensures Inv(ApplyCommit(s, id))
  {
    CommitKeepsOwnership(s, id);
    UnlinkingKeepsInFlight(s.shared.pending, s.threads, id);
    CommitKeepsRoots(s.shared.roots, s.threads[id].call, s.threads[id].phase.candidate);
    hide OwnershipOk, RootsOk, PendingOk, PendingIsInFlight, CommitRoots, Unlink, TreeHas, EntryOf;
  }

  lemma RemovedAt(roots: seq<Root>, i: nat)
    requires i < |roots|
    ensures var roots' := roots[..i] + roots[i + 1..];
            && (RootsOk(roots) ==> RootsOk(roots'))
            && Objects(roots') == Objects(roots)[..i] + Objects(roots)[i + 1..]
            && Descriptions(roots') == Descriptions(roots)[..i] + Descriptions(roots)[i + 1..]
  {
    var roots' := roots[..i] + roots[i + 1..];
    assert forall k | 0 <= k < |roots'| :: roots'[k] == if k < i then roots[k] else roots[k + 1];
  }

  lemma ByebyeKeepsOwnership(s: System, udn: string)
    requires OwnershipOk(s)
    ensures OwnershipOk(Apply(s, Byebye(udn)))
  {
    hide Ledger.Conserved, HeldObjects, HeldDescriptions, RootIndex, RootsOk, TreeHas, Objects, Descriptions, Prune;
    var s' := Apply(s, Byebye(udn));
    var roots := s.shared.roots;
    var found := RootIndex(roots, udn);
    if found.Some? && StrEq(UdnOf(roots[found.value]), Some(udn)) {
      RemovedAt(roots, found.value);
      Ledger.DeletingLinked(Objects(roots), HeldObjects(s.threads), s.deletedObjects, s.created, found.value);
      Ledger.DeletingLinked(Descriptions(roots), HeldDescriptions(s.threads), s.deletedDescriptions, s.created, found.value);
    } else if found.Some? {
      assert Objects(s'.shared.roots) == Objects(roots) && Descriptions(s'.shared.roots) == Descriptions(roots);
    }
  }

  lemma ByebyeKeepsInv(s: System, udn: string)
    requires Inv(s)
    ensures Inv(Apply(s, Byebye(udn)))
  {
    hide OwnershipOk, PendingOk, PendingIsInFlight, RootIndex, TreeHas, Objects, Descriptions, Prune;
    ByebyeKeepsOwnership(s, udn);
    var found := RootIndex(s.shared.roots, udn);
    if found.Some? {
      RemovedAt(s.shared.roots, found.value);
    }
  }

  lemma StopEndsKeepsInv(s: System)
    requires Inv(s) && Enabled(s, StopEnds)
    ensures Inv(Apply(s, StopEnds))
  {
    Ledger.DeletingAllLinked(Objects(s.shared.roots), HeldObjects(s.threads), s.deletedObjects, s.created);
    Ledger.DeletingAllLinked(Descriptions(s.shared.roots), HeldDescriptions(s.threads), s.deletedDescriptions, s.created);
    assert Objects([]) == [] && Descriptions([]) == [];
  }

  lemma SubscriptionChangeKeepsInv(s: System, i: nat, tree: Device)
    requires Inv(s) && Enabled(s, SubscriptionChange(i, tree))
    ensures Inv(Apply(s, SubscriptionChange(i, tree)))
  {
    var s' := Apply(s, SubscriptionChange(i, tree));
    assert tree.node == Strip(tree).node == s.shared.roots[i].dev.tree.node;
    hide Ledger.Conserved, HeldObjects, HeldDescriptions, PendingOk;
    assert Objects(s'.shared.roots) == Objects(s.shared.roots);
    assert Descriptions(s'.shared.roots) == Descriptions(s.shared.roots);
  }

  lemma StepKeepsInv(s: System, step: Step)
    requires Inv(s) && Enabled(s, step)
    ensures Inv(Apply(s, step))
  {
    match step
    case Announce(packet) => AnnounceKeepsInv(s, packet);
    case Receive(id, response) => ReceiveKeepsInv(s, id, response);
    case CommitCall(id) => CommitKeepsInv(s, id);
    case Byebye(udn) => ByebyeKeepsInv(s, udn);
    case StopBegins =>
    case StopEnds => StopEndsKeepsInv(s);
    case Start =>
    case SubscriptionChange(i, tree) => SubscriptionChangeKeepsInv(s, i, tree);
  }
}
