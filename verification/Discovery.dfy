/**
 * The control point's discovery cache as a transition system.
 *
 * An SSDP announcement reserves a fetch under the lock, downloads a
 * description without it, and revalidates and commits under the lock again.
 * Each region that holds the lock is one function here; everything that can
 * happen between two regions (other announcements, byebye, stop, restart,
 * subscription changes) is another step of the system.
 */
module Discovery {
  import opened Sequences
  import opened Text
  import opened DeviceTree
  import opened DeviceUpdate

  // ---------------------------------------------------------------------
  // Shared state
  // ---------------------------------------------------------------------

  /** A root device object: its identity, the identity of the description tree it holds, and what it says. */
  datatype Root = Root(objectId: nat, descriptionId: nat, dev: Cached)

  /** A `mUpnpControlPointFetch` of the pending list. */
  datatype Entry = Entry(id: nat, udn: string, rootUdn: string, location: string, superseded: bool)

  /** The fields that the control point's mutex protects. */
  datatype Shared = Shared(roots: seq<Root>, pending: seq<Entry>, epoch: nat, stopping: bool)

  /** The locals of a fetch that survive the unlocked interval. */
  datatype Call = Call(packet: Packet, epoch: nat, cachedLocation: CString)

  datatype Status = Added | Updated | Invalid

  predicate TreeHas(d: Device, udn: string) {
    FindByUdn(d, Some(udn)).Some?
  }

  function LocationOf(r: Root): CString {
    r.dev.packet.location
  }

  function UdnOf(r: Root): CString {
    RootUdn(r.dev)
  }

  /**
   * `mupnp_controlpoint_getdevicebyudn` followed by
   * `mupnp_device_getrootdevice`: the first root whose tree has the UDN.
   */
  function RootIndex(roots: seq<Root>, udn: string): (r: Option<nat>)
    ensures r.Some? ==>
      && r.value < |roots| && TreeHas(roots[r.value].dev.tree, udn)
      && forall j | 0 <= j < r.value :: !TreeHas(roots[j].dev.tree, udn)
    ensures r.None? ==> forall j | 0 <= j < |roots| :: !TreeHas(roots[j].dev.tree, udn)
  {
    if roots == [] then None
    else if TreeHas(roots[0].dev.tree, udn) then Some(0)
    else
      match RootIndex(roots[1..], udn)
      case None => None
      case Some(i) => Some(i + 1)
  }

  // ---------------------------------------------------------------------
  // Reserving
  // ---------------------------------------------------------------------

  datatype Reservation =
    | Ignored              // no UDN or no LOCATION
    | Rejected             // stopping
    | Refreshed            // the cached LOCATION again
    | Joined               // the LOCATION is being fetched already
    | Reserved(call: Call)

  predicate Supersedes(udn: string, rootUdn: string, e: Entry) {
    e.udn == udn || e.rootUdn == rootUdn
  }

  function Marked(e: Entry, udn: string, rootUdn: string): Entry {
    if Supersedes(udn, rootUdn, e) then e.(superseded := true) else e
  }

  /**
   * The loop over the pending list. It marks as it goes and stops at an entry
   * with the same LOCATION, so entries before that one stay marked.
   */
  function Scan(pending: seq<Entry>, udn: string, rootUdn: string, location: string): (r: (seq<Entry>, bool))
    ensures |r.0| == |pending|
    ensures r.1 <==> exists i | 0 <= i < |pending| :: pending[i].location == location
    ensures !r.1 ==> forall i | 0 <= i < |pending| :: r.0[i] == Marked(pending[i], udn, rootUdn)
    ensures forall i | 0 <= i < |pending| :: r.0[i] == pending[i] || r.0[i] == Marked(pending[i], udn, rootUdn)
  {
    if pending == [] then ([], false)
    else if pending[0].location == location then (pending, true)
    else
      var (rest, joined) := Scan(pending[1..], udn, rootUdn, location);
      assert forall i | 0 <= i < |pending| :: i == 0 || pending[i] == pending[1..][i - 1];
      ([Marked(pending[0], udn, rootUdn)] + rest, joined)
  }

  function MarkAll(entries: seq<Entry>, udn: string, rootUdn: string): (r: seq<Entry>)
    ensures |r| == |entries| && forall i | 0 <= i < |r| :: r[i] == Marked(entries[i], udn, rootUdn)
  {
    if entries == [] then [] else [Marked(entries[0], udn, rootUdn)] + MarkAll(entries[1..], udn, rootUdn)
  }

  lemma ScanStep(first: Entry, rest: seq<Entry>, udn: string, rootUdn: string, location: string)
    requires first.location != location
    ensures var (scanned, joined) := Scan(rest, udn, rootUdn, location);
            Scan([first] + rest, udn, rootUdn, location) == ([Marked(first, udn, rootUdn)] + scanned, joined)
  {
    assert ([first] + rest)[1..] == rest;
  }

  /** Entries with other LOCATIONs are marked and passed by. */
  lemma {:induction false} ScanPasses(entries: seq<Entry>, rest: seq<Entry>, udn: string, rootUdn: string, location: string)
    requires forall e | e in entries :: e.location != location
    ensures var (scanned, joined) := Scan(rest, udn, rootUdn, location);
            Scan(entries + rest, udn, rootUdn, location) == (MarkAll(entries, udn, rootUdn) + scanned, joined)
  {
    if entries == [] {
      var scanned := Scan(rest, udn, rootUdn, location).0;
      assert entries + rest == rest && MarkAll(entries, udn, rootUdn) + scanned == scanned;
    } else {
      var first, others := entries[0], entries[1..];
      var marked := MarkAll(others, udn, rootUdn);
      assert MarkAll(entries, udn, rootUdn) == [Marked(first, udn, rootUdn)] + marked;
      hide Scan, Marked, MarkAll;
      assert entries == [first] + others;
      ScanPasses(others, rest, udn, rootUdn, location);
      ScanStep(first, others + rest, udn, rootUdn, location);
      ConcatAssociates([first], others, rest);
      ConcatAssociates([Marked(first, udn, rootUdn)], marked, Scan(rest, udn, rootUdn, location).0);
    }
  }

  /** The first region of `mupnp_controlpoint_fetchdevice`. */
  function Reserve(sh: Shared, id: nat, packet: Packet): (Shared, Reservation) {
    if packet.udn == "" || IsBlank(packet.location) then (sh, Ignored)
    else if sh.stopping then (sh, Rejected)
    else
      var found := RootIndex(sh.roots, packet.udn);
      if found.Some? && StrEq(LocationOf(sh.roots[found.value]), packet.location) then
        var r := sh.roots[found.value];
        (sh.(roots := sh.roots[found.value := r.(dev := r.dev.(packet := packet))]), Refreshed)
      else
        var rootUdn := if found.Some? then OrEmpty(UdnOf(sh.roots[found.value])) else packet.udn;
        var (pending, joined) := Scan(sh.pending, packet.udn, rootUdn, packet.location.value);
        if joined then (sh.(pending := pending), Joined)
        else
          var cachedLocation := if found.Some? then LocationOf(sh.roots[found.value]) else None;
          var entry := Entry(id, packet.udn, rootUdn, packet.location.value, false);
          (sh.(pending := [entry] + pending), Reserved(Call(packet, sh.epoch, cachedLocation)))
  }

  // ---------------------------------------------------------------------
  // Committing
  // ---------------------------------------------------------------------

  /** The entry of a call, which the call itself can always reach. */
  function EntryOf(pending: seq<Entry>, id: nat): (r: Option<Entry>)
    ensures r.Some? ==> r.value in pending && r.value.id == id
    ensures r.None? ==> forall e | e in pending :: e.id != id
  {
    if pending == [] then None
    else if pending[0].id == id then Some(pending[0])
    else EntryOf(pending[1..], id)
  }

  /** The pointer-to-pointer loop that takes the entry out of the list. */
  function Unlink(pending: seq<Entry>, id: nat): seq<Entry> {
    if pending == [] then []
    else if pending[0].id == id then pending[1..]
    else [pending[0]] + Unlink(pending[1..], id)
  }

  /** Revalidation: not stopping, not superseded, same discovery epoch. */
  predicate PublishTest(sh: Shared, superseded: bool, call: Call) {
    !sh.stopping && !superseded && call.epoch == sh.epoch
  }

  /** `mupnp_device_updatefromdevice` on objects: descriptions may change hands, identities do not. */
  function UpdateRoot(r: Root, candidate: Root, packet: Packet): (Root, Root) {
    var (dev, tree, ok) := UpdateFromDevice(r.dev, candidate.dev, packet);
    var swapped := ok && DescriptionChanged(r.dev, candidate.dev, packet);
    (Root(r.objectId, if swapped then candidate.descriptionId else r.descriptionId, dev),
     Root(candidate.objectId, if swapped then r.descriptionId else candidate.descriptionId,
          candidate.dev.(tree := tree)))
  }

  /** `leftover` is the candidate object when it was not linked; the region deletes it. */
  datatype Outcome = Outcome(publish: bool, status: Status, leftover: Option<Root>)

  /** What the commit does to the root list. */
  function CommitRoots(roots: seq<Root>, call: Call, candidate: Option<Root>): (seq<Root>, Outcome) {
    var found := RootIndex(roots, call.packet.udn);
    if found.Some? && !StrEq(call.cachedLocation, LocationOf(roots[found.value])) then
      (roots, Outcome(false, Invalid, candidate))
    else if found.Some? then
      if candidate.None? then (roots, Outcome(true, Updated, None))
      else
        var (r, rest) := UpdateRoot(roots[found.value], candidate.value, call.packet);
        (roots[found.value := r], Outcome(true, Updated, Some(rest)))
    else if candidate.None? then (roots, Outcome(true, Invalid, None))
    else if RootIndex(roots, OrEmpty(UdnOf(candidate.value))).None? then
      (roots + [candidate.value], Outcome(true, Added, None))
    else (roots, Outcome(false, Invalid, candidate))
  }

  /** The publish test, and the commit if it passes. */
  function Published(sh: Shared, superseded: bool, call: Call, candidate: Option<Root>): (seq<Root>, Outcome) {
    if PublishTest(sh, superseded, call) then CommitRoots(sh.roots, call, candidate)
    else (sh.roots, Outcome(false, Invalid, candidate))
  }

  /** The second region of `mupnp_controlpoint_fetchdevice`. */
  function Commit(sh: Shared, id: nat, superseded: bool, call: Call, candidate: Option<Root>): (Shared, Outcome) {
    var (roots, outcome) := Published(sh, superseded, call, candidate);
    (sh.(roots := roots, pending := Unlink(sh.pending, id)), outcome)
  }

  // ---------------------------------------------------------------------
  // Removing and stopping
  // ---------------------------------------------------------------------

  /** Deleting the first embedded device with the UDN takes it out of its parent's list. */
  function Prune(d: Device, udn: string): (r: Device)
    ensures r.node == d.node
    decreases d, 1
  {
    d.(children := PruneAmong(d.children, udn))
  }

  function PruneAmong(ds: seq<Device>, udn: string): seq<Device>
    decreases ds, 0
  {
    if ds == [] then []
    else if StrEq(ds[0].node.udn, Some(udn)) then ds[1..]
    else if FindByUdnAmong(ds[0].children, Some(udn)).Some? then [Prune(ds[0], udn)] + ds[1..]
    else [ds[0]] + PruneAmong(ds[1..], udn)
  }

  /** Deleting the first device with the UDN: a root leaves the list, an embedded device the list it is in. */
  function RemoveFrom(roots: seq<Root>, udn: string): (seq<Root>, Option<Root>) {
    match RootIndex(roots, udn)
    case None => (roots, None)
    case Some(i) =>
      var r := roots[i];
      if StrEq(UdnOf(r), Some(udn)) then (roots[..i] + roots[i + 1..], Some(r))
      else (roots[i := r.(dev := r.dev.(tree := Prune(r.dev.tree, udn)))], None)
  }

  /** `mupnp_controlpoint_removedevicebyssdppacket` with no listener; the root object deleted, if a root was. */
  function Remove(sh: Shared, udn: string): (Shared, Option<Root>) {
    var (roots, deleted) := RemoveFrom(sh.roots, udn);
    (sh.(roots := roots, epoch := sh.epoch + 1), deleted)
  }

  /** The head of `mupnp_controlpoint_stop`. */
  function BeginStop(sh: Shared): Shared {
    sh.(stopping := true, epoch := sh.epoch + 1)
  }

  /** Its tail, after the wait for the pending list to drain. */
  function FinishStop(sh: Shared): Shared {
    sh.(roots := [])
  }

  /** The reset in `mupnp_controlpoint_start`. */
  function Restart(sh: Shared): Shared {
    sh.(stopping := false)
  }

  // ---------------------------------------------------------------------
  // The system
  // ---------------------------------------------------------------------

  datatype Phase = Fetching | Fetched(candidate: Option<Root>)

  /** A call of `mupnp_controlpoint_fetchdevice` between its two regions. */
  datatype Thread = Thread(call: Call, phase: Phase)

  datatype Mode = Up | Draining | Down

  /**
   * `threads` are the calls in flight. `objects` and `descriptions` count the
   * device objects and description trees created so far; the two deleted
   * sequences record what was freed.
   */
  datatype System = System(
    shared: Shared, threads: map<nat, Thread>, mode: Mode,
    calls: nat, created: nat, deletedObjects: seq<nat>, deletedDescriptions: seq<nat>)

  datatype Step =
    | Announce(packet: Packet)
    | Receive(id: nat, response: Option<Cached>)
    | CommitCall(id: nat)
    | Byebye(udn: string)
    | StopBegins
    | StopEnds
    | Start
    | SubscriptionChange(root: nat, tree: Device)

  const INITIAL := System(Shared([], [], 0, false), map[], Up, 0, 0, [], [])

  /** A candidate comes with a root UDN; the parser invents one when the description has none. */
  predicate Usable(response: Cached) {
    !IsBlank(RootUdn(response))
  }

  ghost predicate Enabled(s: System, step: Step) {
    match step
    case Announce(_) => true
    case Receive(id, response) =>
      id in s.threads && s.threads[id].phase.Fetching? && (response.Some? ==> Usable(response.value))
    case CommitCall(id) => id in s.threads && s.threads[id].phase.Fetched?
    case Byebye(_) => true
    case StopBegins => s.mode != Draining
    case StopEnds => s.mode == Draining && s.shared.pending == []
    case Start => s.mode == Down
    case SubscriptionChange(i, tree) => i < |s.shared.roots| && Strip(tree) == Strip(s.shared.roots[i].dev.tree)
  }

  function ApplyAnnounce(s: System, packet: Packet): System {
    var (sh, reservation) := Reserve(s.shared, s.calls, packet);
    s.(shared := sh, calls := s.calls + 1,
       threads := if reservation.Reserved? then s.threads[s.calls := Thread(reservation.call, Fetching)] else s.threads)
  }

  /** The candidate gets the announcing packet; one that mentions the announced UDN nowhere is deleted at once. */
  function ApplyReceive(s: System, id: nat, response: Option<Cached>): System
    requires id in s.threads
  {
    var t := s.threads[id];
    if response.None? then s.(threads := s.threads[id := t.(phase := Fetched(None))])
    else
      var r := Root(s.created, s.created, response.value.(packet := t.call.packet));
      var s' := s.(created := s.created + 1);
      if TreeHas(response.value.tree, t.call.packet.udn) then
        s'.(threads := s.threads[id := t.(phase := Fetched(Some(r)))])
      else
        s'.(threads := s.threads[id := t.(phase := Fetched(None))],
            deletedObjects := s.deletedObjects + [s.created],
            deletedDescriptions := s.deletedDescriptions + [s.created])
  }

  function IsSuperseded(s: System, id: nat): bool {
    match EntryOf(s.shared.pending, id)
    case Some(e) => e.superseded
    case None => false
  }

  function CommitResult(s: System, id: nat): (Shared, Outcome)
    requires id in s.threads && s.threads[id].phase.Fetched?
  {
    Commit(s.shared, id, IsSuperseded(s, id), s.threads[id].call, s.threads[id].phase.candidate)
  }

  function Deleting(s: System, r: Option<Root>): System {
    if r.None? then s
    else s.(deletedObjects := s.deletedObjects + [r.value.objectId],
            deletedDescriptions := s.deletedDescriptions + [r.value.descriptionId])
  }

  function ApplyCommit(s: System, id: nat): System
    requires id in s.threads && s.threads[id].phase.Fetched?
  {
    var (sh, outcome) := CommitResult(s, id);
    Deleting(s.(shared := sh, threads := s.threads - {id}), outcome.leftover)
  }

  function Objects(roots: seq<Root>): (r: seq<nat>)
    ensures |r| == |roots| && forall i | 0 <= i < |r| :: r[i] == roots[i].objectId
  {
    seq(|roots|, i requires 0 <= i < |roots| => roots[i].objectId)
  }

  function Descriptions(roots: seq<Root>): (r: seq<nat>)
    ensures |r| == |roots| && forall i | 0 <= i < |r| :: r[i] == roots[i].descriptionId
  {
    seq(|roots|, i requires 0 <= i < |roots| => roots[i].descriptionId)
  }

  function Apply(s: System, step: Step): System
    requires Enabled(s, step)
  {
    match step
    case Announce(packet) => ApplyAnnounce(s, packet)
    case Receive(id, response) => ApplyReceive(s, id, response)
    case CommitCall(id) => ApplyCommit(s, id)
    case Byebye(udn) =>
      var (sh, removed) := Remove(s.shared, udn);
      Deleting(s.(shared := sh), removed)
    case StopBegins => s.(shared := BeginStop(s.shared), mode := Draining)
    case StopEnds =>
      s.(shared := FinishStop(s.shared), mode := Down,
         deletedObjects := s.deletedObjects + Objects(s.shared.roots),
         deletedDescriptions := s.deletedDescriptions + Descriptions(s.shared.roots))
    case Start => s.(shared := Restart(s.shared), mode := Up)
    case SubscriptionChange(i, tree) =>
      var r := s.shared.roots[i];
      s.(shared := s.shared.(roots := s.shared.roots[i := r.(dev := r.dev.(tree := tree))]))
  }
}
