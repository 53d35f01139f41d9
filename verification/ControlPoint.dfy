/**
 * The control point as the library holds it: fields under one lock, an
 * intrusive list of pending fetches and the list of device objects. Each
 * locked region is a method, proved to take the shared state where the
 * function of Discovery.dfy says.
 */
module ControlPoint {
  import opened Sequences
  import opened Text
  import opened DeviceUpdate
  import C = DeviceCache
  import D = Discovery
  import O = DeviceObjects

  /** `mUpnpControlPointFetch`; it lives on the stack of the call that reserved it. */
  class Fetch {
    ghost const id: nat
    const udn: string
    const rootUdn: string
    const location: string
    var superseded: bool
    var next: Fetch?

    constructor (ghost id: nat, udn: string, rootUdn: string, location: string, next: Fetch?)
      ensures this.id == id && this.udn == udn && this.rootUdn == rootUdn && this.location == location
      ensures !superseded && this.next == next
    {
      this.id, this.udn, this.rootUdn, this.location := id, udn, rootUdn, location;
      superseded, this.next := false, next;
    }

    ghost function Value(): D.Entry
      reads this`superseded
    {
      D.Entry(id, udn, rootUdn, location, superseded)
    }
  }

  ghost function SetOf(chain: seq<Fetch>): set<Fetch> {
    set f | f in chain
  }

  ghost predicate DistinctIds(chain: seq<Fetch>) {
    forall i, j | 0 <= i < j < |chain| :: chain[i].id != chain[j].id
  }

  ghost function At(chain: seq<Fetch>, i: nat): Fetch? {
    if i < |chain| then chain[i] else null
  }

  /** The links are those of `chain`. */
  ghost predicate Chained(first: Fetch?, chain: seq<Fetch>)
    reads SetOf(chain)`next
  {
    && first == At(chain, 0)
    && (forall i | 0 <= i < |chain| :: chain[i] in SetOf(chain))
    && (forall i {:trigger chain[i].next} | 0 <= i < |chain| :: chain[i].next == At(chain, i + 1))
  }

  ghost function Values(chain: seq<Fetch>): (r: seq<D.Entry>)
    reads SetOf(chain)`superseded
    ensures |r| == |chain| && forall i | 0 <= i < |r| :: r[i] == chain[i].Value()
  {
    if chain == [] then [] else [chain[0].Value()] + Values(chain[1..])
  }

  lemma {:induction false} UnlinkFrom(pending: seq<D.Entry>, n: nat, id: nat)
    requires n < |pending| && pending[n].id == id && forall k | 0 <= k < n :: pending[k].id != id
    ensures D.Unlink(pending, id) == pending[..n] + pending[n + 1..]
  {
    if n > 0 {
      UnlinkFrom(pending[1..], n - 1, id);
      assert pending[1..][..n - 1] == pending[1..n] && pending[1..][n..] == pending[n + 1..];
    }
  }

  lemma MarkedUpTo(before: seq<D.Entry>, after: seq<D.Entry>, n: nat, udn: string, rootUdn: string)
    requires n <= |before| == |after|
    requires forall k | 0 <= k < |before| :: after[k] == if k < n then D.Marked(before[k], udn, rootUdn) else before[k]
    ensures after == D.MarkAll(before[..n], udn, rootUdn) + before[n..]
  {
    hide D.MarkAll, D.Marked;
  }

  /** The scan stops where the LOCATION is or the list ends. */
  lemma ScanStops(passed: seq<D.Entry>, rest: seq<D.Entry>, udn: string, rootUdn: string, location: string)
    requires forall e | e in passed :: e.location != location
    requires rest != [] ==> rest[0].location == location
    ensures D.Scan(passed + rest, udn, rootUdn, location) == (D.MarkAll(passed, udn, rootUdn) + rest, rest != [])
  {
    D.ScanPasses(passed, rest, udn, rootUdn, location);
  }

  /** The loop over the pending list; whether the LOCATION is being fetched already. */
  method ScanPending(first: Fetch?, udn: string, rootUdn: string, location: string, ghost chain: seq<Fetch>)
    returns (joined: bool)
    requires Chained(first, chain) && DistinctIds(chain)
    modifies SetOf(chain)`superseded
    ensures (Values(chain), joined) == D.Scan(old(Values(chain)), udn, rootUdn, location)
  {
    hide Values, D.Scan;
    ghost var before := Values(chain);
    var pending := first;
    ghost var n := 0;
    while pending != null && pending.location != location
      invariant n <= |chain| && pending == if n < |chain| then chain[n] else null
      invariant forall k | 0 <= k < n ::
                  before[k].location != location && chain[k].Value() == D.Marked(before[k], udn, rootUdn)
      invariant forall k | n <= k < |chain| :: chain[k].Value() == before[k]
      decreases |chain| - n
    {
      assert pending.Value() == before[n] && pending in SetOf(chain);
      if pending.udn == udn || pending.rootUdn == rootUdn {
        pending.superseded := true;
      }
      pending := pending.next;
      n := n + 1;
    }
    Cut(before, n);
    MarkedUpTo(before, Values(chain), n, udn, rootUdn);
    ScanStops(before[..n], before[n..], udn, rootUdn, location);
    joined := pending != null;
  }

  /** The links after position `n` was bypassed. */
  lemma Bypassed(chain: seq<Fetch>, first: Fetch?, n: nat)
    requires n < |chain| && DistinctIds(chain)
    requires first == At(chain, if n == 0 then 1 else 0)
    requires forall i {:trigger chain[i].next} | 0 <= i < |chain| ::
               chain[i].next == At(chain, if i + 1 == n then n + 1 else i + 1)
    ensures var rest := chain[..n] + chain[n + 1..];
            Chained(first, rest) && DistinctIds(rest) && SetOf(rest) <= SetOf(chain)
  {
    var rest := chain[..n] + chain[n + 1..];
    assert forall k | 0 <= k < |rest| :: rest[k] == if k < n then chain[k] else chain[k + 1];
  }

  lemma UnlinkedValues(chain: seq<Fetch>, n: nat)
    requires n < |chain| && DistinctIds(chain)
    ensures Values(chain[..n] + chain[n + 1..]) == D.Unlink(Values(chain), chain[n].id)
  {
    hide D.Unlink, Values;
    var rest, values := chain[..n] + chain[n + 1..], Values(chain);
    assert forall k | 0 <= k < n :: values[k].id == chain[k].id;
    UnlinkFrom(values, n, chain[n].id);
    var values' := values[..n] + values[n + 1..];
    forall k | 0 <= k < |rest| ensures Values(rest)[k] == values'[k] {
      assert rest[k] == if k < n then chain[k] else chain[k + 1];
    }
    assert Values(rest) == values';
  }

  /** The pointer-to-pointer loop that takes a fetch out of the list. */
  method UnlinkFetch(first: Fetch?, fetch: Fetch, ghost chain: seq<Fetch>)
    returns (newFirst: Fetch?, ghost newChain: seq<Fetch>)
    requires Chained(first, chain) && DistinctIds(chain) && fetch in chain
    modifies SetOf(chain)`next
    ensures Chained(newFirst, newChain) && DistinctIds(newChain) && SetOf(newChain) <= SetOf(chain)
    ensures Values(newChain) == D.Unlink(old(Values(chain)), fetch.id)
  {
    hide Values, D.Unlink;
    var previous: Fetch?, link := null, first;
    ghost var n := 0;
    while link != fetch
      invariant n < |chain| && link == chain[n] && fetch in chain[n..]
      invariant previous == if n == 0 then null else chain[n - 1]
      decreases |chain| - n
    {
      previous, link := link, link.next;
      n := n + 1;
    }
    UnlinkedValues(chain, n);
    newChain := chain[..n] + chain[n + 1..];
    if previous == null {
      newFirst := fetch.next;
    } else {
      newFirst := first;
      assert previous in SetOf(chain) && previous != fetch;
      previous.next := fetch.next;
    }
    Bypassed(chain, newFirst, n);
  }

  class ControlPoint {
    const deviceList: C.DeviceCache
    var pendingFetches: Fetch?
    var discoveryEpoch: nat
    var stopping: bool
    /** The fetches of the pending list, in list order. */
    ghost var chain: seq<Fetch>

    constructor ()
      ensures Valid() && Abstract() == D.Shared([], [], 0, false)
    {
      deviceList := new C.DeviceCache();
      pendingFetches, discoveryEpoch, stopping := null, 0, false;
      chain := [];
    }

    /** The objects that the device list holds. */
    ghost function Devices(): set<O.DeviceObject>
      reads deviceList`trees
    {
      C.AllDevs(deviceList.trees)
    }

    ghost function Services(): set<O.ServiceObject>
      reads deviceList`trees
    {
      C.AllServs(deviceList.trees)
    }

    ghost predicate Valid()
      reads this, SetOf(chain)`next
      reads deviceList, Devices(), C.AllKids(deviceList.trees)`next, Services()`owner
    {
      Chained(pendingFetches, chain) && DistinctIds(chain) && deviceList.Valid()
    }

    /** The state that the lock protects. */
    ghost function Abstract(): D.Shared
      reads this, SetOf(chain)`superseded, deviceList
      reads Devices()`rootNodes, Devices()`packet, Devices()`httpPort, Devices()`node
      reads Services()`sid, Services()`timeout, Services()`timestamp, Services()`eventKey
    {
      D.Shared(deviceList.Roots(), Values(chain), discoveryEpoch, stopping)
    }

    /** The refresh: only the packet of the cached root changes. */
    method Refresh(dev: O.DeviceObject, packet: Packet, ghost i: nat)
      requires Valid() && i < |deviceList.trees| && deviceList.trees[i].dev == dev
      modifies Devices()`packet
      ensures Valid()
      ensures var r := old(Abstract()).roots[i];
              Abstract() == old(Abstract()).(roots := old(Abstract()).roots[i := r.(dev := r.dev.(packet := packet))])
    {
      hide Values, Chained, DistinctIds, C.DeviceCache.Valid, C.AllDevs, C.AllKids, C.AllServs, C.RootValues;
      assert allocated(SetOf(chain));
      C.RootsInFootprint(deviceList.trees);
      deviceList.RefreshRoot(dev, packet, i);
    }

    /** The scan of the pending list. */
    method Scan(udn: string, rootUdn: string, location: string) returns (joined: bool)
      requires Valid()
      modifies SetOf(chain)`superseded
      ensures Valid() && joined == D.Scan(old(Abstract().pending), udn, rootUdn, location).1
      ensures Abstract() == old(Abstract().(pending := D.Scan(Abstract().pending, udn, rootUdn, location).0))
    {
      hide Values, Chained, DistinctIds, D.Scan, C.DeviceCache.Valid, C.DeviceCache.Roots, C.AllDevs, C.AllKids, C.AllServs;
      assert allocated(Devices()) && allocated(Services()) && allocated(C.AllKids(deviceList.trees));
      joined := ScanPending(pendingFetches, udn, rootUdn, location, chain);
    }

    method Enqueue(ghost id: nat, udn: string, rootUdn: string, location: string) returns (fetch: Fetch)
      requires Valid() && forall f | f in chain :: f.id != id
      modifies this`pendingFetches, this`chain
      ensures Valid() && fetch.id == id && chain == [fetch] + old(chain)
      ensures Abstract()
           == old(Abstract().(pending := [D.Entry(id, udn, rootUdn, location, false)] + Abstract().pending))
    {
      hide Values, Chained, DistinctIds, C.DeviceCache.Valid, C.DeviceCache.Roots, C.AllDevs, C.AllKids, C.AllServs;
      assert allocated(Devices()) && allocated(Services()) && allocated(C.AllKids(deviceList.trees));
      assert allocated(SetOf(chain)) && forall f | f in chain :: f in SetOf(chain);
      fetch := new Fetch(id, udn, rootUdn, location, pendingFetches);
      Prepended(fetch, pendingFetches, chain);
      pendingFetches := fetch;
      chain := [fetch] + chain;
    }

    /** `mupnp_controlpoint_getdevicebyudn` and `mupnp_device_getrootdevice`. */
    method LookUp(udn: string) returns (dev: O.DeviceObject?, ghost index: Option<nat>)
      requires Valid()
      ensures Valid() && Abstract() == old(Abstract())
      ensures index == D.RootIndex(Abstract().roots, udn) && (dev == null <==> index.None?)
      ensures index.Some? ==>
        && index.value < |deviceList.trees| && deviceList.trees[index.value].dev == dev
        && var r := Abstract().roots[index.value]; D.LocationOf(r) == dev.packet.location && D.UdnOf(r) == dev.node.udn
    {
      hide Values, Chained, DistinctIds, C.DeviceCache.Valid, C.AllDevs, C.AllKids, C.AllServs, C.AllLinked;
      hide C.RootValues, D.RootIndex;
      assert allocated(SetOf(chain));
      C.NothingLinked();
      dev, index := deviceList.LookUp(udn, []);
      if dev != null {
        C.FieldsOfRoot(deviceList.trees, index.value);
      }
    }

    /** The first locked region of `mupnp_controlpoint_fetchdevice`. */
    method Reserve(ghost id: nat, packet: Packet) returns (reservation: D.Reservation, fetch: Fetch?)
      requires Valid() && forall f | f in chain :: f.id != id
      modifies this, SetOf(chain)`superseded, Devices()`packet
      ensures Valid() && (Abstract(), reservation) == D.Reserve(old(Abstract()), id, packet)
      ensures if reservation.Reserved? then fetch != null && fetch.id == id && chain == [fetch] + old(chain)
              else fetch == null && chain == old(chain)
    {
      hide D.RootIndex, D.Scan, Values, Chained, DistinctIds, C.DeviceCache.Valid, C.DeviceCache.Roots;
      hide C.AllDevs, C.AllKids, C.AllServs;
      fetch := null;
      if packet.udn == "" || IsBlank(packet.location) {
        return D.Ignored, null;
      }
      if stopping {
        return D.Rejected, null;
      }
      var dev, index := LookUp(packet.udn);
      if dev != null && StrEq(dev.packet.location, packet.location) {
        Refresh(dev, packet, index.value);
        return D.Refreshed, null;
      }
      var rootUdn := if dev != null then OrEmpty(dev.node.udn) else packet.udn;
      var joined := Scan(packet.udn, rootUdn, packet.location.value);
      if joined {
        return D.Joined, null;
      }
      var cachedLocation: CString := None;
      if dev != null {
        cachedLocation := dev.packet.location;
      }
      fetch := Enqueue(id, packet.udn, rootUdn, packet.location.value);
      reservation := D.Reserved(D.Call(packet, discoveryEpoch, cachedLocation));
    }

    /** The publish test, and the commit if it passes. */
    method Publish(fetch: Fetch, call: D.Call, candidate: O.DeviceObject?, ghost candidates: seq<O.Tree>)
      returns (publish: bool, status: D.Status, leftover: O.DeviceObject?, ghost rest: seq<O.Tree>)
      requires Valid() && candidate == C.HeadAt(candidates, 0) && |candidates| <= 1
      requires C.AllLinked(candidates) && C.AllNew(candidates, deviceList.trees)
      modifies deviceList, Devices(), Services(), C.AllDevs(candidates), C.AllServs(candidates)
      ensures Valid() && leftover == C.HeadAt(rest, 0) && |rest| <= 1 && C.AllLinked(rest) && C.AllNew(rest, deviceList.trees)
      ensures var published := old(D.Published(Abstract(), fetch.superseded, call, C.FirstValue(candidates)));
              Abstract() == old(Abstract()).(roots := published.0) && D.Outcome(publish, status, C.FirstValue(rest)) == published.1
    {
      hide D.CommitRoots, Values, Chained, DistinctIds;
      hide C.DeviceCache.Valid, C.DeviceCache.Roots, C.AllDevs, C.AllKids, C.AllServs, C.AllLinked, C.AllNew, C.FirstValue;
      publish, status, leftover, rest := false, D.Invalid, candidate, candidates;
      assert allocated(SetOf(chain));
      if !stopping && !fetch.superseded && call.epoch == discoveryEpoch {
        publish, status, leftover, rest := deviceList.CommitDevice(call, candidate, candidates);
      }
    }

    /**
     * The second locked region of `mupnp_controlpoint_fetchdevice`. `candidates`
     * has the tree of the candidate object, or is empty; `rest` is that of the
     * candidate which the call then deletes.
     */
    method Commit(fetch: Fetch, call: D.Call, candidate: O.DeviceObject?, ghost candidates: seq<O.Tree>)
      returns (publish: bool, status: D.Status, leftover: O.DeviceObject?, ghost rest: seq<O.Tree>)
      requires Valid() && fetch in chain && candidate == C.HeadAt(candidates, 0) && |candidates| <= 1
      requires C.AllLinked(candidates) && C.AllNew(candidates, deviceList.trees)
      modifies this, SetOf(chain)`next
      modifies deviceList, Devices(), Services(), C.AllDevs(candidates), C.AllServs(candidates)
      ensures Valid() && leftover == C.HeadAt(rest, 0) && |rest| <= 1 && C.AllLinked(rest) && C.AllNew(rest, deviceList.trees)
      ensures (Abstract(), D.Outcome(publish, status, C.FirstValue(rest)))
           == old(D.Commit(Abstract(), fetch.id, fetch.superseded, call, C.FirstValue(candidates)))
      ensures fetch.superseded == old(fetch.superseded)
    {
      hide D.Published, D.Unlink, Values, Chained, DistinctIds, C.DeviceCache.Valid, C.DeviceCache.Roots;
      hide C.AllDevs, C.AllKids, C.AllServs, C.AllLinked, C.AllNew, C.FirstValue;
      publish, status, leftover, rest := Publish(fetch, call, candidate, candidates);
      assert allocated(C.AllDevs(rest)) && allocated(C.AllServs(rest)) && allocated(C.AllKids(rest));
      Unlink(fetch);
    }

    /** The call takes its own fetch out of the list. */
    method Unlink(fetch: Fetch)
      requires Valid() && fetch in chain
      modifies this`pendingFetches, this`chain, SetOf(chain)`next
      ensures Valid() && Abstract() == old(Abstract().(pending := D.Unlink(Abstract().pending, fetch.id)))
      ensures deviceList.Roots() == old(deviceList.Roots())
    {
      hide D.Unlink, Values, Chained, DistinctIds;
      hide C.DeviceCache.Valid, C.DeviceCache.Roots, C.AllDevs, C.AllKids, C.AllServs;
      assert allocated(Devices()) && allocated(Services()) && allocated(C.AllKids(deviceList.trees));
      pendingFetches, chain := UnlinkFetch(pendingFetches, fetch, chain);
    }

    /** `mupnp_controlpoint_removedevicebyssdppacket` with no listener; the root that was deleted, if one was. */
    method Remove(udn: string) returns (ghost deleted: Option<D.Root>)
      requires Valid()
      modifies this`discoveryEpoch, deviceList, Devices()`next, Devices()`devices
      ensures Valid() && (Abstract(), deleted) == D.Remove(old(Abstract()), udn)
    {
      hide D.RemoveFrom, Values, Chained, DistinctIds;
      hide C.DeviceCache.Valid, C.AllDevs, C.AllKids, C.AllServs, C.RootValues, C.AllLinked;
      discoveryEpoch := discoveryEpoch + 1;
      assert allocated(SetOf(chain));
      deleted := deviceList.Remove(udn);
    }

    /** The first locked region of `mupnp_controlpoint_stop`. */
    method BeginStop()
      requires Valid()
      modifies this`stopping, this`discoveryEpoch
      ensures Valid() && Abstract() == D.BeginStop(old(Abstract()))
    {
      hide Chained, DistinctIds, Values, C.DeviceCache.Valid, C.DeviceCache.Roots;
      assert allocated(Devices()) && allocated(Services()) && allocated(C.AllKids(deviceList.trees));
      stopping := true;
      discoveryEpoch := discoveryEpoch + 1;
    }

    /** The second one, once the wait has found the pending list empty. */
    method FinishStop()
      requires Valid() && pendingFetches == null
      modifies deviceList
      ensures Valid() && chain == [] && Abstract() == D.FinishStop(old(Abstract()))
    {
      assert allocated(SetOf(chain));
      deviceList.Clear();
    }

    /** The locked region of `mupnp_controlpoint_start`. */
    method Restart()
      requires Valid()
      modifies this`stopping
      ensures Valid() && Abstract() == D.Restart(old(Abstract()))
    {
      hide Chained, DistinctIds, Values, C.DeviceCache.Valid, C.DeviceCache.Roots;
      assert allocated(Devices()) && allocated(Services()) && allocated(C.AllKids(deviceList.trees));
      stopping := false;
    }
  }

  lemma Prepended(fetch: Fetch, first: Fetch?, chain: seq<Fetch>)
    requires Chained(first, chain) && DistinctIds(chain) && fetch.next == first
    requires forall f | f in chain :: f != fetch && f.id != fetch.id
    ensures Chained(fetch, [fetch] + chain) && DistinctIds([fetch] + chain)
    ensures Values([fetch] + chain) == [fetch.Value()] + Values(chain)
  {
    var chain' := [fetch] + chain;
    assert chain'[1..] == chain;
    assert forall k | 0 <= k < |chain'| :: chain'[k] == if k == 0 then fetch else chain[k - 1];
  }
}
