/** Replacing a cached device by a newer description, as functions on values. */
module DeviceUpdate {
  import opened Text
  import opened DeviceTree

  /** The part of an SSDP packet that the cache looks at; `stamp` stands for the rest of it. */
  datatype Packet = Packet(udn: string, location: CString, configId: CString, stamp: int)

  /** A root device of the cache, or a candidate for it. */
  datatype Cached = Cached(tree: Device, packet: Packet, httpPort: int)

  function RootUdn(c: Cached): CString {
    c.tree.node.udn
  }

  /** The guard of the tree replacement: CONFIGID or structure changed. */
  predicate DescriptionChanged(dev: Cached, newDev: Cached, packet: Packet) {
    !OptStrEq(dev.packet.configId, packet.configId) || !SameStructure(dev.tree, newDev.tree)
  }

  /**
   * `mupnp_device_updatefromdevice`: the device afterwards, the description
   * that the other object is left with, and the return value.
   */
  function UpdateFromDevice(dev: Cached, newDev: Cached, packet: Packet): (r: (Cached, Device, bool))
    ensures RootUdn(r.0) == RootUdn(dev)
    ensures r.2 <==> StrEq(RootUdn(newDev), RootUdn(dev))
    ensures !r.2 ==> r.0 == dev && r.1 == newDev.tree
    ensures r.2 ==> r.0.packet == packet && r.0.httpPort == newDev.httpPort
  {
    if !StrEq(RootUdn(newDev), RootUdn(dev)) then (dev, newDev.tree, false)
    else if DescriptionChanged(dev, newDev, packet) then
      (Cached(CopySubscriptions(newDev.tree, dev.tree), packet, newDev.httpPort), dev.tree, true)
    else (Cached(dev.tree, packet, newDev.httpPort), newDev.tree, true)
  }

  /** What fetching a LOCATION gives: nothing usable, or a description whose SCPDs did or did not all parse. */
  datatype Response = Failed | Parsed(tree: Device, httpPort: int, scpdParsed: bool)

  /** `mupnp_device_updatefromssdppacket`, with the network replaced by its answer. */
  function UpdateFromSsdpPacket(dev: Cached, packet: Packet, response: Response): Cached {
    if StrEq(dev.packet.location, packet.location) then dev.(packet := packet)
    else if IsBlank(packet.location) then dev
    else if response.Failed? || !StrEq(response.tree.node.udn, RootUdn(dev)) then dev
    else if OptStrEq(dev.packet.configId, packet.configId) && SameStructure(dev.tree, response.tree) then
      Cached(dev.tree, packet, response.httpPort)
    else if !response.scpdParsed then dev
    else Cached(CopySubscriptions(response.tree, dev.tree), packet, response.httpPort)
  }

  /**
   * An update never loses a subscription whose address the new description
   * still has, whichever branch it takes.
   */
  lemma UpdateKeepsSubscriptions(dev: Cached, newDev: Cached, packet: Packet, udn: CString, serviceId: CString)
    requires ServiceAt(dev.tree, udn, serviceId).Some?
    requires var s := ServiceAt(dev.tree, udn, serviceId).value; IsSubscribed(s.sub)
    requires ServiceAt(newDev.tree, udn, serviceId).Some?
    ensures var after := ServiceAt(UpdateFromDevice(dev, newDev, packet).0.tree, udn, serviceId);
            after.Some? && after.value.sub == ServiceAt(dev.tree, udn, serviceId).value.sub
  {
    CopyKeepsSubscriptionAtAddress(newDev.tree, dev.tree, udn, serviceId);
  }

  /**
   * An accepted update leaves the device exposing what the new description
   * says, at the new LOCATION. If that is what it exposed before, under the
   * same CONFIGID, the old tree itself is kept, services and all; otherwise
   * the new one takes its place and the old one goes to the other object.
   */
  lemma UpdateShowsNewDescription(dev: Cached, newDev: Cached, packet: Packet)
    requires RootUdn(newDev).Some? && RootUdn(newDev) == RootUdn(dev)
    ensures var (after, other, accepted) := UpdateFromDevice(dev, newDev, packet);
            && accepted && after.packet == packet && after.httpPort == newDev.httpPort
            && SkeletonOf(after.tree) == SkeletonOf(newDev.tree)
            && (if SkeletonOf(dev.tree) == SkeletonOf(newDev.tree) && OrEmpty(dev.packet.configId) == OrEmpty(packet.configId)
                then after.tree == dev.tree && other == newDev.tree
                else Strip(after.tree) == Strip(newDev.tree) && other == dev.tree)
  {
    SameStructureIffSkeleton(dev.tree, newDev.tree);
    StripOfCopy(newDev.tree, dev.tree);
    SkeletonOfStrip(newDev.tree);
    SkeletonOfStrip(CopySubscriptions(newDev.tree, dev.tree));
    hide SameStructure, SkeletonOf, Strip, CopySubscriptions;
  }
}
