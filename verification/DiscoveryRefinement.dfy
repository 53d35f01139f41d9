/** With nothing else going on, the concurrent path does what the sequential update does. */
module DiscoveryRefinement {
  import opened Text
  import opened DeviceTree
  import opened DeviceUpdate
  import opened Discovery
  import opened DiscoveryInvariant
  import opened DiscoveryStopping

  /** `mupnp_controlpoint_createdevicefromssdkpacket` and the check of the announced UDN. */
  function CandidateOf(packet: Packet, response: Response, id: nat): Option<Root> {
    if response.Parsed? && response.scpdParsed && TreeHas(response.tree, packet.udn) then
      Some(Root(id, id, Cached(response.tree, packet, response.httpPort)))
    else None
  }

  /** `mupnp_controlpoint_fetchdevice` from start to end with no other step in between. */
  function Uncontended(sh: Shared, id: nat, packet: Packet, response: Response, objectId: nat): Shared {
    var (sh', reservation) := Reserve(sh, id, packet);
    if reservation.Reserved? then
      Commit(sh', id, false, reservation.call, CandidateOf(packet, response, objectId)).0
    else sh'
  }

  /**
   * The sequential update does not fetch the SCPDs of a description that is
   * like the cached one, so it accepts it where the concurrent path, which
   * has fetched them before it compares, rejects it.
   */
  predicate AcceptedUnread(dev: Cached, packet: Packet, response: Response) {
    && !IsBlank(packet.location) && !StrEq(dev.packet.location, packet.location)
    && response.Parsed? && !response.scpdParsed && StrEq(response.tree.node.udn, RootUdn(dev))
    && OptStrEq(dev.packet.configId, packet.configId) && SameStructure(dev.tree, response.tree)
  }

  /** The concurrent path drops a description that no longer lists the announced device; the other one does not look. */
  predicate DroppedForUdn(dev: Cached, packet: Packet, response: Response) {
    && !IsBlank(packet.location) && !StrEq(dev.packet.location, packet.location)
    && response.Parsed? && response.scpdParsed && StrEq(response.tree.node.udn, RootUdn(dev))
    && !TreeHas(response.tree, packet.udn)
  }

  /**
   * Announcing a device of a cached root with nothing pending updates just
   * that root, to what `mupnp_device_updatefromssdppacket` makes of it, unless
   * the SCPDs of an unchanged description could not be read or the new
   * description does not list the announced device; then and only then the two
   * differ, and the cache stays as it was.
   */
  lemma UncontendedRefinesSequential(sh: Shared, id: nat, packet: Packet, response: Response, objectId: nat, i: nat)
    requires !sh.stopping && sh.pending == [] && RootsOk(sh.roots)
    requires RootIndex(sh.roots, packet.udn) == Some(i)
    ensures var roots' := Uncontended(sh, id, packet, response, objectId).roots;
            && |roots'| == |sh.roots| && Uncontended(sh, id, packet, response, objectId) == sh.(roots := roots')
            && roots' == sh.roots[i := roots'[i]] && roots'[i].objectId == sh.roots[i].objectId
            && (roots'[i].dev == UpdateFromSsdpPacket(sh.roots[i].dev, packet, response)
                <==> !AcceptedUnread(sh.roots[i].dev, packet, response)
                     && !DroppedForUdn(sh.roots[i].dev, packet, response))
            && (AcceptedUnread(sh.roots[i].dev, packet, response) || DroppedForUdn(sh.roots[i].dev, packet, response)
                ==> roots' == sh.roots)
            && (UdnOf(sh.roots[i]) == Some(packet.udn) ==> !DroppedForUdn(sh.roots[i].dev, packet, response))
  {
    var r := sh.roots[i];
    assert packet.udn != "" && sh.roots == sh.roots[i := r];
    hide SameStructure, CopySubscriptions;
    if !IsBlank(packet.location) && !StrEq(LocationOf(r), packet.location) {
      CandidateHasUdn(packet, response);
      hide TreeHas;
      var (sh', reservation) := Reserve(sh, id, packet);
      assert reservation == Reserved(Call(packet, sh.epoch, LocationOf(r)));
      assert Unlink(sh'.pending, id) == [];
      var candidate := CandidateOf(packet, response, objectId);
      assert CommitRoots(sh.roots, reservation.call, candidate).0
          == if candidate.None? then sh.roots else sh.roots[i := UpdateRoot(r, candidate.value, packet).0];
      hide CommitRoots, Unlink, RootIndex;
    }
  }

  lemma CandidateHasUdn(packet: Packet, response: Response)
    ensures packet.udn != "" && response.Parsed? && StrEq(response.tree.node.udn, Some(packet.udn))
        ==> TreeHas(response.tree, packet.udn)
  {
  }

  /** What arrives of a response: a description whose SCPDs could not all be read is as good as none. */
  function Arrived(packet: Packet, response: Response): Option<Cached> {
    if response.Parsed? && response.scpdParsed then Some(Cached(response.tree, packet, response.httpPort)) else None
  }

  /** In the system, with nothing else in flight, the three steps of a call are the uncontended path. */
  lemma UncontendedIsRun(s: System, packet: Packet, response: Response)
    requires Inv(s) && s.shared.pending == [] && (response.Parsed? ==> !IsBlank(response.tree.node.udn))
    ensures var s1, id := Apply(s, Announce(packet)), s.calls;
            var path := Uncontended(s.shared, id, packet, response, s.created);
            if id !in s1.threads then s1.shared == path
            else
              && Enabled(s1, Receive(id, Arrived(packet, response)))
              && var s2 := Apply(s1, Receive(id, Arrived(packet, response)));
              && Enabled(s2, CommitCall(id)) && Apply(s2, CommitCall(id)).shared == path
  {
    NoEntryNoCall(s);
    hide Inv, TreeHas, RootIndex, CommitRoots;
    var s1, id := ApplyAnnounce(s, packet), s.calls;
    var (sh', reservation) := Reserve(s.shared, id, packet);
    if reservation.Reserved? {
      var entry := sh'.pending[0];
      assert s1.shared.pending == [entry] && EntryOf([entry], id) == Some(entry) && !entry.superseded;
      var s2 := ApplyReceive(s1, id, Arrived(packet, response));
      assert s2.threads[id].phase == Fetched(CandidateOf(packet, response, s.created));
      hide Unlink, PublishTest;
      assert s2.shared == s1.shared && !IsSuperseded(s2, id);
    }
  }

  /** Such a case: a device announced at a second address, where its SCPD cannot be read. */
  lemma PathsCanDiffer()
    ensures exists sh: Shared, packet: Packet, response: Response ::
              && !sh.stopping && sh.pending == [] && RootsOk(sh.roots) && RootIndex(sh.roots, packet.udn) == Some(0)
              && UdnOf(sh.roots[0]) == Some(packet.udn) && AcceptedUnread(sh.roots[0].dev, packet, response)
              && Uncontended(sh, 1, packet, response, 1).roots == sh.roots
              && UpdateFromSsdpPacket(sh.roots[0].dev, packet, response) != sh.roots[0].dev
  {
    var tree := Device(DeviceNode(Some("uuid:a"), None), [], []);
    var before := Packet("uuid:a", Some("http://a/"), None, 0);
    var packet := Packet("uuid:a", Some("http://b/"), None, 1);
    assert "http://a/"[7] != "http://b/"[7];
    var sh := Shared([Root(0, 0, Cached(tree, before, 80))], [], 0, false);
    var response := Parsed(tree, 80, false);
    SameStructureIsEquivalence(tree, tree, tree);
    assert TreeHas(tree, "uuid:a");
    assert AcceptedUnread(sh.roots[0].dev, packet, response);
    UncontendedRefinesSequential(sh, 1, packet, response, 1, 0);
  }
}
