/**
 * The device list of the control point: root objects in an intrusive list.
 * A root is looked up through the parent links of what was found; roots are
 * refreshed, updated, added and removed in place.
 */
module DeviceCache {
  import opened Sequences
  import opened Text
  import opened DeviceUpdate
  import opened DeviceObjects
  import opened DeviceRemoval
  import T = DeviceTree
  import D = Discovery

  // ---------------------------------------------------------------------
  // From a device to its root
  // ---------------------------------------------------------------------

  ghost predicate IsKid(t: Tree, f: Forest) {
    f.Cons? && (t == f.first || IsKid(t, f.rest))
  }

  /** Each tree of the path is embedded in the one before it. */
  ghost predicate IsPath(path: seq<Tree>) {
    path != [] && forall i | 0 <= i < |path| - 1 :: IsKid(path[i + 1], path[i].kids)
  }

  ghost predicate PathTo(path: seq<Tree>, t: Tree, target: Tree) {
    IsPath(path) && path[0] == t && path[|path| - 1] == target
  }

  lemma {:induction false} KidIsLinked(t: Tree, f: Forest, parent: DeviceObject)
    requires IsKid(t, f) && LinkedAll(f, parent)
    ensures Linked(t, parent)
  {
    if t != f.first {
      KidIsLinked(t, f.rest, parent);
    }
  }

  /** Along a path, every device's parent pointer leads to the device before it. */
  lemma {:induction false} PathIsLinked(path: seq<Tree>, i: nat)
    requires IsPath(path) && i < |path| && Linked(path[0], null)
    ensures Linked(path[i], if i == 0 then null else path[i - 1].dev)
  {
    if i > 0 {
      PathIsLinked(path, i - 1);
      assert IsKid(path[i - 1 + 1], path[i - 1].kids);
      KidIsLinked(path[i], path[i - 1].kids, path[i - 1].dev);
    }
  }

  /** What a search finds lies on a path from the root of the tree. */
  lemma {:induction false} FoundHasPath(t: Tree, udn: CString) returns (path: seq<Tree>)
    requires Found(t, udn).Some?
    ensures PathTo(path, t, Found(t, udn).value)
    decreases t
  {
    if StrEq(t.dev.node.udn, udn) {
      path := [t];
    } else {
      var kid, rest := FoundAmongHasPath(t.kids, udn);
      path := [t] + rest;
      forall i | 0 <= i < |path| - 1 ensures IsKid(path[i + 1], path[i].kids) {
        assert i > 0 ==> path[i] == rest[i - 1] && IsKid(rest[i - 1 + 1], rest[i - 1].kids);
      }
    }
  }

  lemma {:induction false} FoundAmongHasPath(f: Forest, udn: CString) returns (kid: Tree, path: seq<Tree>)
    requires FoundAmong(f, udn).Some?
    ensures IsKid(kid, f) && PathTo(path, kid, FoundAmong(f, udn).value)
    decreases f
  {
    if Found(f.first, udn).Some? {
      kid := f.first;
      path := FoundHasPath(f.first, udn);
    } else {
      kid, path := FoundAmongHasPath(f.rest, udn);
    }
  }

  /** `mupnp_device_getrootdevice` reaches the root from wherever in the tree it starts. */
  method GetRootDevice(dev: DeviceObject, ghost path: seq<Tree>) returns (rootDev: DeviceObject)
    requires IsPath(path) && path[|path| - 1].dev == dev && Linked(path[0], null)
    ensures rootDev == path[0].dev
  {
    rootDev := dev;
    ghost var i := |path| - 1;
    PathIsLinked(path, i);
    while rootDev.parent != null
      invariant 0 <= i < |path| && rootDev == path[i].dev && Linked(path[0], null)
      invariant Linked(path[i], if i == 0 then null else path[i - 1].dev)
      decreases i
    {
      rootDev := rootDev.parent;
      i := i - 1;
      PathIsLinked(path, i);
    }
  }

  // ---------------------------------------------------------------------
  // The list of roots
  // ---------------------------------------------------------------------

  ghost function HeadAt(trees: seq<Tree>, i: nat): DeviceObject? {
    if i < |trees| then trees[i].dev else null
  }

  ghost function AllDevs(trees: seq<Tree>): set<DeviceObject> {
    set i, o | 0 <= i < |trees| && o in Devs(trees[i]) :: o
  }

  ghost function AllKids(trees: seq<Tree>): set<DeviceObject> {
    set i, o | 0 <= i < |trees| && o in DevsOf(trees[i].kids) :: o
  }

  ghost function AllServs(trees: seq<Tree>): set<ServiceObject> {
    set i, o | 0 <= i < |trees| && o in Servs(trees[i]) :: o
  }

  /** No object is in two trees, or twice in one. */
  ghost predicate AllApart(trees: seq<Tree>) {
    && (forall i | 0 <= i < |trees| :: Separate(trees[i]))
    && (forall i, j | 0 <= i < j < |trees| :: Apart(trees[i], trees[j]))
  }

  /** Each tree is linked in itself and has no parent. */
  ghost predicate AllLinked(trees: seq<Tree>)
    reads AllDevs(trees)`parent, AllKids(trees)`next, AllDevs(trees)`services, AllDevs(trees)`devices
    reads AllServs(trees)`owner
  {
    && (forall i {:trigger Devs(trees[i])} {:trigger Servs(trees[i])} | 0 <= i < |trees| ::
          Devs(trees[i]) <= AllDevs(trees) && Servs(trees[i]) <= AllServs(trees) && DevsOf(trees[i].kids) <= AllKids(trees))
    && (forall i {:trigger Linked(trees[i], null)} | 0 <= i < |trees| :: Linked(trees[i], null))
  }

  /** The roots are linked to each other in this order. */
  ghost predicate Chained(first: DeviceObject?, trees: seq<Tree>)
    reads AllDevs(trees)`next
  {
    && first == HeadAt(trees, 0)
    && (forall i {:trigger trees[i].dev.next} | 0 <= i < |trees| ::
          trees[i].dev in AllDevs(trees) && trees[i].dev.next == HeadAt(trees, i + 1))
  }

  /** A root object with the description it holds. */
  ghost function RootValue(t: Tree): D.Root
    reads t.dev`rootNodes, t.dev`packet, t.dev`httpPort
    reads Devs(t)`node, Servs(t)`sid, Servs(t)`timeout, Servs(t)`timestamp, Servs(t)`eventKey
  {
    D.Root(t.dev.objectId, if t.dev.rootNodes.Some? then t.dev.rootNodes.value else 0, CachedValue(t.dev, t))
  }

  ghost function RootValues(trees: seq<Tree>): (r: seq<D.Root>)
    reads AllDevs(trees)`rootNodes, AllDevs(trees)`packet, AllDevs(trees)`httpPort, AllDevs(trees)`node
    reads AllServs(trees)`sid, AllServs(trees)`timeout, AllServs(trees)`timestamp, AllServs(trees)`eventKey
    ensures |r| == |trees| && forall i | 0 <= i < |r| :: r[i] == RootValue(trees[i])
  {
    if trees == [] then []
    else
      TailFootprint(trees);
      [RootValue(trees[0])] + RootValues(trees[1..])
  }

  lemma TailFootprint(trees: seq<Tree>)
    requires trees != []
    ensures Devs(trees[0]) <= AllDevs(trees) && Servs(trees[0]) <= AllServs(trees)
    ensures AllDevs(trees[1..]) <= AllDevs(trees) && AllServs(trees[1..]) <= AllServs(trees)
  {
    forall o | o in AllDevs(trees[1..]) ensures o in AllDevs(trees) {
      var i :| 0 <= i < |trees[1..]| && o in Devs(trees[1..][i]);
      assert o in Devs(trees[i + 1]);
    }
    forall o | o in AllServs(trees[1..]) ensures o in AllServs(trees) {
      var i :| 0 <= i < |trees[1..]| && o in Servs(trees[1..][i]);
      assert o in Servs(trees[i + 1]);
    }
  }

  // ---------------------------------------------------------------------
  // One root of the list
  // ---------------------------------------------------------------------

  ghost function Others(trees: seq<Tree>, i: nat): seq<Tree>
    requires i < |trees|
  {
    trees[..i] + trees[i + 1..]
  }

  lemma OthersAt(trees: seq<Tree>, i: nat)
    requires i < |trees|
    ensures |Others(trees, i)| == |trees| - 1
    ensures forall k | 0 <= k < |trees| - 1 :: Others(trees, i)[k] == trees[if k < i then k else k + 1]
  {
    WithoutAt(trees, i);
  }

  lemma TakeOut(trees: seq<Tree>, i: nat)
    requires i < |trees| && AllApart(trees) && AllLinked(trees)
    ensures AllLinked(Others(trees, i)) && Linked(trees[i], null) && Separate(trees[i])
    ensures Untouched(Others(trees, i), Devs(trees[i]), Servs(trees[i]))
    ensures RootValues(Others(trees, i)) == RootValues(trees)[..i] + RootValues(trees)[i + 1..]
  {
    hide Linked, Separate, Devs, DevsOf, Servs, RootValues, Others, AllDevs, AllKids, AllServs;
    OthersAt(trees, i);
    var others := Others(trees, i);
    OwnFootprint(others);
    ValuesOfOthers(trees, i);
    forall k | 0 <= k < |others|
      ensures Linked(others[k], null) && Devs(others[k]) !! Devs(trees[i]) && Servs(others[k]) !! Servs(trees[i])
    {
      var m := if k < i then k else k + 1;
      assert Linked(trees[m], null) && (if m < i then Apart(trees[m], trees[i]) else Apart(trees[i], trees[m]));
    }
  }

  lemma ValuesOfOthers(trees: seq<Tree>, i: nat)
    requires i < |trees|
    ensures RootValues(Others(trees, i)) == RootValues(trees)[..i] + RootValues(trees)[i + 1..]
  {
    hide RootValues, RootValue, Others;
    OthersAt(trees, i);
    var values := RootValues(trees);
    WithoutAt(values, i);
    var values' := values[..i] + values[i + 1..];
    forall k | 0 <= k < |values'| ensures RootValues(Others(trees, i))[k] == values'[k] {
      assert values'[k] == values[if k < i then k else k + 1];
    }
    assert RootValues(Others(trees, i)) == values';
  }

  lemma OthersApart(trees: seq<Tree>, i: nat)
    requires i < |trees| && AllApart(trees)
    ensures AllApart(Others(trees, i))
  {
    hide Separate, Apart;
    OthersAt(trees, i);
    forall j, k | 0 <= j < k < |Others(trees, i)| ensures Apart(Others(trees, i)[j], Others(trees, i)[k]) {
      assert Apart(trees[if j < i then j else j + 1], trees[if k < i then k else k + 1]);
    }
  }

  lemma OwnFootprint(trees: seq<Tree>)
    ensures forall i | 0 <= i < |trees| :: Devs(trees[i]) <= AllDevs(trees) && Servs(trees[i]) <= AllServs(trees)
    ensures forall i | 0 <= i < |trees| :: DevsOf(trees[i].kids) <= AllKids(trees)
  {
    hide Devs, DevsOf, Servs;
  }

  lemma PutBack(trees: seq<Tree>, i: nat, t: Tree, values: seq<D.Root>)
    requires i < |trees| == |values| && AllLinked(Others(trees, i)) && Linked(t, null)
    requires RootValues(Others(trees, i)) == values[..i] + values[i + 1..]
    ensures AllLinked(trees[i := t]) && RootValues(trees[i := t]) == values[i := RootValue(t)]
  {
    hide Linked, Devs, Servs, RootValues, RootValue, AllDevs, AllServs;
    OthersAt(trees, i);
    var others, trees' := Others(trees, i), trees[i := t];
    OwnFootprint(trees');
    forall k | 0 <= k < |trees'| ensures Linked(trees'[k], null) && RootValue(trees'[k]) == values[i := RootValue(t)][k] {
      if k != i {
        var m := if k < i then k else k - 1;
        assert others[m] == trees'[k] && Linked(others[m], null);
        assert RootValues(others)[m] == (values[..i] + values[i + 1..])[m];
      }
    }
    assert RootValues(trees') == values[i := RootValue(t)];
  }

  /** The candidate's objects are in no tree of the list. */
  ghost predicate IsNew(t: Tree, trees: seq<Tree>) {
    Separate(t) && forall i | 0 <= i < |trees| :: Apart(trees[i], t)
  }

  lemma BothOutOf(trees: seq<Tree>, i: nat, tc: Tree)
    requires i < |trees| && AllApart(trees) && IsNew(tc, trees)
    ensures Apart(trees[i], tc)
    ensures Untouched(Others(trees, i), Devs(trees[i]) + Devs(tc), Servs(trees[i]) + Servs(tc))
  {
    hide Separate, Devs, Servs;
    OthersAt(trees, i);
    var others := Others(trees, i);
    forall k | 0 <= k < |others|
      ensures Devs(others[k]) !! Devs(trees[i]) + Devs(tc) && Servs(others[k]) !! Servs(trees[i]) + Servs(tc)
    {
      var m := if k < i then k else k + 1;
      assert Apart(trees[m], tc) && (if m < i then Apart(trees[m], trees[i]) else Apart(trees[i], trees[m]));
    }
  }

  lemma ReplacedApart(trees: seq<Tree>, i: nat, t: Tree, devs: set<DeviceObject>, servs: set<ServiceObject>)
    requires i < |trees| && AllApart(trees) && Untouched(Others(trees, i), devs, servs)
    requires Separate(t) && Devs(t) <= devs && Servs(t) <= servs
    ensures AllApart(trees[i := t])
  {
    hide Separate, Devs, Servs;
    OthersAt(trees, i);
    var others, trees' := Others(trees, i), trees[i := t];
    forall j, k | 0 <= j < k < |trees'| ensures Apart(trees'[j], trees'[k]) {
      if j == i {
        assert others[k - 1] == trees[k];
      } else if k == i {
        assert others[j] == trees[j];
      } else {
        assert Apart(trees[j], trees[k]);
      }
    }
  }

  /** After the two trees changed hands, both are as far from the others as they were. */
  lemma NewRootApart(trees: seq<Tree>, i: nat, ad: Tree, ac: Tree, td: Tree, tc: Tree)
    requires i < |trees| && AllApart(trees) && Apart(ad, ac)
    requires Untouched(Others(trees, i), Devs(td) + Devs(tc), Servs(td) + Servs(tc))
    requires Devs(ad) + Devs(ac) == Devs(td) + Devs(tc) && Servs(ad) + Servs(ac) == Servs(td) + Servs(tc)
    ensures AllApart(trees[i := ad]) && IsNew(ac, trees[i := ad])
  {
    hide Separate, Devs, Servs, AllApart, Untouched;
    assert Devs(ad) <= Devs(ad) + Devs(ac) && Servs(ad) <= Servs(ad) + Servs(ac);
    ReplacedApart(trees, i, ad, Devs(td) + Devs(tc), Servs(td) + Servs(tc));
    var trees' := trees[i := ad];
    forall k | 0 <= k < |trees'| ensures Apart(trees'[k], ac) {
      if k != i {
        OtherIsApart(trees, i, k, ac, Devs(td) + Devs(tc), Servs(td) + Servs(tc));
      }
    }
  }

  lemma OtherIsApart(trees: seq<Tree>, i: nat, k: nat, t: Tree, devs: set<DeviceObject>, servs: set<ServiceObject>)
    requires i < |trees| && k < |trees| && k != i && AllApart(trees) && Untouched(Others(trees, i), devs, servs)
    requires Separate(t) && Devs(t) <= devs && Servs(t) <= servs
    ensures Apart(trees[k], t)
  {
    hide Separate, Devs, Servs;
    OthersAt(trees, i);
    assert Others(trees, i)[if k < i then k else k - 1] == trees[k];
  }

  lemma SameHeads(first: DeviceObject?, trees: seq<Tree>, i: nat, t: Tree)
    requires i < |trees| && Chained(first, trees) && t.dev == trees[i].dev
    ensures Chained(first, trees[i := t])
  {
    hide AllDevs, Devs, Chained, HeadAt;
    var trees' := trees[i := t];
    assert first == HeadAt(trees, 0) by { FirstOfChain(first, trees); }
    SameHeadAt(trees, i, t, 0);
    forall k | 0 <= k < |trees'| ensures NextIs(trees', k) {
      NextOfHead(first, trees, k);
      SameHeadAt(trees, i, t, k + 1);
    }
    ChainedIf(first, trees');
  }

  ghost predicate NextIs(trees: seq<Tree>, k: nat)
    requires k < |trees|
    reads trees[k].dev`next
  {
    trees[k].dev.next == HeadAt(trees, k + 1)
  }

  lemma ChainedIf(first: DeviceObject?, trees: seq<Tree>)
    requires first == HeadAt(trees, 0) && forall k {:trigger NextIs(trees, k)} | 0 <= k < |trees| :: NextIs(trees, k)
    ensures Chained(first, trees)
  {
    OwnFootprint(trees);
    hide AllDevs, Devs, HeadAt;
    forall k | 0 <= k < |trees| ensures trees[k].dev in AllDevs(trees) && trees[k].dev.next == HeadAt(trees, k + 1) {
      FootprintOf(trees[k]);
      assert NextIs(trees, k);
    }
  }

  lemma FirstOfChain(first: DeviceObject?, trees: seq<Tree>)
    requires Chained(first, trees)
    ensures first == HeadAt(trees, 0)
  {
  }

  lemma NextOfHead(first: DeviceObject?, trees: seq<Tree>, k: nat)
    requires k < |trees| && Chained(first, trees)
    ensures trees[k].dev.next == HeadAt(trees, k + 1)
  {
    hide AllDevs;
  }

  lemma SameHeadAt(trees: seq<Tree>, i: nat, t: Tree, k: nat)
    requires i < |trees| && t.dev == trees[i].dev
    ensures HeadAt(trees[i := t], k) == HeadAt(trees, k)
  {
  }

  ghost predicate DistinctHeads(trees: seq<Tree>) {
    forall i, j | 0 <= i < j < |trees| :: trees[i].dev != trees[j].dev
  }

  lemma JoinedAt(trees: seq<Tree>, t: Tree)
    ensures forall k | 0 <= k < |trees| + 1 :: (trees + [t])[k] == if k < |trees| then trees[k] else t
  {
  }

  /** The list with one more tree, which is not linked to it yet. */
  lemma JoinedApart(trees: seq<Tree>, t: Tree)
    requires AllApart(trees) && IsNew(t, trees)
    ensures AllApart(trees + [t])
  {
    hide Separate, Devs, Servs;
    JoinedAt(trees, t);
    var all := trees + [t];
    forall j, k | 0 <= j < k < |all| ensures Apart(all[j], all[k]) {
      if k < |trees| {
        assert Apart(trees[j], trees[k]);
      } else {
        assert Apart(trees[j], t);
      }
    }
  }

  lemma JoinedLinked(trees: seq<Tree>, t: Tree)
    requires AllLinked(trees) && Linked(t, null)
    ensures AllLinked(trees + [t]) && RootValues(trees + [t]) == RootValues(trees) + [RootValue(t)]
  {
    hide Linked, Devs, DevsOf, Servs, RootValues, RootValue, AllDevs, AllKids, AllServs;
    JoinedAt(trees, t);
    OwnFootprint(trees + [t]);
    forall k | 0 <= k < |trees + [t]| ensures Linked((trees + [t])[k], null) {
      assert k < |trees| ==> Linked(trees[k], null);
    }
  }

  /** Roots are embedded in no tree, and no root is in the list twice. */
  lemma RootsAreNoKids(trees: seq<Tree>)
    requires AllApart(trees)
    ensures DistinctHeads(trees) && forall k | 0 <= k < |trees| :: trees[k].dev !in AllKids(trees)
  {
    hide Servs;
    forall i, j | 0 <= i < |trees| && 0 <= j < |trees|
      ensures trees[i].dev !in DevsOf(trees[j].kids) && (i < j ==> trees[i].dev != trees[j].dev)
    {
      if i == j {
        assert Separate(trees[i]);
      } else {
        assert if i < j then Apart(trees[i], trees[j]) else Apart(trees[j], trees[i]);
        FootprintOf(trees[i]);
        FootprintOf(trees[j]);
      }
    }
  }

  lemma RootsInFootprint(trees: seq<Tree>)
    ensures forall k | 0 <= k < |trees| :: trees[k].dev in AllDevs(trees)
  {
    OwnFootprint(trees);
    forall k | 0 <= k < |trees| ensures trees[k].dev in AllDevs(trees) {
      FootprintOf(trees[k]);
    }
  }

  ghost function HeadsOf(trees: seq<Tree>): set<DeviceObject> {
    set i | 0 <= i < |trees| :: trees[i].dev
  }

  lemma HeadsAreHeads(trees: seq<Tree>)
    ensures forall i | 0 <= i < |trees| :: trees[i].dev in HeadsOf(trees)
  {
  }

  ghost function FirstValue(trees: seq<Tree>): Option<D.Root>
    reads AllDevs(trees)`rootNodes, AllDevs(trees)`packet, AllDevs(trees)`httpPort, AllDevs(trees)`node
    reads AllServs(trees)`sid, AllServs(trees)`timeout, AllServs(trees)`timestamp, AllServs(trees)`eventKey
  {
    if trees == [] then None
    else
      TailFootprint(trees);
      Some(RootValue(trees[0]))
  }

  lemma CandidateFacts(trees: seq<Tree>)
    ensures trees != [] ==>
      && Devs(trees[0]) <= AllDevs(trees) && Servs(trees[0]) <= AllServs(trees) && trees[0].dev in Devs(trees[0])
      && RootValue(trees[0]).dev.tree.node == trees[0].dev.node
  {
    if trees != [] {
      TailFootprint(trees);
    }
  }

  lemma NothingLinked()
    ensures AllLinked([])
  {
  }

  ghost predicate AllNew(candidates: seq<Tree>, trees: seq<Tree>) {
    forall k | 0 <= k < |candidates| :: IsNew(candidates[k], trees)
  }

  lemma FieldsOfRoot(trees: seq<Tree>, i: nat)
    requires i < |trees|
    ensures RootValues(trees)[i].dev.packet == trees[i].dev.packet
    ensures RootValues(trees)[i].dev.tree.node == trees[i].dev.node
  {
    hide RootValues;
  }

  lemma FoundIffHas(t: Tree, udn: string)
    requires Linked(t, null)
    ensures t.dev.parent == null
    ensures Found(t, Some(udn)).Some? <==> D.TreeHas(RootValue(t).dev.tree, udn)
  {
    FoundIsFind(t, Some(udn));
  }

  /** Trees that an operation on other objects must leave alone. */
  ghost predicate Untouched(others: seq<Tree>, devs: set<DeviceObject>, servs: set<ServiceObject>) {
    && (forall k | 0 <= k < |others| :: Devs(others[k]) !! devs)
    && (forall k | 0 <= k < |others| :: Servs(others[k]) !! servs)
  }

  /** `mupnp_device_setssdppacket` on a root of the list. */
  method SetPacket(rootDev: DeviceObject, packet: Packet, ghost t: Tree, ghost others: seq<Tree>)
    requires t.dev == rootDev && Linked(t, null) && Separate(t) && AllLinked(others)
    requires Untouched(others, Devs(t), Servs(t))
    modifies rootDev`packet
    ensures Linked(t, null) && AllLinked(others) && RootValues(others) == old(RootValues(others))
    ensures var r := old(RootValue(t)); RootValue(t) == r.(dev := r.dev.(packet := packet))
  {
    hide AllDevs, AllServs, Devs, Servs, Untouched, RootValues, AllLinked, Linked, Value, Separate;
    assert allocated(AllDevs(others)) && allocated(AllServs(others));
    FootprintsApart(others, Devs(t), Servs(t));
    FootprintOf(t);
    rootDev.packet := packet;
  }

  /** Pruning one root; the rest of the list is left alone. */
  method PruneRoot(rootDev: DeviceObject, udn: string, ghost t: Tree, ghost others: seq<Tree>) returns (ghost nt: Tree)
    requires t.dev == rootDev && Linked(t, null) && Separate(t) && AllLinked(others)
    requires Untouched(others, Devs(t), Servs(t))
    modifies DevsOf(t.kids)`next, Devs(t)`devices
    ensures nt.dev == rootDev && Linked(nt, null) && Separate(nt) && Devs(nt) <= Devs(t) && Servs(nt) <= Servs(t)
    ensures AllLinked(others) && RootValues(others) == old(RootValues(others))
    ensures var r := old(RootValue(t)); RootValue(nt) == r.(dev := r.dev.(tree := D.Prune(r.dev.tree, udn)))
  {
    hide AllDevs, AllServs, Devs, DevsOf, Servs, Untouched, RootValues, AllLinked, Linked, Value, Separate, D.Prune;
    assert allocated(AllDevs(others)) && allocated(AllServs(others));
    FootprintsApart(others, Devs(t), Servs(t));
    FootprintOf(t);
    nt := PruneInPlace(rootDev, udn, null, t);
  }

  lemma FootprintsApart(others: seq<Tree>, devs: set<DeviceObject>, servs: set<ServiceObject>)
    requires Untouched(others, devs, servs)
    ensures AllDevs(others) !! devs && AllServs(others) !! servs && AllKids(others) <= AllDevs(others)
  {
    forall o | o in AllKids(others) ensures o in AllDevs(others) {
      var i :| 0 <= i < |others| && o in DevsOf(others[i].kids);
      assert o in Devs(others[i]);
    }
  }

  /** `mupnp_device_updatefromdevice` on a root of the list; the rest of the list is left alone. */
  method UpdateRoot(rootDev: DeviceObject, candidate: DeviceObject, packet: Packet,
                    ghost td: Tree, ghost tc: Tree, ghost others: seq<Tree>)
    returns (ghost ad: Tree, ghost ac: Tree)
    requires td.dev == rootDev && Linked(td, null) && tc.dev == candidate && Linked(tc, null) && Apart(td, tc)
    requires AllLinked(others) && Untouched(others, Devs(td) + Devs(tc), Servs(td) + Servs(tc))
    modifies rootDev`node, rootDev`rootNodes, rootDev`devices, rootDev`services, rootDev`icons, rootDev`packet, rootDev`httpPort
    modifies candidate`node, candidate`rootNodes, candidate`devices, candidate`services, candidate`icons
    modifies Devs(td)`parent, Devs(tc)`parent, Servs(td), Servs(tc)
    ensures Linked(ad, null) && Linked(ac, null) && Apart(ad, ac) && ad.dev == rootDev && ac.dev == candidate
    ensures Devs(ad) + Devs(ac) == Devs(td) + Devs(tc) && Servs(ad) + Servs(ac) == Servs(td) + Servs(tc)
    ensures AllLinked(others) && RootValues(others) == old(RootValues(others))
    ensures (RootValue(ad), RootValue(ac)) == old(D.UpdateRoot(RootValue(td), RootValue(tc), packet))
  {
    hide AllDevs, AllServs, Untouched, RootValues, AllLinked, Linked, Value, Separate, Apart, Devs, Servs, HeadSet;
    hide T.CopySubscriptions, T.SameStructure;
    assert allocated(AllDevs(others)) && allocated(AllServs(others));
    FootprintsApart(others, Devs(td) + Devs(tc), Servs(td) + Servs(tc));
    FootprintOf(td);
    FootprintOf(tc);
    ApartFootprints(td, tc);
    NoParent(td);
    NoParent(tc);
    RehomedFootprint(td, tc);
    var ok;
    ok, ad, ac := UpdateFromDeviceInPlace(rootDev, candidate, packet, td, tc);
  }

  lemma RehomedFootprint(td: Tree, tc: Tree)
    ensures Devs(Rehomed(tc, td.dev)) + Devs(Rehomed(td, tc.dev)) == Devs(td) + Devs(tc)
    ensures Servs(Rehomed(tc, td.dev)) + Servs(Rehomed(td, tc.dev)) == Servs(td) + Servs(tc)
  {
  }

  lemma NoParent(t: Tree)
    requires Linked(t, null)
    ensures t.dev.parent == null
  {
  }

  lemma FootprintOf(t: Tree)
    ensures t.dev in Devs(t) && DevsOf(t.kids) <= Devs(t) && HeadSet(t.kids) <= Devs(t)
    ensures SetOf(t.services) <= Servs(t)
  {
  }

  class DeviceCache {
    /** The head of the list of root devices. */
    var deviceList: DeviceObject?
    /** Their trees, in list order. */
    ghost var trees: seq<Tree>

    constructor ()
      ensures Valid() && trees == []
    {
      deviceList, trees := null, [];
    }

    ghost predicate Valid()
      reads this, AllDevs(trees), AllKids(trees)`next, AllServs(trees)`owner
    {
      Chained(deviceList, trees) && AllLinked(trees) && AllApart(trees)
    }

    /** The root list that the objects stand for. */
    ghost function Roots(): seq<D.Root>
      reads this, AllDevs(trees)`rootNodes, AllDevs(trees)`packet, AllDevs(trees)`httpPort, AllDevs(trees)`node
      reads AllServs(trees)`sid, AllServs(trees)`timeout, AllServs(trees)`timestamp, AllServs(trees)`eventKey
    {
      RootValues(trees)
    }

    /** `mupnp_controlpoint_getdevicebyudn` and `mupnp_device_getrootdevice`. */
    method GetRootDeviceByUdn(udn: string) returns (rootDev: DeviceObject?, ghost index: Option<nat>)
      requires Valid()
      ensures index == old(D.RootIndex(Roots(), udn))
      ensures if index.Some? then rootDev == trees[index.value].dev else rootDev == null
    {
      hide Linked, Value, Separate, Apart, AllApart, AllDevs, AllServs, RootValues, RootValue, Found, D.TreeHas, D.RootIndex;
      var dev := deviceList;
      ghost var i, roots := 0, Roots();
      while dev != null
        invariant Valid() && i <= |trees| && dev == HeadAt(trees, i) && Roots() == roots
        invariant forall j | 0 <= j < i :: !D.TreeHas(roots[j].dev.tree, udn)
        decreases |trees| - i
      {
        ghost var t := trees[i];
        FoundIffHas(t, udn);
        assert roots[i] == RootValue(t);
        var found := FindByUdnInTree(dev, Some(udn), t);
        if found != null {
          ghost var path := FoundHasPath(t, Some(udn));
          rootDev := GetRootDevice(found, path);
          index := Some(i);
          return;
        }
        assert trees[i].dev.next == HeadAt(trees, i + 1);
        dev := dev.next;
        i := i + 1;
      }
      rootDev, index := null, None;
    }

    /** The same, for a caller that has a candidate at hand. */
    method LookUp(udn: string, ghost candidates: seq<Tree>) returns (rootDev: DeviceObject?, ghost index: Option<nat>)
      requires Valid() && AllLinked(candidates)
      ensures Valid() && Roots() == old(Roots()) && AllLinked(candidates) && FirstValue(candidates) == old(FirstValue(candidates))
      ensures index == D.RootIndex(Roots(), udn)
      ensures if index.Some? then rootDev == trees[index.value].dev else rootDev == null
    {
      hide Chained, AllLinked, AllApart, RootValues, AllDevs, AllKids, AllServs, FirstValue;
      assert allocated(AllDevs(candidates)) && allocated(AllServs(candidates)) && allocated(AllKids(candidates));
      assert allocated(AllDevs(trees)) && allocated(AllServs(trees)) && allocated(AllKids(trees));
      rootDev, index := GetRootDeviceByUdn(udn);
    }

    /** The refresh of `mupnp_controlpoint_fetchdevice`: the root's packet is replaced, nothing else. */
    method RefreshRoot(rootDev: DeviceObject, packet: Packet, ghost i: nat)
      requires Valid() && i < |trees| && trees[i].dev == rootDev
      modifies rootDev`packet
      ensures Valid()
      ensures var r := old(Roots())[i]; Roots() == old(Roots())[i := r.(dev := r.dev.(packet := packet))]
    {
      hide RootValue, AllLinked, AllApart, Linked, Separate, Devs, Servs, RootValues, AllDevs, AllServs, Chained, Others, Untouched;
      assert allocated(AllDevs(trees)) && allocated(AllServs(trees));
      ghost var values := Roots();
      TakeOut(trees, i);
      assert values[i] == RootValue(trees[i]);
      SetPacket(rootDev, packet, trees[i], Others(trees, i));
      PutBack(trees, i, trees[i], values);
      assert trees[i := trees[i]] == trees;
    }

    /** `mupnp_device_updatefromdevice` on the root at position `i`. */
    method UpdateRootAt(rootDev: DeviceObject, candidate: DeviceObject, packet: Packet, ghost i: nat, ghost tc: Tree)
      returns (ghost ac: Tree)
      requires Valid() && i < |trees| && trees[i].dev == rootDev
      requires tc.dev == candidate && Linked(tc, null) && IsNew(tc, trees)
      modifies this`trees
      modifies rootDev`node, rootDev`rootNodes, rootDev`devices, rootDev`services, rootDev`icons, rootDev`packet, rootDev`httpPort
      modifies candidate`node, candidate`rootNodes, candidate`devices, candidate`services, candidate`icons
      modifies Devs(trees[i])`parent, Devs(tc)`parent, Servs(trees[i]), Servs(tc)
      ensures Valid() && |trees| == old(|trees|) && trees[i].dev == rootDev
      ensures Linked(ac, null) && ac.dev == candidate && IsNew(ac, trees)
      ensures var (updated, rest) := old(D.UpdateRoot(RootValue(trees[i]), RootValue(tc), packet));
              Roots() == old(Roots())[i := updated] && RootValue(ac) == rest
    {
      hide RootValue, AllLinked, AllApart, Linked, Separate, Apart, Devs, Servs, RootValues, AllDevs, AllServs, Chained;
      hide Others, Untouched, IsNew, D.UpdateRoot;
      assert allocated(AllDevs(trees)) && allocated(AllServs(trees));
      ghost var values, td := Roots(), trees[i];
      TakeOut(trees, i);
      BothOutOf(trees, i, tc);
      ghost var ad;
      ad, ac := UpdateRoot(rootDev, candidate, packet, td, tc, Others(trees, i));
      PutBack(trees, i, ad, values);
      SameHeads(deviceList, trees, i, ad);
      NewRootApart(trees, i, ad, ac, td, tc);
      ghost var trees' := trees[i := ad];
      assert allocated(AllDevs(trees')) && allocated(AllServs(trees')) && allocated(Devs(ac)) && allocated(Servs(ac));
      trees := trees';
    }

    /** `mupnp_devicelist_add` */
    method AddDevice(candidate: DeviceObject, ghost tc: Tree)
      requires Valid() && tc.dev == candidate && Linked(tc, null) && IsNew(tc, trees)
      modifies this, AllDevs(trees)`next, candidate`next
      ensures Valid() && trees == old(trees) + [tc]
      ensures Roots() == old(Roots() + [RootValue(tc)])
    {
      hide RootValue, AllLinked, AllApart, Linked, Separate, Apart, Devs, DevsOf, Servs, RootValues;
      hide AllDevs, AllKids, AllServs, Chained, IsNew, HeadAt, DistinctHeads;
      ghost var all := trees + [tc];
      JoinedApart(trees, tc);
      JoinedLinked(trees, tc);
      JoinedAt(trees, tc);
      RootsAreNoKids(all);
      RootsInFootprint(trees);
      RootsInFootprint(all);
      assert allocated(AllDevs(all)) && allocated(AllKids(all)) && allocated(AllServs(all));
      AddToChain(candidate, tc);
      trees := all;
    }

    /** The list operation itself. */
    method AddToChain(candidate: DeviceObject, ghost tc: Tree)
      requires Chained(deviceList, trees) && tc.dev == candidate && DistinctHeads(trees + [tc])
      modifies this`deviceList, HeadsOf(trees + [tc])`next
      ensures Chained(deviceList, trees + [tc])
    {
      hide AllDevs;
      ghost var all := trees + [tc];
      JoinedAt(trees, tc);
      HeadsAreHeads(all);
      if deviceList == null {
        assert trees == [];
        deviceList := candidate;
        candidate.next := null;
      } else {
        var last := LastDevice();
        assert all[|trees| - 1].dev == last && all[|trees|].dev == candidate;
        forall k | 0 <= k < |trees| ensures NextIs(trees, k) {
          NextOfHead(deviceList, trees, k);
        }
        last.next := candidate;
        candidate.next := null;
        forall k | 0 <= k < |all| ensures NextIs(all, k) {
          assert k < |trees| - 1 ==> all[k].dev != last && all[k].dev != candidate && all[k + 1] == trees[k + 1];
        }
      }
      ChainedIf(deviceList, all);
    }

    method LastDevice() returns (last: DeviceObject)
      requires Chained(deviceList, trees) && deviceList != null
      ensures Chained(deviceList, trees) && |trees| > 0 && last == trees[|trees| - 1].dev
    {
      hide AllDevs;
      last := deviceList;
      ghost var i := 0;
      while last.next != null
        invariant i < |trees| && last == trees[i].dev && Chained(deviceList, trees)
        decreases |trees| - i
      {
        NextOfHead(deviceList, trees, i);
        last := last.next;
        i := i + 1;
      }
      NextOfHead(deviceList, trees, i);
    }

    /** `mupnp_list_remove` on the root at position `i`. */
    method UnlinkRoot(rootDev: DeviceObject, ghost i: nat)
      requires Valid() && i < |trees| && trees[i].dev == rootDev
      modifies this, AllDevs(trees)`next
      ensures Valid() && trees == Others(old(trees), i)
      ensures Roots() == old(Roots()[..i] + Roots()[i + 1..])
    {
      hide RootValue, AllLinked, AllApart, Linked, Separate, Apart, Devs, DevsOf, Servs, RootValues;
      hide AllDevs, AllKids, AllServs, Chained, HeadAt, DistinctHeads, Others, Untouched;
      RootsAreNoKids(trees);
      RootsInFootprint(trees);
      assert allocated(AllDevs(trees)) && allocated(AllKids(trees)) && allocated(AllServs(trees));
      UnlinkFromChain(rootDev, i);
      TakeOut(trees, i);
      OthersApart(trees, i);
      trees := Others(trees, i);
    }

    /** The list operation itself. */
    method UnlinkFromChain(rootDev: DeviceObject, ghost i: nat)
      requires Chained(deviceList, trees) && i < |trees| && trees[i].dev == rootDev && DistinctHeads(trees)
      modifies this`deviceList, HeadsOf(trees)`next
      ensures Chained(deviceList, Others(trees, i))
    {
      hide AllDevs, Others;
      var previous := PreviousDevice(rootDev, i);
      OthersAt(trees, i);
      HeadsAreHeads(trees);
      ghost var others := Others(trees, i);
      forall k | 0 <= k < |trees| ensures NextIs(trees, k) {
        NextOfHead(deviceList, trees, k);
      }
      assert NextIs(trees, i);
      if previous == null {
        deviceList := rootDev.next;
      } else {
        previous.next := rootDev.next;
      }
      forall k | 0 <= k < |others| ensures NextIs(others, k) {
        assert old(NextIs(trees, if k < i then k else k + 1));
        assert k != i - 1 ==> others[k].dev != previous;
      }
      ChainedIf(deviceList, others);
    }

    /** The device whose link leads to this one. */
    method PreviousDevice(rootDev: DeviceObject, ghost i: nat) returns (previous: DeviceObject?)
      requires Chained(deviceList, trees) && i < |trees| && trees[i].dev == rootDev && DistinctHeads(trees)
      ensures Chained(deviceList, trees)
      ensures previous == if i == 0 then null else trees[i - 1].dev
    {
      hide AllDevs;
      previous := null;
      var dev := deviceList;
      ghost var n := 0;
      while dev != rootDev
        invariant n <= i && dev == trees[n].dev && Chained(deviceList, trees)
        invariant previous == if n == 0 then null else trees[n - 1].dev
        decreases i - n
      {
        NextOfHead(deviceList, trees, n);
        previous, dev := dev, dev.next;
        n := n + 1;
      }
    }

    /** Deleting a device embedded in the root at position `i`. */
    method PruneRootAt(rootDev: DeviceObject, udn: string, ghost i: nat)
      requires Valid() && i < |trees| && trees[i].dev == rootDev
      modifies this`trees, AllDevs(trees)`next, AllDevs(trees)`devices
      ensures Valid()
      ensures var r := old(Roots())[i]; Roots() == old(Roots())[i := r.(dev := r.dev.(tree := D.Prune(r.dev.tree, udn)))]
    {
      hide RootValue, AllLinked, AllApart, Linked, Separate, Apart, Devs, DevsOf, Servs, RootValues;
      hide AllDevs, AllKids, AllServs, Chained, HeadAt, DistinctHeads, Others, Untouched, D.Prune;
      ghost var values, td := Roots(), trees[i];
      OwnFootprint(trees);
      FootprintOf(td);
      RootsAreNoKids(trees);
      forall k | 0 <= k < |trees| ensures NextIs(trees, k) {
        NextOfHead(deviceList, trees, k);
      }
      FirstOfChain(deviceList, trees);
      TakeOut(trees, i);
      assert allocated(AllDevs(trees)) && allocated(AllServs(trees));
      ghost var nt := PruneRoot(rootDev, udn, td, Others(trees, i));
      ChainedIf(deviceList, trees);
      PutBack(trees, i, nt, values);
      SameHeads(deviceList, trees, i, nt);
      ReplacedApart(trees, i, nt, Devs(td), Servs(td));
      trees := trees[i := nt];
    }

    /** `mupnp_device_delete` on the first device with the UDN; whether it was a root. */
    method Remove(udn: string) returns (ghost deleted: Option<D.Root>)
      requires Valid()
      modifies this, AllDevs(trees)`next, AllDevs(trees)`devices
      ensures Valid() && (Roots(), deleted) == D.RemoveFrom(old(Roots()), udn)
    {
      hide RootValue, AllLinked, AllApart, RootValues, AllDevs, AllKids, AllServs, Chained, D.RootIndex, D.Prune;
      NothingLinked();
      var rootDev, index := LookUp(udn, []);
      deleted := None;
      if rootDev != null {
        FieldsOfRoot(trees, index.value);
        if StrEq(rootDev.node.udn, Some(udn)) {
          deleted := Some(Roots()[index.value]);
          UnlinkRoot(rootDev, index.value);
        } else {
          PruneRootAt(rootDev, udn, index.value);
        }
      }
    }

    /** `mupnp_devicelist_clear` */
    method Clear()
      modifies this
      ensures Valid() && Roots() == []
    {
      deviceList, trees := null, [];
    }

    method CommitUpdate(dev: DeviceObject, candidate: DeviceObject, packet: Packet, ghost i: nat, ghost candidates: seq<Tree>)
      returns (leftover: DeviceObject, ghost rest: seq<Tree>)
      requires Valid() && i < |trees| && trees[i].dev == dev && |candidates| == 1 && candidates[0].dev == candidate
      requires AllLinked(candidates) && AllNew(candidates, trees)
      modifies this`trees, AllDevs(trees), AllServs(trees), AllDevs(candidates), AllServs(candidates)
      ensures Valid() && |rest| == 1 && leftover == rest[0].dev && AllLinked(rest) && AllNew(rest, trees)
      ensures var (updated, other) := old(D.UpdateRoot(Roots()[i], FirstValue(candidates).value, packet));
              Roots() == old(Roots())[i := updated] && FirstValue(rest) == Some(other)
    {
      hide RootValue, AllApart, Linked, Separate, Apart, Devs, DevsOf, Servs, RootValues;
      hide AllDevs, AllKids, AllServs, Chained, IsNew, D.UpdateRoot;
      CandidateFacts(candidates);
      OwnFootprint(trees);
      FootprintOf(trees[i]);
      ghost var ac := UpdateRootAt(dev, candidate, packet, i, candidates[0]);
      leftover, rest := candidate, [ac];
      OwnFootprint(rest);
    }

    method CommitAdd(candidate: DeviceObject, ghost candidates: seq<Tree>)
      requires Valid() && |candidates| == 1 && candidates[0].dev == candidate
      requires AllLinked(candidates) && AllNew(candidates, trees)
      modifies this, AllDevs(trees)`next, AllDevs(candidates)`next
      ensures Valid() && Roots() == old(Roots() + [FirstValue(candidates).value])
    {
      hide RootValue, AllApart, Linked, Separate, Apart, Devs, DevsOf, Servs, RootValues;
      hide AllDevs, AllKids, AllServs, Chained, IsNew;
      CandidateFacts(candidates);
      AddDevice(candidate, candidates[0]);
    }

    /**
     * The part of `mupnp_controlpoint_fetchdevice` that runs once the publish
     * test has passed. `candidates` has the candidate's tree, or is empty;
     * `rest` is that of the candidate object which the call then deletes.
     */
    method CommitDevice(call: D.Call, candidate: DeviceObject?, ghost candidates: seq<Tree>)
      returns (publish: bool, status: D.Status, leftover: DeviceObject?, ghost rest: seq<Tree>)
      requires Valid() && candidate == HeadAt(candidates, 0) && |candidates| <= 1
      requires AllLinked(candidates) && AllNew(candidates, trees)
      modifies this, AllDevs(trees), AllServs(trees), AllDevs(candidates), AllServs(candidates)
      ensures Valid() && leftover == HeadAt(rest, 0) && |rest| <= 1
      ensures AllLinked(rest) && AllNew(rest, trees)
      ensures var (roots, outcome) := old(D.CommitRoots(Roots(), call, FirstValue(candidates)));
              Roots() == roots && outcome == D.Outcome(publish, status, FirstValue(rest))
    {
      hide RootValue, AllLinked, AllApart, Linked, Separate, Apart, Devs, DevsOf, Servs, RootValues;
      hide AllDevs, AllKids, AllServs, Chained, IsNew, D.UpdateRoot, D.RootIndex;
      publish, status, leftover, rest := true, D.Invalid, candidate, candidates;
      ghost var roots, value := Roots(), FirstValue(candidates);
      CandidateFacts(candidates);
      var dev, index := LookUp(call.packet.udn, candidates);
      if dev != null {
        FieldsOfRoot(trees, index.value);
      }
      if dev != null && !StrEq(call.cachedLocation, dev.packet.location) {
        publish := false;
      } else if dev != null {
        if candidate != null {
          leftover, rest := CommitUpdate(dev, candidate, call.packet, index.value, candidates);
        }
        status := D.Updated;
      } else if candidate != null {
        var other, _ := LookUp(OrEmpty(candidate.node.udn), candidates);
        if other == null {
          CommitAdd(candidate, candidates);
          leftover, rest, status := null, [], D.Added;
          NothingLinked();
        } else {
          publish := false;
        }
      }
    }
  }
}