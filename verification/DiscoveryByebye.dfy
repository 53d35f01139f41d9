/** What a byebye takes out of the cache, and what it leaves. */
module DiscoveryByebye {
  import opened Sequences
  import opened Text
  import opened DeviceTree
  import opened Discovery
  import opened DiscoveryOutcomes

  // ---------------------------------------------------------------------
  // Trees as outlines
  // ---------------------------------------------------------------------

  /** A device without the ones embedded in it, and how deep it is embedded itself. */
  datatype Placed = Placed(depth: nat, node: DeviceNode, services: seq<Service>)

  /** The devices of a tree in document order, with their depths. */
  function Outline(d: Device, depth: nat): (r: seq<Placed>)
    ensures r != [] && r[0] == Placed(depth, d.node, d.services)
    decreases d, 1
  {
    [Placed(depth, d.node, d.services)] + OutlineAmong(d.children, depth + 1)
  }

  function OutlineAmong(ds: seq<Device>, depth: nat): seq<Placed>
    decreases ds, 0
  {
    if ds == [] then [] else Outline(ds[0], depth) + OutlineAmong(ds[1..], depth)
  }

  lemma {:induction false} OutlineIsDeeper(d: Device, depth: nat)
    ensures forall i | 0 < i < |Outline(d, depth)| :: Outline(d, depth)[i].depth > depth
    decreases d, 1
  {
    OutlineAmongIsDeep(d.children, depth + 1);
  }

  lemma {:induction false} OutlineAmongIsDeep(ds: seq<Device>, depth: nat)
    ensures forall p | p in OutlineAmong(ds, depth) :: p.depth >= depth
    decreases ds, 0
  {
    if ds != [] {
      OutlineIsDeeper(ds[0], depth);
      OutlineAmongIsDeep(ds[1..], depth);
    }
  }

  /** An outline is the whole tree: two trees with the same one are the same. */
  lemma {:induction false} OutlineDetermines(a: Device, b: Device, depth: nat)
    requires Outline(a, depth) == Outline(b, depth)
    ensures a == b
    decreases a, 1
  {
    var x, y := OutlineAmong(a.children, depth + 1), OutlineAmong(b.children, depth + 1);
    ConsEquality(x, y, Placed(depth, a.node, a.services), Placed(depth, b.node, b.services));
    OutlineAmongDetermines(a.children, b.children, depth + 1);
  }

  lemma {:induction false} OutlineAmongDetermines(a: seq<Device>, b: seq<Device>, depth: nat)
    requires OutlineAmong(a, depth) == OutlineAmong(b, depth)
    ensures a == b
    decreases a, 0
  {
    if a != [] && b != [] {
      var x, xs := Outline(a[0], depth), OutlineAmong(a[1..], depth);
      var y, ys := Outline(b[0], depth), OutlineAmong(b[1..], depth);
      OutlineIsDeeper(a[0], depth);
      OutlineIsDeeper(b[0], depth);
      OutlineAmongStarts(a[1..], depth);
      OutlineAmongStarts(b[1..], depth);
      SameSplit(x, xs, y, ys, depth);
      OutlineDetermines(a[0], b[0], depth);
      OutlineAmongDetermines(a[1..], b[1..], depth);
      assert a == [a[0]] + a[1..] && b == [b[0]] + b[1..];
    }
  }

  lemma OutlineAmongStarts(ds: seq<Device>, depth: nat)
    ensures OutlineAmong(ds, depth) != [] ==> OutlineAmong(ds, depth)[0].depth == depth
  {
  }

  /** How far the list stays deeper than this. */
  function Stretch(ps: seq<Placed>, depth: nat): (n: nat)
    ensures n <= |ps| && (n < |ps| ==> ps[n].depth <= depth) && forall i | 0 <= i < n :: ps[i].depth > depth
  {
    if ps == [] || ps[0].depth <= depth then 0 else 1 + Stretch(ps[1..], depth)
  }

  lemma StretchIs(x: seq<Placed>, xs: seq<Placed>, depth: nat)
    requires x != [] && (forall i | 0 < i < |x| :: x[i].depth > depth) && (xs != [] ==> xs[0].depth == depth)
    ensures Stretch((x + xs)[1..], depth) == |x| - 1
  {
    var rest := (x + xs)[1..];
    assert forall i | 0 <= i < |x| - 1 :: rest[i] == x[i + 1];
    assert xs != [] ==> rest[|x| - 1] == xs[0];
    hide Stretch;
  }

  /** A list of outlines can be cut after the first one in one way only: before the next device of that depth. */
  lemma SameSplit(x: seq<Placed>, xs: seq<Placed>, y: seq<Placed>, ys: seq<Placed>, depth: nat)
    requires x + xs == y + ys && x != [] && y != []
    requires forall i | 0 < i < |x| :: x[i].depth > depth
    requires forall i | 0 < i < |y| :: y[i].depth > depth
    requires (xs != [] ==> xs[0].depth == depth) && (ys != [] ==> ys[0].depth == depth)
    ensures x == y && xs == ys
  {
    var all := x + xs;
    StretchIs(x, xs, depth);
    StretchIs(y, ys, depth);
    assert x == all[..|x|] == (y + ys)[..|y|] == y;
    assert xs == all[|x|..] == (y + ys)[|y|..] == ys;
  }

  // ---------------------------------------------------------------------
  // Taking an embedded device out
  // ---------------------------------------------------------------------

  ghost predicate NoneHas(ps: seq<Placed>, udn: string) {
    forall p | p in ps :: p.node.udn != Some(udn)
  }

  /**
   * `after` is `before` without one stretch, the outline of a device with the
   * UDN and everything embedded in it; no device before that one has the UDN.
   */
  ghost predicate LosesFirst(before: seq<Placed>, after: seq<Placed>, gone: Device, udn: string) {
    gone.node.udn == Some(udn) && exists pre, post, depth: nat :: LosesAt(before, after, pre, post, gone, depth, udn)
  }

  ghost predicate LosesAt(before: seq<Placed>, after: seq<Placed>, pre: seq<Placed>, post: seq<Placed>,
                          gone: Device, depth: nat, udn: string) {
    before == pre + Outline(gone, depth) + post && after == pre + post && NoneHas(pre, udn)
  }

  lemma {:induction false} OutlineHasIff(d: Device, depth: nat, udn: string)
    requires udn != ""
    ensures NoneHas(Outline(d, depth), udn) <==> FindByUdn(d, Some(udn)).None?
    decreases d, 1
  {
    OutlineAmongHasIff(d.children, depth + 1, udn);
  }

  lemma {:induction false} OutlineAmongHasIff(ds: seq<Device>, depth: nat, udn: string)
    requires udn != ""
    ensures NoneHas(OutlineAmong(ds, depth), udn) <==> FindByUdnAmong(ds, Some(udn)).None?
    decreases ds, 0
  {
    if ds != [] {
      OutlineHasIff(ds[0], depth, udn);
      OutlineAmongHasIff(ds[1..], depth, udn);
    }
  }

  lemma {:induction false} PruneLoses(d: Device, udn: string, depth: nat)
    requires udn != "" && d.node.udn != Some(udn) && FindByUdnAmong(d.children, Some(udn)).Some?
    ensures LosesFirst(Outline(d, depth), Outline(Prune(d, udn), depth), FindByUdnAmong(d.children, Some(udn)).value, udn)
    decreases d, 1
  {
    hide LosesFirst;
    PruneAmongLoses(d.children, udn, depth + 1);
    LosesBehind([Placed(depth, d.node, d.services)], OutlineAmong(d.children, depth + 1),
                OutlineAmong(PruneAmong(d.children, udn), depth + 1), FindByUdnAmong(d.children, Some(udn)).value, udn);
  }

  lemma LosesBehind(front: seq<Placed>, before: seq<Placed>, after: seq<Placed>, gone: Device, udn: string)
    requires LosesFirst(before, after, gone, udn) && NoneHas(front, udn)
    ensures LosesFirst(front + before, front + after, gone, udn)
  {
    var pre, post, depth: nat :| LosesAt(before, after, pre, post, gone, depth, udn);
    var middle := Outline(gone, depth);
    ConcatAssociates(front, pre + middle, post);
    ConcatAssociates(front, pre, middle);
    ConcatAssociates(front, pre, post);
    hide Outline;
    assert LosesAt(front + before, front + after, front + pre, post, gone, depth, udn);
  }

  lemma LosesInFront(before: seq<Placed>, after: seq<Placed>, back: seq<Placed>, gone: Device, udn: string)
    requires LosesFirst(before, after, gone, udn)
    ensures LosesFirst(before + back, after + back, gone, udn)
  {
    var pre, post, depth: nat :| LosesAt(before, after, pre, post, gone, depth, udn);
    ConcatAssociates(pre + Outline(gone, depth), post, back);
    ConcatAssociates(pre, post, back);
    hide Outline;
    assert LosesAt(before + back, after + back, pre, post + back, gone, depth, udn);
  }

  lemma LosesAll(gone: Device, depth: nat, back: seq<Placed>, udn: string)
    requires gone.node.udn == Some(udn)
    ensures LosesFirst(Outline(gone, depth) + back, back, gone, udn)
  {
    hide Outline;
    assert [] + Outline(gone, depth) == Outline(gone, depth) && [] + back == back;
    assert LosesAt(Outline(gone, depth) + back, back, [], back, gone, depth, udn);
  }

  lemma {:induction false} PruneAmongLoses(ds: seq<Device>, udn: string, depth: nat)
    requires udn != "" && FindByUdnAmong(ds, Some(udn)).Some?
    ensures LosesFirst(OutlineAmong(ds, depth), OutlineAmong(PruneAmong(ds, udn), depth),
                       FindByUdnAmong(ds, Some(udn)).value, udn)
    decreases ds, 0
  {
    var first, rest := ds[0], ds[1..];
    var gone := FindByUdnAmong(ds, Some(udn)).value;
    hide LosesFirst, Outline;
    if first.node.udn == Some(udn) {
      LosesAll(first, depth, OutlineAmong(rest, depth), udn);
    } else if FindByUdnAmong(first.children, Some(udn)).Some? {
      PruneLoses(first, udn, depth);
      LosesInFront(Outline(first, depth), Outline(Prune(first, udn), depth), OutlineAmong(rest, depth), gone, udn);
      OutlineAmongCons(Prune(first, udn), rest, depth);
    } else {
      PruneAmongLoses(rest, udn, depth);
      OutlineHasIff(first, depth, udn);
      LosesBehind(Outline(first, depth), OutlineAmong(rest, depth), OutlineAmong(PruneAmong(rest, udn), depth), gone, udn);
      OutlineAmongCons(first, PruneAmong(rest, udn), depth);
    }
  }

  lemma OutlineAmongCons(first: Device, rest: seq<Device>, depth: nat)
    ensures OutlineAmong([first] + rest, depth) == Outline(first, depth) + OutlineAmong(rest, depth)
  {
    assert ([first] + rest)[1..] == rest;
  }

  // ---------------------------------------------------------------------
  // Byebye
  // ---------------------------------------------------------------------

  /** The same root object with the same description document, LOCATION and port; only the tree may differ. */
  predicate SameRoot(r: Root, r': Root) {
    r'.objectId == r.objectId && r'.descriptionId == r.descriptionId && r' == r.(dev := r.dev.(tree := r'.dev.tree))
  }

  /** A byebye for a device that no cached description lists changes nothing but the epoch. */
  lemma ByebyeOfUnknown(sh: Shared, udn: string)
    requires !IsCached(sh.roots, udn)
    ensures Remove(sh, udn) == (sh.(epoch := sh.epoch + 1), None)
  {
    RootIndexIff(sh.roots, udn);
    hide RootIndex, IsCached;
  }

  /** A byebye for a root takes exactly that root out. */
  lemma ByebyeOfRoot(sh: Shared, udn: string, k: nat)
    requires FirstWith(sh.roots, k, udn) && sh.roots[k].dev.tree.node.udn == Some(udn)
    ensures Remove(sh, udn)
         == (sh.(roots := sh.roots[..k] + sh.roots[k + 1..], epoch := sh.epoch + 1), Some(sh.roots[k]))
  {
    RootIndexIff(sh.roots, udn);
    hide RootIndex, FirstWith, IsCached;
  }

  /**
   * A byebye for an embedded device takes out that device, with what is
   * embedded in it, and nothing else: no root leaves, and every other device
   * of the tree keeps its place, its node and its services.
   */
  lemma ByebyeOfEmbedded(sh: Shared, udn: string, k: nat) returns (gone: Device)
    requires FirstWith(sh.roots, k, udn) && sh.roots[k].dev.tree.node.udn != Some(udn)
    ensures var (sh', deleted) := Remove(sh, udn);
            && deleted.None? && sh' == sh.(roots := sh'.roots, epoch := sh.epoch + 1)
            && |sh'.roots| == |sh.roots| && sh'.roots == sh.roots[k := sh'.roots[k]]
            && SameRoot(sh.roots[k], sh'.roots[k])
            && LosesFirst(Outline(sh.roots[k].dev.tree, 0), Outline(sh'.roots[k].dev.tree, 0), gone, udn)
  {
    RootIndexIff(sh.roots, udn);
    var tree := sh.roots[k].dev.tree;
    OccursIff(tree, udn);
    gone := FindByUdnAmong(tree.children, Some(udn)).value;
    PruneLoses(tree, udn, 0);
    hide RootIndex, FirstWith, IsCached, Outline, LosesFirst, Prune;
  }
}
