/** Taking a device out of the list it is in, on device objects. */
module DeviceRemoval {
  import opened Text
  import opened DeviceObjects
  import T = DeviceTree
  import D = Discovery

  /** Deleting the first device with the UDN that is embedded in this one; the device itself stays. */
  method PruneInPlace(dev: DeviceObject, udn: string, ghost parent: DeviceObject?, ghost t: Tree) returns (ghost nt: Tree)
    requires t.dev == dev && Linked(t, parent) && Separate(t)
    modifies DevsOf(t.kids)`next, Devs(t)`devices
    ensures nt.dev == dev && Linked(nt, parent) && Separate(nt)
    ensures Devs(nt) <= Devs(t) && Servs(nt) <= Servs(t) && DevsOf(nt.kids) <= DevsOf(t.kids)
    ensures Value(nt) == old(D.Prune(Value(t), udn))
    decreases t, 1
  {
    hide LinkedAll, SeparateAll, Values, ServiceValues, DevsOf, ServsOf, D.PruneAmong, OwnedBy;
    ghost var kids;
    var newFirst;
    newFirst, kids := PruneAmongInPlace(dev.devices, udn, dev, t.kids);
    dev.devices := newFirst;
    nt := Tree(dev, t.services, kids);
  }

  /** The same among the devices of one list; `newFirst` is its new head. */
  method PruneAmongInPlace(first: DeviceObject?, udn: string, ghost parent: DeviceObject, ghost f: Forest)
    returns (newFirst: DeviceObject?, ghost nf: Forest)
    requires first == Head(f) && LinkedAll(f, parent) && SeparateAll(f)
    modifies DevsOf(f)`next, DevsOf(f)`devices
    ensures newFirst == Head(nf) && LinkedAll(nf, parent) && SeparateAll(nf)
    ensures DevsOf(nf) <= DevsOf(f) && ServsOf(nf) <= ServsOf(f)
    ensures Values(nf) == old(D.PruneAmong(Values(f), udn))
    decreases f, 1
  {
    hide LinkedAll, SeparateAll, Separate, Values, Value, Devs, DevsOf, Servs, ServsOf, D.Prune, D.PruneAmong;
    newFirst, nf := first, f;
    if first == null {
      PruneNothing(f, udn);
    } else {
      ForestParts(f, parent, {});
      FirstApart(f);
      PruneSteps(f, udn);
      if StrEq(first.node.udn, Some(udn)) {
        newFirst, nf := first.next, f.rest;
      } else {
        var inside := FindByUdnAmong(first.devices, Some(udn), f.first.kids, first);
        if inside != null {
          nf := PruneFirst(first, udn, parent, f);
        } else {
          nf := PruneRest(first, udn, parent, f);
        }
      }
    }
  }

  lemma PruneNothing(f: Forest, udn: string)
    requires f.Nil?
    ensures D.PruneAmong(Values(f), udn) == Values(f)
  {
  }

  /** The three cases at the head of a list. */
  lemma PruneSteps(f: Forest, udn: string)
    requires f.Cons? && Linked(f.first, f.first.dev.parent)
    ensures D.PruneAmong(Values(f), udn)
         == if StrEq(f.first.dev.node.udn, Some(udn)) then Values(f.rest)
            else if FoundAmong(f.first.kids, Some(udn)).Some? then [D.Prune(Value(f.first), udn)] + Values(f.rest)
            else [Value(f.first)] + D.PruneAmong(Values(f.rest), udn)
  {
    hide D.Prune, FoundAmong, LinkedAll, T.FindByUdnAmong;
    assert Values(f)[1..] == Values(f.rest) && Values(f)[0] == Value(f.first);
    assert LinkedAll(f.first.kids, f.first.dev);
    FoundAmongIsFind(f.first.kids, f.first.dev, Some(udn));
  }

  method PruneFirst(first: DeviceObject, udn: string, ghost parent: DeviceObject, ghost f: Forest) returns (ghost nf: Forest)
    requires f.Cons? && first == Head(f) && LinkedAll(f, parent) && SeparateAll(f)
    modifies DevsOf(f.first.kids)`next, Devs(f.first)`devices
    ensures first == Head(nf) && LinkedAll(nf, parent) && SeparateAll(nf)
    ensures DevsOf(nf) <= DevsOf(f) && ServsOf(nf) <= ServsOf(f)
    ensures Values(nf) == old([D.Prune(Value(f.first), udn)] + Values(f.rest))
    decreases f, 0
  {
    hide LinkedAll, SeparateAll, Linked, Separate, Values, Value, Devs, DevsOf, Servs, ServsOf, D.Prune;
    ForestParts(f, parent, {});
    FirstApart(f);
    assert allocated(DevsOf(f.rest)) && allocated(ServsOf(f.rest));
    ghost var nt := PruneInPlace(first, udn, parent, f.first);
    nf := Cons(nt, f.rest);
    Assemble(nt, f.rest, parent);
  }

  method PruneRest(first: DeviceObject, udn: string, ghost parent: DeviceObject, ghost f: Forest) returns (ghost nf: Forest)
    requires f.Cons? && first == Head(f) && LinkedAll(f, parent) && SeparateAll(f)
    modifies first`next, DevsOf(f.rest)`next, DevsOf(f.rest)`devices
    ensures first == Head(nf) && LinkedAll(nf, parent) && SeparateAll(nf)
    ensures DevsOf(nf) <= DevsOf(f) && ServsOf(nf) <= ServsOf(f)
    ensures Values(nf) == old([Value(f.first)] + D.PruneAmong(Values(f.rest), udn))
    decreases f, 0
  {
    hide LinkedAll, SeparateAll, Linked, Separate, Values, Value, Devs, DevsOf, Servs, ServsOf, D.PruneAmong;
    ForestParts(f, parent, {});
    FirstApart(f);
    assert allocated(Devs(f.first)) && allocated(DevsOf(f.first.kids)) && allocated(Servs(f.first));
    ghost var rest;
    var next;
    next, rest := PruneAmongInPlace(first.next, udn, parent, f.rest);
    assert allocated(DevsOf(rest)) && allocated(ServsOf(rest));
    first.next := next;
    nf := Cons(f.first, rest);
    Assemble(f.first, rest, parent);
  }

  lemma FirstApart(f: Forest)
    requires f.Cons? && SeparateAll(f)
    ensures Devs(f.first) !! DevsOf(f.rest) && DevsOf(f.first.kids) <= Devs(f.first)
    ensures f.first.dev in Devs(f.first) && f.first.dev !in DevsOf(f.first.kids)
    ensures DevsOf(f) == Devs(f.first) + DevsOf(f.rest)
  {
  }

  /** A tree and a list apart from it make a list again. */
  lemma Assemble(t: Tree, rest: Forest, parent: DeviceObject)
    requires Linked(t, parent) && t.dev.next == Head(rest) && LinkedAll(rest, parent)
    requires Separate(t) && SeparateAll(rest) && Devs(t) !! DevsOf(rest) && Servs(t) !! ServsOf(rest)
    ensures var f := Cons(t, rest);
            && Head(f) == t.dev && LinkedAll(f, parent) && SeparateAll(f)
            && DevsOf(f) == Devs(t) + DevsOf(rest) && ServsOf(f) == Servs(t) + ServsOf(rest)
            && Values(f) == [Value(t)] + Values(rest)
  {
  }
}
