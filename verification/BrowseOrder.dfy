/** The order of the browse on a tree of containers, up to its limits. */
module BrowseOrder {
  import opened Sequences
  import opened Text
  import opened Browse

  /**
   * What a server has: items, containers without an id, and containers with
   * the elements of the answer for them, unless a request for it fails.
   */
  datatype Element = Item(id: CString) | Nameless | Folder(name: string, answers: bool, elements: seq<Element>)

  function NodeOf(e: Element): Node {
    match e
    case Item(id) => Node(false, id)
    case Nameless => Node(true, None)
    case Folder(name, _, _) => Node(true, Some(name))
  }

  function NodesOf(es: seq<Element>): seq<Node> {
    if es == [] then [] else [NodeOf(es[0])] + NodesOf(es[1..])
  }

  /** The server answers for this container and all those below it, whenever it is asked. */
  ghost predicate Offers(server: Server, e: Element)
    decreases e, 1
  {
    e.Folder? ==>
      && (forall h | h != [] && h[|h| - 1] == e.name :: server(h) == if e.answers then Some(NodesOf(e.elements)) else None)
      && OffersAmong(server, e.elements)
  }

  ghost predicate OffersAmong(server: Server, es: seq<Element>)
    decreases es, 0
  {
    es != [] ==> Offers(server, es[0]) && OffersAmong(server, es[1..])
  }

  function Ids(e: Element): set<string>
    decreases e, 1
  {
    if e.Folder? then {e.name} + IdsAmong(e.elements) else {}
  }

  function IdsAmong(es: seq<Element>): set<string>
    decreases es, 0
  {
    if es == [] then {} else Ids(es[0]) + IdsAmong(es[1..])
  }

  /** No two containers of the tree share an id, and none has the empty one. */
  predicate Unrepeated(e: Element)
    decreases e, 1
  {
    e.Folder? ==> e.name != "" && e.name !in IdsAmong(e.elements) && UnrepeatedAmong(e.elements)
  }

  predicate UnrepeatedAmong(es: seq<Element>)
    decreases es, 0
  {
    es != [] ==> Unrepeated(es[0]) && Ids(es[0]) !! IdsAmong(es[1..]) && UnrepeatedAmong(es[1..])
  }

  /** The ids of the containers in document order, down to a number of levels; nothing below a failed request. */
  function Listing(e: Element, levels: nat): seq<string>
    decreases e, 1
  {
    if !e.Folder? || levels == 0 then []
    else [e.name] + (if e.answers then ListingAmong(e.elements, levels - 1) else [])
  }

  function ListingAmong(es: seq<Element>, levels: nat): seq<string>
    decreases es, 0
  {
    if es == [] then [] else Listing(es[0], levels) + ListingAmong(es[1..], levels)
  }

  function Prefix<T>(xs: seq<T>, n: nat): seq<T> {
    if |xs| <= n then xs else xs[..n]
  }

  lemma PrefixOfPrefix<T>(a: seq<T>, b: seq<T>, n: nat)
    ensures Prefix(Prefix(a, n) + b, n) == Prefix(a + b, n)
  {
  }

  lemma {:induction false} ListingHasIds(e: Element, levels: nat)
    ensures forall x | x in Listing(e, levels) :: x in Ids(e)
    decreases e, 1
  {
    if e.Folder? && levels > 0 {
      ListingAmongHasIds(e.elements, levels - 1);
    }
  }

  lemma {:induction false} ListingAmongHasIds(es: seq<Element>, levels: nat)
    ensures forall x | x in ListingAmong(es, levels) :: x in IdsAmong(es)
    decreases es, 0
  {
    if es != [] {
      ListingHasIds(es[0], levels);
      ListingAmongHasIds(es[1..], levels);
    }
  }

  ghost predicate NoneVisited(visited: seq<string>, ids: set<string>) {
    forall x | x in visited :: x !in ids
  }

  /** The requests that one element of an answer leads to. */
  function BrowsedElement(server: Server, depth: nat, e: Element, visited: seq<string>): seq<string> {
    if e.Item? then visited else Browsed(server, depth, NodeOf(e).id, visited)
  }

  lemma {:induction false} BrowsedIsListing(server: Server, depth: nat, e: Element, visited: seq<string>)
    requires Offers(server, e) && Unrepeated(e) && NoneVisited(visited, Ids(e)) && depth <= 64 && |visited| <= 1024
    ensures BrowsedElement(server, depth, e, visited) == Prefix(visited + Listing(e, 64 - depth), 1024)
    decreases e, 1
  {
    if !e.Folder? || depth == 64 {
      assert visited + [] == visited;
    } else if |visited| < 1024 {
      assert !Remembered(visited, e.name);
      var asked := visited + [e.name];
      assert asked[|asked| - 1] == e.name;
      if e.answers {
        ChildrenAreListed(server, depth, e.elements, asked);
        ConcatAssociates(visited, [e.name], ListingAmong(e.elements, 63 - depth));
      } else {
        assert [e.name] + [] == [e.name];
      }
    }
  }

  lemma {:induction false} ChildrenAreListed(server: Server, depth: nat, es: seq<Element>, visited: seq<string>)
    requires OffersAmong(server, es) && UnrepeatedAmong(es) && NoneVisited(visited, IdsAmong(es))
    requires depth < 64 && |visited| <= 1024
    ensures BrowsedChildren(server, depth, NodesOf(es), visited) == Prefix(visited + ListingAmong(es, 63 - depth), 1024)
    decreases es, 0
  {
    hide Offers, Unrepeated, Ids, Browsed, BrowsedElement, Listing, NoneVisited, Prefix;
    if es == [] {
      NothingListed(visited);
    } else {
      var e, rest := es[0], es[1..];
      var mine, others := Listing(e, 63 - depth), ListingAmong(rest, 63 - depth);
      assert ListingAmong(es, 63 - depth) == mine + others;
      UnvisitedParts(visited, Ids(e), IdsAmong(rest));
      BrowsedIsListing(server, depth + 1, e, visited);
      ListingHasIds(e, 63 - depth);
      StillUnvisited(visited, mine, IdsAmong(rest));
      hide ListingAmong, IdsAmong, BrowsedChildren, NodesOf;
      ChildrenAreListed(server, depth, rest, Prefix(visited + mine, 1024));
      PrefixOfPrefix(visited + mine, others, 1024);
      ConcatAssociates(visited, mine, others);
      BrowsedStep(server, depth, es, visited);
    }
  }

  lemma NothingListed(visited: seq<string>)
    requires |visited| <= 1024
    ensures Prefix(visited + [], 1024) == visited
  {
    assert visited + [] == visited;
  }

  lemma UnvisitedParts(visited: seq<string>, a: set<string>, b: set<string>)
    requires NoneVisited(visited, a + b)
    ensures NoneVisited(visited, a) && NoneVisited(visited, b)
  {
  }

  lemma StillUnvisited(visited: seq<string>, mine: seq<string>, ids: set<string>)
    requires NoneVisited(visited, ids) && forall x | x in mine :: x !in ids
    ensures NoneVisited(Prefix(visited + mine, 1024), ids) && |Prefix(visited + mine, 1024)| <= 1024
  {
  }

  lemma BrowsedStep(server: Server, depth: nat, es: seq<Element>, visited: seq<string>)
    requires es != [] && depth < 64
    ensures BrowsedChildren(server, depth, NodesOf(es), visited)
         == BrowsedChildren(server, depth, NodesOf(es[1..]), BrowsedElement(server, depth + 1, es[0], visited))
  {
    assert NodesOf(es)[0] == NodeOf(es[0]) && NodesOf(es)[1..] == NodesOf(es[1..]);
  }

  /**
   * On a tree of containers with different ids the browse requests the first
   * 1024 of them in document order, counting only the first 64 levels and
   * nothing below a container whose request fails.
   */
  lemma BrowseIsDocumentOrder(server: Server, e: Element)
    requires e.Folder? && Offers(server, e) && Unrepeated(e)
    ensures Browsed(server, 0, Some(e.name), []) == Prefix(Listing(e, 64), 1024)
  {
    BrowsedIsListing(server, 0, e, []);
    assert [] + Listing(e, 64) == Listing(e, 64);
  }
}
