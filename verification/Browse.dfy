/** The budgeted depth-first browse of a ContentDirectory by the example programs. */
module Browse {
  import opened Sequences
  import opened Text

  /** An element of a DIDL-Lite document; anything but a container is only printed. */
  datatype Node = Node(isContainer: bool, id: CString)

  /**
   * A server is any function of the requests made so far, the current one
   * last. `None` stands for a post that fails, an empty result, a result that
   * does not parse, and one without a DIDL-Lite element.
   */
  type Server = seq<string> -> Option<seq<Node>>

  const MAX_DEPTH := 64
  const MAX_REQUESTS := 1024

  /** `mupnp_dictionary_getvalue` on the dictionary with these keys: the empty key is never found. */
  predicate Remembered(keys: seq<string>, key: string) {
    key != "" && key in keys
  }

  function Left(depth: int): nat {
    if depth < 0 || depth >= MAX_DEPTH then 0 else MAX_DEPTH - depth
  }

  // ---------------------------------------------------------------------
  // The traversal as a function of the requests made so far
  // ---------------------------------------------------------------------

  predicate Refused(depth: int, objectId: CString, visited: seq<string>) {
    objectId.None? || depth < 0 || depth >= MAX_DEPTH || |visited| >= MAX_REQUESTS || Remembered(visited, objectId.value)
  }

  function Browsed(server: Server, depth: int, objectId: CString, visited: seq<string>): (r: seq<string>)
    ensures visited <= r
    ensures |visited| <= MAX_REQUESTS ==> |r| <= MAX_REQUESTS
    decreases Left(depth), 1, 0
  {
    if Refused(depth, objectId, visited) then visited
    else
      var asked := visited + [objectId.value];
      match server(asked)
      case None => asked
      case Some(nodes) => BrowsedChildren(server, depth, nodes, asked)
  }

  function BrowsedChildren(server: Server, depth: int, nodes: seq<Node>, visited: seq<string>): (r: seq<string>)
    requires 0 <= depth < MAX_DEPTH
    ensures visited <= r
    ensures |visited| <= MAX_REQUESTS ==> |r| <= MAX_REQUESTS
    decreases Left(depth), 0, |nodes|
  {
    if nodes == [] then visited
    else if nodes[0].isContainer then
      BrowsedChildren(server, depth, nodes[1..], Browsed(server, depth + 1, nodes[0].id, visited))
    else BrowsedChildren(server, depth, nodes[1..], visited)
  }

  // ---------------------------------------------------------------------
  // The traversal as the program runs it
  // ---------------------------------------------------------------------

  /** `mUpnpExampleBrowseBudget`; `visited` holds the keys of the dictionary in the order they were added. */
  class Budget {
    var visited: seq<string>
    var requests: nat

    constructor ()
      ensures Valid() && visited == []
    {
      visited, requests := [], 0;
    }

    ghost predicate Valid()
      reads this
    {
      requests == |visited| <= MAX_REQUESTS
    }

    /** `mupnp_example_browse_directory`; terminates and stays within the budget whatever the server does. */
    method BrowseDirectory(server: Server, depth: int, objectId: CString)
      requires Valid()
      modifies this
      ensures Valid() && visited == Browsed(server, depth, objectId, old(visited))
      decreases Left(depth), 1, 0
    {
      if objectId.None? || depth < 0 || depth >= MAX_DEPTH || requests >= MAX_REQUESTS
         || Remembered(visited, objectId.value) {
        return;
      }
      visited := visited + [objectId.value];
      requests := requests + 1;
      var reply := server(visited);
      if reply.None? {
        return;
      }
      PrintChildren(server, depth, reply.value);
    }

    /** `mupnp_example_print_children` */
    method PrintChildren(server: Server, depth: int, nodes: seq<Node>)
      requires Valid() && 0 <= depth < MAX_DEPTH
      modifies this
      ensures Valid() && visited == BrowsedChildren(server, depth, nodes, old(visited))
      decreases Left(depth), 0, |nodes|
    {
      var i := 0;
      assert nodes[0..] == nodes;
      while i < |nodes|
        invariant 0 <= i <= |nodes| && Valid()
        invariant BrowsedChildren(server, depth, nodes[i..], visited) == BrowsedChildren(server, depth, nodes, old(visited))
      {
        assert nodes[i..][1..] == nodes[i + 1..];
        if nodes[i].isContainer {
          BrowseDirectory(server, depth + 1, nodes[i].id);
        }
        i := i + 1;
      }
    }
  }

  // ---------------------------------------------------------------------
  // Repeated requests
  // ---------------------------------------------------------------------

  /** Only the empty id can be requested twice. */
  predicate OnlyEmptyRepeats(visited: seq<string>) {
    forall i, j | 0 <= i < j < |visited| && visited[i] != "" :: visited[i] != visited[j]
  }

  lemma {:induction false} BrowsedOnlyEmptyRepeats(server: Server, depth: int, objectId: CString, visited: seq<string>)
    requires OnlyEmptyRepeats(visited)
    ensures OnlyEmptyRepeats(Browsed(server, depth, objectId, visited))
    decreases Left(depth), 1, 0
  {
    if !Refused(depth, objectId, visited) {
      var asked := visited + [objectId.value];
      if server(asked).Some? {
        ChildrenOnlyEmptyRepeats(server, depth, server(asked).value, asked);
      }
    }
  }

  lemma {:induction false} ChildrenOnlyEmptyRepeats(server: Server, depth: int, nodes: seq<Node>, visited: seq<string>)
    requires 0 <= depth < MAX_DEPTH && OnlyEmptyRepeats(visited)
    ensures OnlyEmptyRepeats(BrowsedChildren(server, depth, nodes, visited))
    decreases Left(depth), 0, |nodes|
  {
    if nodes != [] {
      if nodes[0].isContainer {
        BrowsedOnlyEmptyRepeats(server, depth + 1, nodes[0].id, visited);
        ChildrenOnlyEmptyRepeats(server, depth, nodes[1..], Browsed(server, depth + 1, nodes[0].id, visited));
      } else {
        ChildrenOnlyEmptyRepeats(server, depth, nodes[1..], visited);
      }
    }
  }

  /** Container ids that a server may send. */
  ghost predicate ServesIds(server: Server, ids: string -> bool) {
    forall h | server(h).Some? :: NodesHaveIds(server(h).value, ids)
  }

  ghost predicate NodesHaveIds(nodes: seq<Node>, ids: string -> bool) {
    forall n | n in nodes && n.isContainer && n.id.Some? :: ids(n.id.value)
  }

  ghost predicate AllIn(visited: seq<string>, ids: string -> bool) {
    forall x | x in visited :: ids(x)
  }

  lemma {:induction false} RequestsAreServedIds(
    server: Server, depth: int, objectId: CString, visited: seq<string>, ids: string -> bool)
    requires ServesIds(server, ids) && AllIn(visited, ids) && (objectId.Some? ==> ids(objectId.value))
    ensures AllIn(Browsed(server, depth, objectId, visited), ids)
    decreases Left(depth), 1, 0
  {
    if !Refused(depth, objectId, visited) {
      var asked := visited + [objectId.value];
      if server(asked).Some? {
        ChildRequestsAreServedIds(server, depth, server(asked).value, asked, ids);
      }
    }
  }

  lemma {:induction false} ChildRequestsAreServedIds(
    server: Server, depth: int, nodes: seq<Node>, visited: seq<string>, ids: string -> bool)
    requires 0 <= depth < MAX_DEPTH && ServesIds(server, ids) && AllIn(visited, ids) && NodesHaveIds(nodes, ids)
    ensures AllIn(BrowsedChildren(server, depth, nodes, visited), ids)
    decreases Left(depth), 0, |nodes|
  {
    if nodes != [] {
      if nodes[0].isContainer {
        RequestsAreServedIds(server, depth + 1, nodes[0].id, visited, ids);
        ChildRequestsAreServedIds(server, depth, nodes[1..], Browsed(server, depth + 1, nodes[0].id, visited), ids);
      } else {
        ChildRequestsAreServedIds(server, depth, nodes[1..], visited, ids);
      }
    }
  }

  /** A server that offers the empty id as a container is asked for it twice. */
  lemma EmptyIdRepeats(server: Server)
    requires forall h :: server(h) == Some([Node(true, Some(""))])
    ensures ["", ""] <= Browsed(server, 0, Some(""), [])
  {
    EmptyIdStep(server, 1, [""]);
    EmptyIdStep(server, 0, []);
    var nodes := [Node(true, Some(""))];
    assert [] + [""] == [""] && [""] + [""] == ["", ""] && nodes[1..] == [];
  }

  lemma EmptyIdStep(server: Server, depth: nat, visited: seq<string>)
    requires forall h :: server(h) == Some([Node(true, Some(""))])
    requires depth < MAX_DEPTH && |visited| < MAX_REQUESTS
    ensures Browsed(server, depth, Some(""), visited)
         == BrowsedChildren(server, depth, [Node(true, Some(""))], visited + [""])
  {
    hide BrowsedChildren;
  }

  /**
   * No id is ever requested twice, whatever the server answers, if and only if
   * the empty string is not among the ids in use: the dictionary cannot
   * remember it.
   */
  lemma NeverRepeatsIff(ids: string -> bool)
    ensures (forall server: Server, depth: int, objectId: string ::
               ServesIds(server, ids) && ids(objectId) ==> Distinct(Browsed(server, depth, Some(objectId), [])))
       <==> !ids("")
  {
    if ids("") {
      var server: Server := h => Some([Node(true, Some(""))]);
      EmptyIdRepeats(server);
      assert ServesIds(server, ids);
      var visited := Browsed(server, 0, Some(""), []);
      assert visited[0] == visited[1];
      assert !Distinct(visited);
    } else {
      forall server: Server, depth: int, objectId: string | ServesIds(server, ids) && ids(objectId)
        ensures Distinct(Browsed(server, depth, Some(objectId), []))
      {
        var visited := Browsed(server, depth, Some(objectId), []);
        BrowsedOnlyEmptyRepeats(server, depth, Some(objectId), []);
        RequestsAreServedIds(server, depth, Some(objectId), [], ids);
        assert forall i | 0 <= i < |visited| :: visited[i] in visited;
      }
    }
  }

  // ---------------------------------------------------------------------
  // Completeness on a fixed graph
  // ---------------------------------------------------------------------

  type Graph = string -> seq<Node>

  predicate Edge(g: Graph, x: string, y: string) {
    Node(true, Some(y)) in g(x)
  }

  predicate IsPath(g: Graph, p: seq<string>) {
    p != [] && forall i | 0 < i < |p| :: Edge(g, p[i - 1], p[i])
  }

  ghost predicate Reachable(g: Graph, start: string, x: string) {
    exists p :: IsPath(g, p) && p[0] == start && p[|p| - 1] == x
  }

  /** Every request succeeds, and the answer depends only on the container asked for. */
  ghost predicate Serves(server: Server, g: Graph) {
    forall h | h != [] :: server(h) == Some(g(h[|h| - 1]))
  }

  /** A path from the start on which no container comes twice. */
  ghost predicate SimplePath(g: Graph, start: string, p: seq<string>) {
    IsPath(g, p) && p[0] == start && Distinct(p)
  }

  /**
   * The graph fits the limits: `reachable` has the reachable containers, none
   * with an empty id, at most 1024, and no simple path has more than 64.
   */
  ghost predicate Fits(g: Graph, start: string, reachable: set<string>) {
    && |reachable| <= MAX_REQUESTS && "" !in reachable
    && (forall x | Reachable(g, start, x) :: x in reachable)
    && (forall p | SimplePath(g, start, p) :: |p| <= MAX_DEPTH)
  }

  /** Everything visited but the containers on the recursion stack has all its containers visited too. */
  ghost predicate ClosedExcept(g: Graph, visited: seq<string>, stack: seq<string>) {
    forall x, y | x in visited && x !in stack && Edge(g, x, y) :: y in visited
  }

  /** The state of the search between two calls. */
  ghost predicate Searching(g: Graph, start: string, visited: seq<string>, stack: seq<string>) {
    && Distinct(visited) && (forall x | x in visited :: Reachable(g, start, x))
    && Distinct(stack) && (forall x | x in stack :: x in visited)
    && ClosedExcept(g, visited, stack)
  }

  lemma {:induction false} DistinctBounded(visited: seq<string>, few: set<string>)
    requires Distinct(visited) && forall x | x in visited :: x in few
    ensures |visited| <= |few|
  {
    if visited != [] {
      var last := visited[|visited| - 1];
      var rest := visited[..|visited| - 1];
      assert last in visited && forall x | x in rest :: x in visited;
      DistinctBounded(rest, few - {last});
    }
  }

  lemma PathReaches(g: Graph, start: string, p: seq<string>, i: nat)
    requires IsPath(g, p) && p[0] == start && i < |p|
    ensures Reachable(g, start, p[i])
  {
    assert IsPath(g, p[..i + 1]);
  }

  /** The limits never stop the search at a container it has not visited. */
  lemma NotRefused(g: Graph, start: string, reachable: set<string>, visited: seq<string>, stack: seq<string>, id: string)
    requires Fits(g, start, reachable) && Searching(g, start, visited, stack)
    requires IsPath(g, stack + [id]) && (stack + [id])[0] == start && id !in visited
    ensures !Refused(|stack|, Some(id), visited)
    ensures Searching(g, start, visited + [id], stack + [id])
  {
    var p, asked := stack + [id], visited + [id];
    PathReaches(g, start, p, |stack|);
    assert SimplePath(g, start, p);
    DistinctBounded(asked, reachable);
  }

  lemma {:induction false} SearchVisits(server: Server, g: Graph, start: string, reachable: set<string>,
                                        visited: seq<string>, stack: seq<string>, id: string)
    requires Serves(server, g) && Fits(g, start, reachable) && Searching(g, start, visited, stack)
    requires IsPath(g, stack + [id]) && (stack + [id])[0] == start
    ensures var r := Browsed(server, |stack|, Some(id), visited);
            Searching(g, start, r, stack) && id in r
    decreases Left(|stack|), 1, 0
  {
    if id in visited {
      PathReaches(g, start, stack + [id], |stack|);
      assert Remembered(visited, id);
    } else {
      NotRefused(g, start, reachable, visited, stack, id);
      var asked := visited + [id];
      assert server(asked) == Some(g(id));
      hide Searching, Reachable, Fits, Serves, IsPath;
      SearchVisitsChildren(server, g, start, reachable, asked, stack, id, g(id));
      var r := BrowsedChildren(server, |stack|, g(id), asked);
      assert Browsed(server, |stack|, Some(id), visited) == r;
      assert r[|visited|] == asked[|visited|] == id;
      Popped(g, start, r, stack, id);
    }
  }

  /** A container whose own containers have all been visited can leave the stack. */
  lemma Popped(g: Graph, start: string, visited: seq<string>, stack: seq<string>, id: string)
    requires Searching(g, start, visited, stack + [id])
    requires forall y | Node(true, Some(y)) in g(id) :: y in visited
    ensures Searching(g, start, visited, stack)
  {
    assert forall x | x in stack + [id] :: x in stack || x == id;
    assert forall i | 0 <= i < |stack| :: (stack + [id])[i] == stack[i];
    hide Reachable;
  }

  lemma PathExtends(g: Graph, p: seq<string>, y: string)
    requires IsPath(g, p) && Edge(g, p[|p| - 1], y)
    ensures IsPath(g, p + [y]) && (p + [y])[0] == p[0]
  {
    var q := p + [y];
    forall i | 0 < i < |q| ensures Edge(g, q[i - 1], q[i]) {
      assert i < |p| ==> Edge(g, p[i - 1], p[i]);
    }
  }

  /** One element of the answer for `id`: a container is visited from one level deeper. */
  lemma {:induction false} SearchVisitsChild(server: Server, g: Graph, start: string, reachable: set<string>,
                                             visited: seq<string>, stack: seq<string>, id: string, n: Node)
    requires |stack| < MAX_DEPTH && Serves(server, g) && Fits(g, start, reachable)
    requires Searching(g, start, visited, stack + [id])
    requires IsPath(g, stack + [id]) && (stack + [id])[0] == start
    requires n in g(id)
    ensures var next := if n.isContainer then Browsed(server, |stack| + 1, n.id, visited) else visited;
            && Searching(g, start, next, stack + [id])
            && (n.isContainer && n.id.Some? ==> n.id.value in next)
    decreases Left(|stack|), 0, 0
  {
    if n.isContainer && n.id.Some? {
      var y := n.id.value;
      PathExtends(g, stack + [id], y);
      hide Searching, Reachable, Fits, Serves, IsPath;
      SearchVisits(server, g, start, reachable, visited, stack + [id], y);
    }
  }

  lemma {:induction false} SearchVisitsChildren(server: Server, g: Graph, start: string, reachable: set<string>,
                                                visited: seq<string>, stack: seq<string>, id: string, nodes: seq<Node>)
    requires |stack| < MAX_DEPTH && Serves(server, g) && Fits(g, start, reachable)
    requires Searching(g, start, visited, stack + [id])
    requires IsPath(g, stack + [id]) && (stack + [id])[0] == start
    requires forall n | n in nodes :: n in g(id)
    ensures var r := BrowsedChildren(server, |stack|, nodes, visited);
            && Searching(g, start, r, stack + [id])
            && forall y | Node(true, Some(y)) in nodes :: y in r
    decreases Left(|stack|), 0, |nodes|
  {
    hide Searching, Reachable, Fits, Serves, IsPath;
    if nodes != [] {
      var next := if nodes[0].isContainer then Browsed(server, |stack| + 1, nodes[0].id, visited) else visited;
      SearchVisitsChild(server, g, start, reachable, visited, stack, id, nodes[0]);
      SearchVisitsChildren(server, g, start, reachable, next, stack, id, nodes[1..]);
      var r := BrowsedChildren(server, |stack|, nodes[1..], next);
      assert BrowsedChildren(server, |stack|, nodes, visited) == r;
      forall y | Node(true, Some(y)) in nodes ensures y in r {
        assert nodes == [nodes[0]] + nodes[1..];
        assert nodes[0] == Node(true, Some(y)) ==> y in next;
      }
    }
  }

  lemma {:induction false} ClosedContainsPath(g: Graph, visited: seq<string>, p: seq<string>)
    requires ClosedExcept(g, visited, []) && IsPath(g, p) && p[0] in visited
    ensures p[|p| - 1] in visited
  {
    if |p| > 1 {
      var q := p[..|p| - 1];
      ClosedContainsPath(g, visited, q);
      assert Edge(g, p[|p| - 2], p[|p| - 1]);
    }
  }

  /**
   * If every request succeeds on a fixed graph that fits the limits, the
   * browse from depth 0 requests exactly the reachable containers, each once.
   */
  lemma BrowseVisitsExactlyReachable(server: Server, g: Graph, start: string, reachable: set<string>)
    requires Serves(server, g) && Fits(g, start, reachable)
    ensures var r := Browsed(server, 0, Some(start), []);
            Distinct(r) && forall x :: x in r <==> Reachable(g, start, x)
  {
    assert [] + [start] == [start];
    SearchVisits(server, g, start, reachable, [], [], start);
    var r := Browsed(server, 0, Some(start), []);
    forall x | Reachable(g, start, x) ensures x in r {
      var p :| IsPath(g, p) && p[0] == start && p[|p| - 1] == x;
      ClosedContainsPath(g, r, p);
    }
  }

  /** At most 64 reachable containers always fit. */
  lemma FewContainersFit(g: Graph, start: string, reachable: set<string>)
    requires |reachable| <= MAX_DEPTH && "" !in reachable
    requires forall x | Reachable(g, start, x) :: x in reachable
    ensures Fits(g, start, reachable)
  {
    forall p | SimplePath(g, start, p) ensures |p| <= MAX_DEPTH {
      forall x | x in p ensures x in reachable {
        var i :| 0 <= i < |p| && p[i] == x;
        PathReaches(g, start, p, i);
      }
      DistinctBounded(p, reachable);
    }
  }
}
