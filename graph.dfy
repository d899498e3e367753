/** The visited graph of graph/graph.go: the crawler's deduplication cache of
    URLs (nodes) together with the links found between them (edges). The
    read-write mutex is not modelled: every call runs alone. */
module Graph {
  import opened Common

  /** A visited URL. */
  datatype Node = Node(url: string)

  /** The URLs of a list of nodes, in the same order. */
  function Urls(ns: seq<Node>): (r: seq<string>)
    ensures |r| == |ns|
  {
    if ns == [] then [] else Urls(ns[..|ns| - 1]) + [ns[|ns| - 1].url]
  }

  /** The end nodes recorded for `n`; Go's lookup of a missing key gives nil. */
  function Adjacent(edges: map<Node, seq<Node>>, n: Node): seq<Node>
  {
    if n in edges then edges[n] else []
  }

  /** The URLs that `url` links to, in the order the edges were added. */
  function NeighborsIn(edges: map<Node, seq<Node>>, url: string): seq<string>
  {
    Urls(Adjacent(edges, Node(url)))
  }

  /** The edge map after appending an edge from `startURL` to `endURL`. */
  function WithEdge(edges: map<Node, seq<Node>>, startURL: string, endURL: string): (r: map<Node, seq<Node>>)
    ensures r.Keys == edges.Keys + {Node(startURL)}
  {
    edges[Node(startURL) := Adjacent(edges, Node(startURL)) + [Node(endURL)]]
  }

  /** Appending an edge adds `endURL` at the end of the neighbours of
      `startURL` and leaves every other URL's neighbours alone. */
  lemma WithEdgeNeighbors(edges: map<Node, seq<Node>>, startURL: string, endURL: string, u: string)
    ensures NeighborsIn(WithEdge(edges, startURL, endURL), u) ==
              if u == startURL then NeighborsIn(edges, u) + [endURL] else NeighborsIn(edges, u)
  {
    if u == startURL {
      var adjacent := Adjacent(edges, Node(startURL));
      assert (adjacent + [Node(endURL)])[..|adjacent|] == adjacent;
    }
  }

  class Graph {
    /** Every visited URL, keyed by itself. */
    var nodes: map<string, Node>
    /** For each start node, the end nodes of its edges in the order they were
        added; a link recorded twice is listed twice. */
    var edges: map<Node, seq<Node>>

    /** Each key maps to the node of that URL, and edges only join nodes that
        are present. */
    ghost predicate Valid()
      reads this
    {
      && (forall u :: u in nodes ==> nodes[u] == Node(u))
      && (forall n :: n in edges ==> n.url in nodes)
      && (forall n, m :: n in edges && m in edges[n] ==> m.url in nodes)
    }

    /** The URLs that `url` links to, in the order the edges were added. */
    function Neighbors(url: string): seq<string>
      reads this
    {
      NeighborsIn(edges, url)
    }

    /** `NewGraph`: no nodes and no edges. */
    constructor ()
      ensures Valid()
      ensures nodes == map[] && edges == map[]
      ensures forall u :: !HasNode(u) && Neighbors(u) == []
    {
      nodes := map[];
      edges := map[];
    }

    /** `HasNode`: whether `url` has been added; reads the graph only. */
    function HasNode(url: string): (present: bool)
      reads this
      ensures present <==> url in nodes
    {
      url in nodes
    }

    /** `AddNode`: idempotent insertion of the node for `url`. */
    method AddNode(url: string)
      requires Valid()
      modifies this
      ensures Valid()
      ensures HasNode(url)
      ensures old(HasNode(url)) ==> nodes == old(nodes)
      ensures nodes == old(nodes)[url := Node(url)]
      ensures nodes.Keys == old(nodes.Keys) + {url}
      ensures edges == old(edges)
    {
      if HasNode(url) {
        return;
      }
      var node := Node(url);
      nodes := nodes[url := node];
    }

    /** `AddEdge`: appends `endURL` to the edges of `startURL`. The start node
        is looked up first, so a graph missing both reports the start. */
    method AddEdge(startURL: string, endURL: string) returns (err: Option<string>)
      requires Valid()
      modifies this
      ensures Valid()
      ensures err.None? <==> startURL in old(nodes) && endURL in old(nodes)
      ensures startURL !in old(nodes) ==>
                err == Some("failed to add edge, no node found for " + startURL)
      ensures startURL in old(nodes) && endURL !in old(nodes) ==>
                err == Some("failed to add edge no node found for " + endURL)
      ensures nodes == old(nodes)
      ensures err.Some? ==> edges == old(edges)
      ensures err.None? ==> edges == WithEdge(old(edges), startURL, endURL)
    {
      var startNode := if startURL in nodes then Some(nodes[startURL]) else None;
      var endNode := if endURL in nodes then Some(nodes[endURL]) else None;

      if startNode.None? {
        return Some("failed to add edge, no node found for " + startURL);
      }

      if endNode.None? {
        return Some("failed to add edge no node found for " + endURL);
      }

      var start := startNode.value;
      edges := edges[start := Adjacent(edges, start) + [endNode.value]];
      return None;
    }
  }
}
