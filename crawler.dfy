/** The coordinator of crawler/crawler.go, run as one sequential worklist.
    The fetch workers, the parse tasks and the channels between them are
    replaced by a FIFO `queue` and by `fetch`, which gives for each URL
    either failure (a fetch or parse error) or the internal links of the
    fetched page. */
module Crawler {
  import opened Common
  import Graph
  import Stats

  /** The internal links a fetch outcome contributes: none on failure. */
  function Links(outcome: Option<seq<string>>): seq<string>
  {
    match outcome
    case None => []
    case Some(links) => links
  }

  /** How many of the first `n` URLs in `s` were fetched and parsed
      successfully. */
  function Succeeded(s: seq<string>, n: nat, fetch: string -> Option<seq<string>>): (c: nat)
    requires n <= |s|
    ensures c <= n
  {
    if n == 0 then 0
    else Succeeded(s, n - 1, fetch) + (if fetch(s[n - 1]).Some? then 1 else 0)
  }

  /** The count depends only on the first `n` URLs. */
  lemma {:induction false} SucceededPrefix(s: seq<string>, t: seq<string>, n: nat,
                                           fetch: string -> Option<seq<string>>)
    requires n <= |s| && HasPrefix(t, s)
    ensures Succeeded(t, n, fetch) == Succeeded(s, n, fetch)
  {
    if n > 0 {
      SucceededPrefix(s, t, n - 1, fetch);
      assert t[n - 1] == t[..|s|][n - 1];
    }
  }

  /** Every link a fetch outcome contributes lies in `urls`. */
  ghost predicate LinksWithin(outcome: Option<seq<string>>, urls: set<string>)
  {
    forall k :: 0 <= k < |Links(outcome)| ==> Links(outcome)[k] in urls
  }

  /** Every link found on a page of `universe` lies in `universe`: the site
      has finitely many reachable URLs. */
  ghost predicate Closed(universe: set<string>, fetch: string -> Option<seq<string>>)
  {
    forall u {:trigger fetch(u)} :: u in universe ==> LinksWithin(fetch(u), universe)
  }

  /** The edge map after the edges from `startURL` to each of `links` are
      appended in order. */
  function WithEdges(edges: map<Graph.Node, seq<Graph.Node>>, startURL: string, links: seq<string>)
    : map<Graph.Node, seq<Graph.Node>>
  {
    if links == [] then edges
    else Graph.WithEdge(WithEdges(edges, startURL, links[..|links| - 1]), startURL, links[|links| - 1])
  }

  /** Handling a page's links appends them, in order and with duplicates,
      to the page's neighbours and to no other URL's. */
  lemma WithEdgesNeighbors(edges: map<Graph.Node, seq<Graph.Node>>, startURL: string,
                           links: seq<string>, u: string)
    ensures Graph.NeighborsIn(WithEdges(edges, startURL, links), u) ==
              if u == startURL then Graph.NeighborsIn(edges, u) + links else Graph.NeighborsIn(edges, u)
  {
    if u == startURL {
      WithEdgesAppend(edges, startURL, links);
    } else {
      WithEdgesElsewhere(edges, startURL, links, u);
    }
  }

  /** The page's own neighbours grow by the links, in order. */
  lemma {:induction false} WithEdgesAppend(edges: map<Graph.Node, seq<Graph.Node>>, startURL: string,
                                           links: seq<string>)
    ensures Graph.NeighborsIn(WithEdges(edges, startURL, links), startURL) ==
              Graph.NeighborsIn(edges, startURL) + links
  {
    if links != [] {
      var init, last := links[..|links| - 1], links[|links| - 1];
      assert links == init + [last];
      WithEdgesAppend(edges, startURL, init);
      Graph.WithEdgeNeighbors(WithEdges(edges, startURL, init), startURL, last, startURL);
      SnocAssoc(Graph.NeighborsIn(edges, startURL), init, last);
    }
  }

  /** Every other URL's neighbours stay as they were. */
  lemma {:induction false} WithEdgesElsewhere(edges: map<Graph.Node, seq<Graph.Node>>, startURL: string,
                                              links: seq<string>, u: string)
    requires u != startURL
    ensures Graph.NeighborsIn(WithEdges(edges, startURL, links), u) == Graph.NeighborsIn(edges, u)
  {
    if links != [] {
      var init := links[..|links| - 1];
      WithEdgesElsewhere(edges, startURL, init, u);
      Graph.WithEdgeNeighbors(WithEdges(edges, startURL, init), startURL, links[|links| - 1], u);
    }
  }

  /** No URL is dispatched twice, the visited URLs are exactly the dispatched
      ones, and the queue holds the dispatched URLs after the first
      `resolved`, in order. */
  ghost predicate Worklist(visited: set<string>, dispatched: seq<string>, resolved: nat, queue: seq<string>)
  {
    && NoDup(dispatched)
    && visited == Elements(dispatched)
    && resolved + |queue| == |dispatched|
    && (forall i :: 0 <= i < |queue| ==> queue[i] == dispatched[resolved + i])
  }

  /** The counters agree with the bookkeeping: every dispatched URL is one
      operation, every queued URL a pending one, and the wait-group counter
      is the number of queued URLs. */
  ghost predicate Consistent(visited: set<string>, dispatched: seq<string>, resolved: nat, queue: seq<string>,
                             total: int, pending: int, completed: int, failures: int, outstanding: int)
  {
    && Worklist(visited, dispatched, resolved, queue)
    && total == |dispatched|
    && pending == |queue|
    && outstanding == |queue|
    && pending == total - completed - failures
  }

  /** Dispatching an unvisited URL marks it visited, queues it and counts it. */
  lemma DispatchKeepsConsistent(visited: set<string>, dispatched: seq<string>, resolved: nat, queue: seq<string>,
                                total: int, pending: int, completed: int, failures: int, outstanding: int,
                                link: string)
    requires Consistent(visited, dispatched, resolved, queue, total, pending, completed, failures, outstanding)
    requires link !in visited
    ensures Consistent(visited + {link}, dispatched + [link], resolved, queue + [link],
                       total + 1, pending + 1, completed, failures, outstanding + 1)
  {
    var d := dispatched + [link];
    NoDupSnoc(dispatched, link);
    assert Elements(d) == visited + {link};
  }

  /** The first `resolved` dispatched URLs have their page's links as
      neighbours; the others have no neighbours yet. */
  ghost predicate EdgesOfResolved(edges: map<Graph.Node, seq<Graph.Node>>, dispatched: seq<string>, resolved: nat,
                                  fetch: string -> Option<seq<string>>)
  {
    && (forall i :: 0 <= i < resolved <= |dispatched| ==>
          Graph.NeighborsIn(edges, dispatched[i]) == Links(fetch(dispatched[i])))
    && (forall i :: resolved <= i < |dispatched| ==> Graph.NeighborsIn(edges, dispatched[i]) == [])
  }

  /** Every link of the first `resolved` dispatched pages has been visited. */
  ghost predicate LinksVisited(visited: set<string>, dispatched: seq<string>, resolved: nat,
                               fetch: string -> Option<seq<string>>)
  {
    forall i :: 0 <= i < resolved <= |dispatched| ==> LinksWithin(fetch(dispatched[i]), visited)
  }

  /** Resolving the next dispatched URL `p` adds its page's links as its
      edges; URLs dispatched meanwhile are new and have no edges. */
  lemma ResolveEdges(edges: map<Graph.Node, seq<Graph.Node>>, visited: set<string>,
                     dispatched: seq<string>, resolved: nat, after: seq<string>,
                     fetch: string -> Option<seq<string>>)
    requires resolved < |dispatched| && HasPrefix(after, dispatched)
    requires NoDup(after) && visited == Elements(dispatched)
    requires forall n :: n in edges ==> n.url in visited
    requires EdgesOfResolved(edges, dispatched, resolved, fetch)
    ensures EdgesOfResolved(WithEdges(edges, dispatched[resolved], Links(fetch(dispatched[resolved]))),
                            after, resolved + 1, fetch)
  {
    forall i | 0 <= i < |after|
      ensures Graph.NeighborsIn(WithEdges(edges, dispatched[resolved], Links(fetch(dispatched[resolved]))), after[i]) ==
                if i <= resolved then Links(fetch(after[i])) else []
    {
      ResolvedNeighbors(edges, visited, dispatched, resolved, after, fetch, i);
    }
  }

  /** The neighbours of the `i`-th URL after resolving the next one. */
  lemma ResolvedNeighbors(edges: map<Graph.Node, seq<Graph.Node>>, visited: set<string>,
                          dispatched: seq<string>, resolved: nat, after: seq<string>,
                          fetch: string -> Option<seq<string>>, i: nat)
    requires resolved < |dispatched| && HasPrefix(after, dispatched)
    requires NoDup(after) && visited == Elements(dispatched)
    requires forall n :: n in edges ==> n.url in visited
    requires EdgesOfResolved(edges, dispatched, resolved, fetch)
    requires i < |after|
    ensures Graph.NeighborsIn(WithEdges(edges, dispatched[resolved], Links(fetch(dispatched[resolved]))), after[i]) ==
              if i <= resolved then Links(fetch(after[i])) else []
  {
    var p := dispatched[resolved];
    WithEdgesNeighbors(edges, p, Links(fetch(p)), after[i]);
    if i >= |dispatched| {
      forall k | 0 <= k < |dispatched|
        ensures dispatched[k] != after[i]
      {
        assert dispatched[k] == after[k];
        NoDupDistinct(after, k, i);
      }
      assert after[i] !in dispatched;
      assert Graph.Node(after[i]) !in edges;
    } else if i != resolved {
      assert after[i] == dispatched[i] && after[resolved] == p;
      if i < resolved {
        NoDupDistinct(after, i, resolved);
      } else {
        NoDupDistinct(after, resolved, i);
      }
    }
  }

  /** After resolving the next URL `p`, the links of every resolved page,
      `p`'s as well, have been visited. */
  lemma ResolveVisits(visited: set<string>, dispatched: seq<string>, resolved: nat, after: seq<string>,
                      fetch: string -> Option<seq<string>>)
    requires resolved < |dispatched| && HasPrefix(after, dispatched)
    requires LinksVisited(visited, dispatched, resolved, fetch)
    ensures LinksVisited(visited + Elements(Links(fetch(dispatched[resolved]))), after, resolved + 1, fetch)
    ensures Succeeded(after, resolved + 1, fetch) ==
              Succeeded(dispatched, resolved, fetch) + (if fetch(dispatched[resolved]).Some? then 1 else 0)
  {
    var visited' := visited + Elements(Links(fetch(dispatched[resolved])));
    forall i | 0 <= i <= resolved
      ensures LinksWithin(fetch(after[i]), visited')
    {
      assert after[i] == after[..|dispatched|][i];
    }
    SucceededPrefix(dispatched, after, resolved, fetch);
    assert after[resolved] == after[..|dispatched|][resolved];
  }

  lemma VisitStep(start: set<string>, visited: set<string>, links: seq<string>, i: nat)
    requires i < |links| && visited == start + Elements(links[..i])
    ensures visited + {links[i]} == start + Elements(links[..i + 1])
  {
    PrefixSnoc(links, i);
    ElementsSnoc(links[..i], links[i]);
  }

  /** A duplicate-free sequence drawn from `universe` is no longer than it. */
  lemma DispatchedBound(universe: set<string>, dispatched: seq<string>)
    requires NoDup(dispatched) && Elements(dispatched) <= universe
    ensures |dispatched| <= |universe|
  {
    SubsetCardinality(Elements(dispatched), universe);
  }

  /** What the crawl loop keeps: the visited URLs stay inside `universe`,
      the seed was dispatched first, the first `resolved` dispatched URLs
      have their links as edges and visited, and the counters count them.
      If the seed fails, nothing else is ever dispatched. */
  ghost predicate Progress(visited: set<string>, edges: map<Graph.Node, seq<Graph.Node>>,
                           dispatched: seq<string>, resolved: nat, completed: int, failures: int,
                           fetch: string -> Option<seq<string>>, universe: set<string>, seed: string)
  {
    && visited <= universe
    && |dispatched| > 0 && dispatched[0] == seed
    && resolved <= |dispatched|
    && EdgesOfResolved(edges, dispatched, resolved, fetch)
    && LinksVisited(visited, dispatched, resolved, fetch)
    && completed == Succeeded(dispatched, resolved, fetch)
    && failures == resolved - completed
    && (fetch(seed).None? ==> dispatched == [seed])
  }

  /** One resolution step as seen from outside: earlier dispatches are
      kept, and the visited URLs grow by exactly the links of the resolved
      URL's page. */
  ghost predicate Resolution(visited: set<string>, dispatched: seq<string>, resolved: nat,
                             visited': set<string>, dispatched': seq<string>,
                             fetch: string -> Option<seq<string>>)
  {
    && resolved < |dispatched|
    && HasPrefix(dispatched', dispatched)
    && visited' == visited + Elements(Links(fetch(dispatched[resolved])))
  }

  /** Resolving the next dispatched URL `p` keeps `Progress`, one more URL
      being resolved, and the dispatched URLs stay within the bound. */
  lemma ProgressStep(visited: set<string>, edges: map<Graph.Node, seq<Graph.Node>>,
                     dispatched: seq<string>, resolved: nat, completed: int, failures: int,
                     visited': set<string>, edges': map<Graph.Node, seq<Graph.Node>>,
                     dispatched': seq<string>, resolved': nat, completed': int, failures': int,
                     fetch: string -> Option<seq<string>>, universe: set<string>, seed: string)
    requires Progress(visited, edges, dispatched, resolved, completed, failures, fetch, universe, seed)
    requires Closed(universe, fetch)
    requires resolved < |dispatched| && resolved' == resolved + 1 && visited == Elements(dispatched)
    requires forall n :: n in edges ==> n.url in visited
    requires HasPrefix(dispatched', dispatched) && NoDup(dispatched') && visited' == Elements(dispatched')
    requires fetch(dispatched[resolved]).None? ==>
               && visited' == visited && edges' == edges && dispatched' == dispatched
               && completed' == completed && failures' == failures + 1
    requires fetch(dispatched[resolved]).Some? ==>
               && visited' == visited + Elements(fetch(dispatched[resolved]).value)
               && edges' == WithEdges(edges, dispatched[resolved], fetch(dispatched[resolved]).value)
               && completed' == completed + 1 && failures' == failures
    ensures Progress(visited', edges', dispatched', resolved', completed', failures', fetch, universe, seed)
    ensures |dispatched'| <= |universe|
    ensures Resolution(visited, dispatched, resolved, visited', dispatched', fetch)
  {
    var p := dispatched[resolved];
    assert p in visited;
    ResolveEdges(edges, visited, dispatched, resolved, dispatched', fetch);
    ResolveVisits(visited, dispatched, resolved, dispatched', fetch);
    if fetch(p).None? {
      assert visited + Elements(Links(fetch(p))) == visited;
    }
    assert dispatched'[..|dispatched|] == dispatched;
    DispatchedBound(universe, dispatched');
  }

  /** Right after seeding nothing is resolved: the seed is the only
      dispatched URL and there are no edges. */
  lemma ProgressStart(visited: set<string>, edges: map<Graph.Node, seq<Graph.Node>>,
                      dispatched: seq<string>, resolved: nat, completed: int, failures: int,
                      fetch: string -> Option<seq<string>>, universe: set<string>, seed: string)
    requires seed in universe && visited == {seed} && edges == map[] && dispatched == [seed]
    requires resolved == 0 && completed == 0 && failures == 0
    ensures Progress(visited, edges, dispatched, resolved, completed, failures, fetch, universe, seed)
  {
  }

  /** Once every dispatched URL is resolved, each visited URL has its
      page's links as neighbours, the visited URLs are closed under links,
      and the counters count successes and failures. */
  lemma ProgressDone(visited: set<string>, edges: map<Graph.Node, seq<Graph.Node>>,
                     dispatched: seq<string>, resolved: nat, completed: int, failures: int,
                     fetch: string -> Option<seq<string>>, universe: set<string>, seed: string)
    requires Progress(visited, edges, dispatched, resolved, completed, failures, fetch, universe, seed)
    requires resolved == |dispatched| && visited == Elements(dispatched) && NoDup(dispatched)
    ensures seed in visited
    ensures forall u {:trigger Graph.NeighborsIn(edges, u)} :: u in visited ==> Graph.NeighborsIn(edges, u) == Links(fetch(u))
    ensures forall u {:trigger fetch(u)} :: u in visited ==> LinksWithin(fetch(u), visited)
    ensures completed == Succeeded(dispatched, |dispatched|, fetch)
    ensures completed + failures == |visited|
    ensures fetch(seed).None? ==> failures == 1 && completed == 0 && visited == {seed}
  {
    ResolvedNeighborsAll(edges, dispatched, fetch);
    ResolvedLinksAll(visited, dispatched, fetch);
    if fetch(seed).None? {
      assert Elements([seed]) == {seed};
    }
  }

  /** With every dispatched URL resolved, each has its links as neighbours. */
  lemma ResolvedNeighborsAll(edges: map<Graph.Node, seq<Graph.Node>>, dispatched: seq<string>,
                             fetch: string -> Option<seq<string>>)
    requires EdgesOfResolved(edges, dispatched, |dispatched|, fetch)
    ensures forall u {:trigger Graph.NeighborsIn(edges, u)} :: u in Elements(dispatched) ==>
              Graph.NeighborsIn(edges, u) == Links(fetch(u))
  {
    forall u {:trigger Graph.NeighborsIn(edges, u)} | u in Elements(dispatched)
      ensures Graph.NeighborsIn(edges, u) == Links(fetch(u))
    {
      var k :| 0 <= k < |dispatched| && dispatched[k] == u;
    }
  }

  /** With every dispatched URL resolved, each one's links are visited. */
  lemma ResolvedLinksAll(visited: set<string>, dispatched: seq<string>, fetch: string -> Option<seq<string>>)
    requires LinksVisited(visited, dispatched, |dispatched|, fetch)
    ensures forall u {:trigger fetch(u)} :: u in Elements(dispatched) ==> LinksWithin(fetch(u), visited)
  {
    forall u {:trigger fetch(u)} | u in Elements(dispatched)
      ensures LinksWithin(fetch(u), visited)
    {
      var k :| 0 <= k < |dispatched| && dispatched[k] == u;
    }
  }

  class Crawler {
    /** The seed URL, without a trailing slash. */
    var url: string
    var graph: Graph.Graph
    var stats: Stats.Stats
    /** Every URL dispatched and not yet resolved, oldest first; the head is
        the one being fetched. */
    var queue: seq<string>
    /** The counter of the `sync.WaitGroup`. */
    var outstanding: int
    /** Every URL ever dispatched, in dispatch order. */
    ghost var dispatched: seq<string>
    /** How many dispatched URLs have been fetched, successfully or not. */
    ghost var resolved: nat

    /** The graph is well formed and its nodes, the dispatched URLs, the
        queue and the counters agree. */
    ghost predicate Valid()
      reads this, graph, stats
    {
      && graph.Valid()
      && Consistent(graph.nodes.Keys, dispatched, resolved, queue,
                    stats.total, stats.pending, stats.completed, stats.failures, outstanding)
    }

    /** `NewCrawler`: the seed loses one trailing slash; graph, statistics
        and queue start empty. */
    constructor (url: string)
      ensures this.url == DropTrailingSlash(url)
      ensures fresh(graph) && fresh(stats)
      ensures graph.nodes == map[] && graph.edges == map[]
      ensures stats.total == 0 && stats.pending == 0 && stats.completed == 0 && stats.failures == 0
      ensures stats.startTime == 0 && stats.duration == 0
      ensures queue == [] && outstanding == 0 && dispatched == []
      ensures Valid()
    {
      this.url := DropTrailingSlash(url);
      graph := new Graph.Graph();
      stats := new Stats.Stats();
      queue := [];
      outstanding := 0;
      dispatched := [];
      resolved := 0;
    }

    /** Dispatching a URL whose node has just been added: the wait group
        and the operation counters grow by one and the URL is queued for
        the workers. */
    method Dispatch(link: string, ghost visited: set<string>)
      requires graph.Valid() && graph.nodes.Keys == visited + {link} && link !in visited
      requires Consistent(visited, dispatched, resolved, queue,
                          stats.total, stats.pending, stats.completed, stats.failures, outstanding)
      modifies this`queue, this`outstanding, this`dispatched, stats
      ensures Valid()
      ensures queue == old(queue) + [link] && dispatched == old(dispatched) + [link]
      ensures HasPrefix(dispatched, old(dispatched))
      ensures stats.total == old(stats.total) + 1 && stats.pending == old(stats.pending) + 1
      ensures stats.completed == old(stats.completed) && stats.failures == old(stats.failures)
      ensures stats.startTime == old(stats.startTime) && stats.duration == old(stats.duration)
    {
      DispatchKeepsConsistent(visited, dispatched, resolved, queue,
                              stats.total, stats.pending, stats.completed, stats.failures, outstanding, link);
      PrefixOfSnoc(dispatched, link);
      outstanding := outstanding + 1;
      stats.RecordNewOperation();
      queue := queue + [link];
      dispatched := dispatched + [link];
    }

    /** Seeding in `Crawl`: the seed becomes a node, one operation is
        counted, and the seed is the only queued URL. */
    method Seed()
      requires Valid() && dispatched == []
      modifies this`queue, this`outstanding, this`dispatched, graph, stats
      ensures Valid()
      ensures graph.nodes.Keys == {url} && graph.edges == old(graph.edges)
      ensures dispatched == [url] && |queue| == 1 && queue[0] == url && outstanding == 1
      ensures stats.total == old(stats.total) + 1 && stats.pending == old(stats.pending) + 1
      ensures stats.completed == old(stats.completed) && stats.failures == old(stats.failures)
      ensures stats.startTime == old(stats.startTime) && stats.duration == old(stats.duration)
    {
      ghost var visited := graph.nodes.Keys;
      graph.AddNode(url);
      Dispatch(url, visited);
    }

    /** One internal link of the page at `pageURL`. A known link only gets
        an edge; a new one becomes a node, gets an edge, is counted and is
        queued once. The page is a node, so the edge is always added. */
    method HandleLink(pageURL: string, link: string) returns (edgeError: Option<string>)
      requires Valid() && pageURL in graph.nodes
      modifies this`queue, this`outstanding, this`dispatched, graph, stats
      ensures Valid()
      ensures edgeError == None
      ensures graph.edges == Graph.WithEdge(old(graph.edges), pageURL, link)
      ensures graph.nodes.Keys == old(graph.nodes.Keys) + {link}
      ensures HasPrefix(dispatched, old(dispatched))
      ensures old(link in graph.nodes) ==>
                queue == old(queue) && dispatched == old(dispatched)
                && stats.total == old(stats.total) && stats.pending == old(stats.pending)
      ensures old(link !in graph.nodes) ==>
                && queue == old(queue) + [link] && dispatched == old(dispatched) + [link]
                && stats.total == old(stats.total) + 1 && stats.pending == old(stats.pending) + 1
      ensures stats.completed == old(stats.completed) && stats.failures == old(stats.failures)
      ensures stats.startTime == old(stats.startTime) && stats.duration == old(stats.duration)
    {
      var visited := graph.HasNode(link);

      if visited {
        edgeError := graph.AddEdge(pageURL, link);
        return;
      }

      ghost var visitedBefore := graph.nodes.Keys;
      graph.AddNode(link);
      edgeError := graph.AddEdge(pageURL, link);
      Dispatch(link, visitedBefore);
    }

    /** The internal links of the page at `pageURL`, handled in order. */
    method HandleLinks(pageURL: string, links: seq<string>)
      requires Valid() && pageURL in graph.nodes
      modifies this`queue, this`outstanding, this`dispatched, graph, stats
      ensures Valid()
      ensures graph.edges == WithEdges(old(graph.edges), pageURL, links)
      ensures graph.nodes.Keys == old(graph.nodes.Keys) + Elements(links)
      ensures HasPrefix(dispatched, old(dispatched))
      ensures stats.completed == old(stats.completed) && stats.failures == old(stats.failures)
      ensures stats.startTime == old(stats.startTime) && stats.duration == old(stats.duration)
    {
      var i := 0;
      while i < |links|
        invariant 0 <= i <= |links|
        invariant Valid() && pageURL in graph.nodes
        invariant graph.edges == WithEdges(old(graph.edges), pageURL, links[..i])
        invariant graph.nodes.Keys == old(graph.nodes.Keys) + Elements(links[..i])
        invariant HasPrefix(dispatched, old(dispatched))
        invariant stats.completed == old(stats.completed) && stats.failures == old(stats.failures)
        invariant stats.startTime == old(stats.startTime) && stats.duration == old(stats.duration)
      {
        ghost var dispatchedBefore := dispatched;
        ghost var visitedBefore := graph.nodes.Keys;
        var _ := HandleLink(pageURL, links[i]);
        PrefixTransitive(old(dispatched), dispatchedBefore, dispatched);
        PrefixSnoc(links, i);
        VisitStep(old(graph.nodes.Keys), visitedBefore, links, i);
        i := i + 1;
      }
      assert links[..i] == links;
    }

    /** The coordinator's work on one fetched page, the head of the queue:
        its internal links are handled, then the page counts as completed
        and leaves the queue. */
    method ProcessPage(pageURL: string, links: seq<string>)
      requires Valid() && queue != [] && queue[0] == pageURL
      modifies this`queue, this`outstanding, this`dispatched, this`resolved, graph, stats
      ensures Valid()
      ensures graph.edges == WithEdges(old(graph.edges), pageURL, links)
      ensures graph.nodes.Keys == old(graph.nodes.Keys) + Elements(links)
      ensures HasPrefix(dispatched, old(dispatched))
      ensures resolved == old(resolved) + 1
      ensures stats.completed == old(stats.completed) + 1 && stats.failures == old(stats.failures)
      ensures stats.startTime == old(stats.startTime) && stats.duration == old(stats.duration)
    {
      assert queue[0] == dispatched[resolved];
      assert pageURL in graph.nodes;
      HandleLinks(pageURL, links);
      ghost var resolvedBefore, queueBefore, outstandingBefore := resolved, queue, outstanding;
      ghost var pendingBefore, completedBefore, failuresBefore := stats.pending, stats.completed, stats.failures;
      stats.RecordOperationCompletion();
      outstanding := outstanding - 1;
      queue := queue[1..];
      resolved := resolved + 1;
      ResolveKeepsConsistent(graph.nodes.Keys, dispatched, resolvedBefore, queueBefore, stats.total,
                             pendingBefore, completedBefore, failuresBefore, outstandingBefore,
                             resolved, queue, stats.pending, stats.completed, stats.failures, outstanding);
    }

    /** The error handler: the head of the queue failed to be fetched or
        parsed; it counts as a failure and leaves the queue. */
    method RecordFailure()
      requires Valid() && queue != []
      modifies this`queue, this`outstanding, this`resolved, stats
      ensures Valid()
      ensures queue == old(queue)[1..] && resolved == old(resolved) + 1
      ensures stats.failures == old(stats.failures) + 1 && stats.completed == old(stats.completed)
      ensures stats.startTime == old(stats.startTime) && stats.duration == old(stats.duration)
    {
      ghost var resolvedBefore, queueBefore, outstandingBefore := resolved, queue, outstanding;
      ghost var pendingBefore, completedBefore, failuresBefore := stats.pending, stats.completed, stats.failures;
      stats.RecordOperationFailure();
      outstanding := outstanding - 1;
      queue := queue[1..];
      resolved := resolved + 1;
      ResolveKeepsConsistent(graph.nodes.Keys, dispatched, resolvedBefore, queueBefore, stats.total,
                             pendingBefore, completedBefore, failuresBefore, outstandingBefore,
                             resolved, queue, stats.pending, stats.completed, stats.failures, outstanding);
    }

    /** One turn of the crawl: the head of the queue is fetched, and its
        page is processed or its failure recorded. One more dispatched URL
        is resolved, and no URL outside `universe` is ever dispatched. */
    method ResolveNext(fetch: string -> Option<seq<string>>, ghost universe: set<string>)
      requires Valid() && outstanding > 0 && Closed(universe, fetch)
      requires Progress(graph.nodes.Keys, graph.edges, dispatched, resolved,
                        stats.completed, stats.failures, fetch, universe, url)
      modifies this`queue, this`outstanding, this`dispatched, this`resolved, graph, stats
      ensures Valid()
      ensures Progress(graph.nodes.Keys, graph.edges, dispatched, resolved,
                       stats.completed, stats.failures, fetch, universe, url)
      ensures resolved == old(resolved) + 1 && |dispatched| <= |universe|
      ensures Resolution(old(graph.nodes.Keys), old(dispatched), old(resolved), graph.nodes.Keys, dispatched, fetch)
      ensures stats.startTime == old(stats.startTime) && stats.duration == old(stats.duration)
    {
      var pageURL := queue[0];
      assert pageURL == dispatched[resolved];

      match fetch(pageURL) {
        case None =>
          RecordFailure();
          assert dispatched[..|dispatched|] == dispatched;
          ProgressStep(old(graph.nodes.Keys), old(graph.edges), old(dispatched), old(resolved),
                       old(stats.completed), old(stats.failures),
                       graph.nodes.Keys, graph.edges, dispatched, resolved, stats.completed, stats.failures,
                       fetch, universe, url);
        case Some(links) =>
          ProcessPage(pageURL, links);
          ProgressStep(old(graph.nodes.Keys), old(graph.edges), old(dispatched), old(resolved),
                       old(stats.completed), old(stats.failures),
                       graph.nodes.Keys, graph.edges, dispatched, resolved, stats.completed, stats.failures,
                       fetch, universe, url);
      }
    }

    /** `wg.Wait()` together with the work it waits for: URLs are resolved
        one at a time until none is outstanding. Every URL stays inside
        `universe`, so the loop ends. */
    method AwaitPages(fetch: string -> Option<seq<string>>, ghost universe: set<string>)
      requires Valid() && Closed(universe, fetch)
      requires Progress(graph.nodes.Keys, graph.edges, dispatched, resolved,
                        stats.completed, stats.failures, fetch, universe, url)
      modifies this`queue, this`outstanding, this`dispatched, this`resolved, graph, stats
      ensures Valid() && queue == [] && outstanding == 0
      ensures url in graph.nodes.Keys && dispatched[0] == url && graph.nodes.Keys <= universe
      ensures forall u {:trigger Graph.NeighborsIn(graph.edges, u)} :: u in graph.nodes.Keys ==> Graph.NeighborsIn(graph.edges, u) == Links(fetch(u))
      ensures forall u {:trigger fetch(u)} :: u in graph.nodes.Keys ==> LinksWithin(fetch(u), graph.nodes.Keys)
      ensures stats.completed == Succeeded(dispatched, |dispatched|, fetch) && stats.completed + stats.failures == |graph.nodes.Keys|
      ensures fetch(url).None? ==>
                stats.failures == 1 && stats.completed == 0 && graph.nodes.Keys == {url}
      ensures stats.startTime == old(stats.startTime) && stats.duration == old(stats.duration)
    {
      while outstanding > 0
        invariant Valid()
        invariant Progress(graph.nodes.Keys, graph.edges, dispatched, resolved,
                           stats.completed, stats.failures, fetch, universe, url)
        invariant stats.startTime == old(stats.startTime) && stats.duration == old(stats.duration)
        decreases |universe| - resolved
      {
        ResolveNext(fetch, universe);
      }
      ProgressDone(graph.nodes.Keys, graph.edges, dispatched, resolved, stats.completed, stats.failures,
                   fetch, universe, url);
    }

    /** `Crawl` on a fresh crawler: seed, record the start time, resolve
        queued URLs until no work is outstanding, record the duration. Every
        URL reachable from the seed is dispatched exactly once, its page's
        links are its edges, and the counters add up. */
    method Crawl(fetch: string -> Option<seq<string>>, ghost universe: set<string>, startNow: int, endNow: int)
      requires Valid() && dispatched == [] && graph.edges == map[]
      requires stats.completed == 0 && stats.failures == 0 && stats.startTime == 0 && stats.duration == 0
      requires url in universe && Closed(universe, fetch)
      modifies this`queue, this`outstanding, this`dispatched, this`resolved, graph, stats
      ensures Valid()
      ensures queue == [] && outstanding == 0
      ensures stats.pending == 0 && stats.total == stats.completed + stats.failures
      ensures stats.total == |graph.nodes|
      ensures stats.completed == Succeeded(dispatched, |dispatched|, fetch)
      ensures url in graph.nodes && dispatched[0] == url && graph.nodes.Keys <= universe
      ensures forall u :: u in graph.nodes ==> graph.Neighbors(u) == Links(fetch(u))
      ensures forall u :: u in graph.nodes ==> LinksWithin(fetch(u), graph.nodes.Keys)
      ensures fetch(url).None? ==>
                stats.failures == 1 && stats.completed == 0 && graph.nodes.Keys == {url}
      ensures stats.startTime == startNow
      ensures startNow == 0 ==> stats.duration == 0
      ensures startNow != 0 ==> stats.duration == endNow - startNow
    {
      Seed();
      stats.RecordStartTime(startNow);
      assert stats.startTime == startNow && stats.duration == 0;
      ProgressStart(graph.nodes.Keys, graph.edges, dispatched, resolved, stats.completed, stats.failures,
                    fetch, universe, url);

      AwaitPages(fetch, universe);
      assert stats.startTime == startNow && stats.duration == 0;
      stats.RecordTotalDuration(endNow);
    }
  }

  /** Resolving the head of the queue, as completed or failed, keeps the
      bookkeeping consistent. */
  lemma ResolveKeepsConsistent(visited: set<string>, dispatched: seq<string>, resolved: nat, queue: seq<string>,
                               total: int, pending: int, completed: int, failures: int, outstanding: int,
                               resolved': nat, queue': seq<string>,
                               pending': int, completed': int, failures': int, outstanding': int)
    requires Consistent(visited, dispatched, resolved, queue, total, pending, completed, failures, outstanding)
    requires queue != [] && queue' == queue[1..] && resolved' == resolved + 1
    requires pending' == pending - 1 && outstanding' == outstanding - 1
    requires completed' + failures' == completed + failures + 1
    ensures Consistent(visited, dispatched, resolved', queue', total, pending', completed', failures', outstanding')
  {
  }
}
