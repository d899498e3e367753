# crwl — a verified model of the crawler's bookkeeping

crwl crawls a web site from a seed URL. It fetches every page reachable
through same-host links exactly once, records which page links to which in a
graph, and counts operations as they are dispatched, completed and failed.
This project models that core in Dafny:

- the visited graph of `graph/graph.go` (class `Graph.Graph`);
- the string set of `page/set.go` (class `StringSet.Set`);
- the counters of `stats/stats.go` (class `Stats.Stats`). Beside the class,
  the value-level `Counters` and `Apply` show that the balance
  `pending == total - completed - failures` survives any sequence of
  recordings;
- link extraction from `page/page.go`:
  - `NormalizeURL` and `IsURLSameDomainAsParent` are functions.
  - `fetchLinks` is the method `FetchLinks`, with its per-anchor callback as
    `VisitAnchor`.
  - `FetchLinks` is proved against the specification functions `AllLinks` and
    `InternalLinks`.
- the coordinator of `crawler/crawler.go`, as one sequential worklist (class
  `Crawler.Crawler`):
  - The fetch workers, the parser tasks and their channels become a FIFO
    `queue`.
  - The fetch-and-parse outcome of a URL becomes a function
    `fetch: string -> Option<seq<string>>`. `None` is a fetch or parse error;
    `Some(links)` gives the page's internal links.

The HTML document is the sequence of its anchors' `href` attributes, in
document order, with `None` for an anchor that has none. URL parsing is the
function `hostOf`, which gives the host of a URL or a parse error. Go's
`time.Time` is an `int` in which 0 stands for the zero time, and the clock
readings are arguments.

Main results:

- **At-most-once dispatch.** `Crawler.Worklist` is kept by every coordinator
  step:
  - No URL is ever dispatched twice.
  - The graph's nodes are exactly the dispatched URLs.
  - The queue is the dispatched URLs not yet resolved, in order.
- **The wait-group counter equals `pending`** (`Crawler.Consistent`). The two
  `AddEdge` calls of the coordinator never fail (`HandleLink`).
- **The crawl ends** (`AwaitPages`) when the URLs reachable from the seed lie
  in a finite set `universe` that is closed under links. The loop measure is
  the number of URLs of `universe` not yet resolved.
- **What `Crawl` leaves behind:**
  - `pending` is 0.
  - `total == completed + failures ==` the number of nodes.
  - Each node's neighbours are its page's links, in order.
  - Every link of a visited page is visited.
  - `completed` counts the successful fetches.
  - A seed that fails gives one failure and nothing else.
- **Link lists** (`Page.LinksProperties`). Both lists are duplicate-free and in
  order of first occurrence. The internal list is the full list filtered by the
  host check, so a URL whose host check errs stays in the full list only.

The getters of `stats/stats.go` (`Total`, `Pending`, `Failures`,
`Completed`, `Duration`) are the read-only functions `Stats.Stats.Total` and
its siblings, each reading one field; `Stats.GettersObserveBalance` states
what they report together.

## Model

| member | source | states |
|---|---|---|
| Common.DropTrailingSlash | crawler/crawler.go:50-53 | exactly one trailing "/" is removed when present, otherwise the string is unchanged; the result is a prefix of the input |
| StringSet.Set.constructor | page/set.go:15-19 | a new set is empty: `Has(k)` is false for every `k` |
| StringSet.Set.Add | page/set.go:22-24 | the key joins the set and `Has(key)` holds; adding a present key changes nothing; membership of every other key is unchanged |
| StringSet.Set.Has | page/set.go:27-30 | true exactly when the key is in the set; reads the set and changes nothing |
| Graph.WithEdgeNeighbors | graph/graph.go:66 | appending an edge puts the end URL at the end of the start URL's neighbours, duplicates allowed, and changes no other URL's neighbours |
| Graph.Graph.constructor | graph/graph.go:27-32 | a new graph has no nodes and no edges, so `HasNode` is false and the neighbours are empty for every URL |
| Graph.Graph.HasNode | graph/graph.go:71-78 | true exactly when the URL has a node; reads the graph only |
| Graph.Graph.AddNode | graph/graph.go:35-46 | afterwards `HasNode(url)` holds; a present URL leaves the nodes unchanged; a new URL adds only its own key; edges are unchanged and the graph stays well formed |
| Graph.Graph.AddEdge | graph/graph.go:49-68 | succeeds exactly when both endpoints are nodes; a missing start is reported first, then a missing end, each with the source's message; a failure changes nothing; a success appends one edge and changes no node |
| Stats.Apply | stats/stats.go:45-62 | a new operation raises total and pending by one; a failure or completion lowers pending by one and raises failures or completed by one; nothing else moves; the balance holds after exactly when it held before |
| Stats.ReplayCounts | stats/stats.go:45-62 | after any sequence of recordings, each counter has moved by exactly the number of recordings that touch it, in whatever order they came |
| Stats.ReplayBalanced | stats/stats.go:34-62 | starting balanced, every sequence of recordings keeps `pending == total - completed - failures` |
| Stats.NewOperationsOnFreshCounters | stats/stats_test.go:8-31 | n new operations on fresh counters give total = pending = n |
| Stats.FailuresDrainPending | stats/stats_test.go:34-60 | from pending = n, n failures give failures = n and pending = 0 |
| Stats.CompletionsDrainPending | stats/stats_test.go:63-89 | from pending = n, n completions give completed = n and pending = 0 |
| Stats.Stats.constructor | stats/stats.go:34-41 | all four counters are zero and neither start time nor duration is recorded |
| Stats.Stats.RecordNewOperation | stats/stats.go:45-48 | the counters are `Apply(old counters, NewOperation)`: total and pending up by one, the rest unchanged |
| Stats.Stats.RecordOperationFailure | stats/stats.go:52-55 | pending down by one, failures up by one, nothing else changed |
| Stats.Stats.RecordOperationCompletion | stats/stats.go:59-62 | pending down by one, completed up by one, nothing else changed |
| Stats.Stats.RecordStartTime | stats/stats.go:65-71 | sets the start time only when it is unset (0, the zero time, which a clock reading never is), so once a start time is recorded later calls are no-ops; the counters and duration are unchanged |
| Stats.Stats.RecordTotalDuration | stats/stats.go:75-85 | does nothing while the start time is unset; otherwise sets the duration to now minus start only while it is still 0, so later calls are no-ops |
| Stats.GettersObserveBalance | stats/stats.go:87-112 | `Total`, `Pending`, `Completed` and `Failures` return the object's counters, so on balanced counters `Pending() == Total() - Completed() - Failures()`, and with nothing pending `Total()` is `Completed() + Failures()` |
| Page.NormalizeURL | page/page.go:52-64 | a URL starting with "/" is resolved against the parent URL; at most one trailing "/" is removed; a URL neither starting nor ending with "/" is returned unchanged |
| Page.NormalizeURLExamples | page/page_test.go:79-80 | "/cards" becomes "https://example.com/cards" and "https://example.com/help/" becomes ".../help"; a doubled slash loses only one; a foreign URL is unchanged |
| Page.IsURLSameDomainAsParent | page/page.go:68-86 | a parent parse error comes first, then a link parse error; otherwise the result is true exactly when the two hosts are equal and false exactly when they differ |
| Page.HrefsElements | page/page.go:97-104 | a URL is among the normalized hrefs exactly when some anchor with an href normalizes to it; anchors without an href contribute nothing |
| Page.DedupNoDup | page/page.go:106-110 | the cache-guarded append produces a list without repetitions |
| Page.DedupFirstOccurrenceOrder | page/page.go:106-110 | the cache-guarded append lists URLs in the order of their first occurrence |
| Page.DedupFilterCommute | page/page.go:112-127 | deduplicating the internal hrefs equals filtering the deduplicated hrefs, because a URL's host check has one fixed outcome |
| Page.LinksProperties | page/page.go:97-133 | `AllURLs` is duplicate-free, holds exactly the normalized hrefs and keeps first-occurrence order; `InternalURLs` is `AllURLs` filtered by a successful same-host check, so it is a duplicate-free subsequence of it, in the order in which the internal hrefs first occur, and a URL whose check errs stays in `AllURLs` only |
| Page.LinksSnoc | page/page.go:97-130 | one more anchor: no href changes neither list; a normalized href joins `AllURLs` unless present, and joins `InternalURLs` when internal and not present |
| Page.AppendIfNew | page/page.go:106-110 | a URL the cache lacks is appended to the list and added to the cache, a known one changes nothing, and the cache keeps holding exactly the list's elements |
| Page.VisitAnchor | page/page.go:97-130 | the callback for anchor `i` turns the lists for the first `i` anchors into those for the first `i + 1`, keeping both caches equal to their lists |
| Page.FetchLinks | page/page.go:89-134 | the two lists built by the loop are exactly `AllLinks` and `InternalLinks` of the anchors |
| Page.NewPage | page/page.go:41-49 | the page keeps the given parent URL and URL, and its lists are those `fetchLinks` extracts |
| Crawler.WithEdgesNeighbors | crawler/crawler.go:139-153 | handling a page's links appends them, in order and with duplicates, to the page's neighbours and to no other URL's |
| Crawler.DispatchKeepsConsistent | crawler/crawler.go:148-152 | dispatching an unvisited URL keeps every URL dispatched at most once, marks it visited, queues it once and counts it as total and pending |
| Crawler.ResolveKeepsConsistent | crawler/crawler.go:155-169 | resolving the head of the queue as completed or failed keeps pending, the wait-group counter and the queue length equal |
| Crawler.DispatchedBound | crawler/crawler.go:141-152 | because dispatch is gated by the node check, the dispatched URLs are distinct and so no more numerous than the URLs they are drawn from |
| Crawler.ProgressStart | crawler/crawler.go:185-188 | right after seeding, the seed is the only dispatched URL, nothing is resolved and the crawl invariant holds |
| Crawler.ProgressStep | crawler/crawler.go:138-169 | resolving the next URL, with a page or with a failure, keeps the crawl invariant: resolved URLs have their links as neighbours and visited, and `completed` and `failures` count the resolved successes and failures; the visited URLs grow by exactly the resolved page's links |
| Crawler.ProgressDone | crawler/crawler.go:191 | once every dispatched URL is resolved, each node's neighbours are its page's links, the nodes are closed under links, completed + failures is the number of nodes, and a failed seed leaves one failure and one node |
| Crawler.Crawler.constructor | crawler/crawler.go:49-67 | the seed loses exactly one trailing "/", and the graph, the counters and the queue start empty |
| Crawler.Crawler.Dispatch | crawler/crawler.go:150-152 | a newly added URL is queued once, the wait group and total and pending grow by one, and the crawler stays consistent |
| Crawler.Crawler.Seed | crawler/crawler.go:185-188 | the seed becomes the only node and the only queued URL, with total = pending = 1 |
| Crawler.Crawler.HandleLink | crawler/crawler.go:141-152 | the edge is always added; a known link is not queued and no counter changes; a new link becomes a node, is queued once and raises total and pending by one |
| Crawler.Crawler.HandleLinks | crawler/crawler.go:139-153 | all of a page's internal links get edges in order, the nodes grow by exactly those links, and earlier dispatches are kept |
| Crawler.Crawler.ProcessPage | crawler/crawler.go:138-157 | after a page's links are handled, completed rises by one, the page leaves the queue, and pending still equals the wait-group counter |
| Crawler.Crawler.RecordFailure | crawler/crawler.go:165-169 | a failed URL leaves the queue, failures rises by one, and pending still equals the wait-group counter |
| Crawler.Crawler.ResolveNext | crawler/crawler.go:138-169 | one URL is fetched and its page processed or its failure recorded; the crawl invariant is kept, no URL outside `universe` is dispatched, earlier dispatches keep their order, and the nodes grow by exactly the resolved page's links (by nothing on a failure) |
| Crawler.Crawler.AwaitPages | crawler/crawler.go:191 | the loop ends with nothing outstanding; every node's neighbours are its page's links, every link of a visited page is a node, every node lies in `universe`, and the counters count successes and failures |
| Crawler.Crawler.Crawl | crawler/crawler.go:175-193 | on a fresh crawler: pending ends at 0, total = completed + failures = the number of nodes, the seed is a node, every link of a visited page is a node and every node lies in `universe`, edges match the pages' links, a failing seed gives one failure, and the start time and duration are recorded once |

## Left out

- Goroutines, channels, the graph's `RWMutex` and the atomic counter updates are not modelled. Of `sync.WaitGroup` only the counter is kept, as the field `outstanding`; the blocking `Wait` becomes the loop of `AwaitPages`. The model is one sequential interleaving in which the coordinator handles pages in FIFO dispatch order, where the program handles them in arrival order.
- Crawler.Crawler.ResolveNext: fixes the order in which outstanding URLs are resolved to the queue order; the program lets pages and errors arrive in any order.
- `listenForURLs` and `startParser` (the fetch workers and the parse tasks) become the `fetch` argument. fetcher/fetcher.go (HTTP, timeouts, status codes) and goquery parsing are not part of this model.
- The `Workers` count, the request timeout, `Fetcher`, `LogWriter` and the error channel of `NewCrawler` are not modelled, because they only configure concurrency and I/O.
- Crawler.Crawler.Crawl: requires a fresh crawler and a finite set `universe` of URLs closed under links that contains the seed. The program has no such bound and would not terminate on an infinite site.
- Stats.Stats.RecordNewOperation: counters are unbounded integers; the `int64` wrap-around is not modelled.
- Stats.Stats.RecordOperationFailure: counters are unbounded integers; the `int64` wrap-around is not modelled.
- Stats.Stats.RecordOperationCompletion: counters are unbounded integers; the `int64` wrap-around is not modelled.
- `time.Now` and `time.Since` are not modelled; the clock readings are `int` arguments, with 0 for Go's zero `time.Time`.
- `Page.Print`, `Stats.Print` and the log lines are output formatting and are not modelled.
- The page's goquery `Document` field and `RawPage` are not modelled, because the anchors stand for the document.
- `Page.ParentURL` is kept in the datatype, but the crawler's pages are represented only by their fetch outcome.
- main.go (flag parsing and printing) is not part of this model.
- The crawl tests' mock fetcher and mock HTML pages are not part of this model.
