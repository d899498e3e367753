/** Link extraction of page/page.go. The HTML document becomes the sequence
    of its anchors' `href` attributes, `None` for an anchor without one, in
    document order. URL parsing (`net/url`) becomes the function `hostOf`,
    which gives the host of a URL or the parse error. */
module Page {
  import opened Common
  import StringSet

  /** A fetched and parsed page with the links found in it. */
  datatype Page = Page(parentURL: string, url: string, allURLs: seq<string>, internalURLs: seq<string>)

  /** `normalizeURL`: a root-relative link ("/x") is resolved against the
      parent URL, then one trailing slash is dropped. */
  function NormalizeURL(parentURL: string, url: string): (r: string)
    ensures HasPrefix(url, "/") ==> HasPrefix(parentURL + url, r)
    ensures HasPrefix(url, "/") ==>
              |r| == |parentURL + url| - (if HasSuffix(parentURL + url, "/") then 1 else 0)
    ensures !HasPrefix(url, "/") ==> HasPrefix(url, r)
    ensures !HasPrefix(url, "/") ==> |r| == |url| - (if HasSuffix(url, "/") then 1 else 0)
    ensures !HasPrefix(url, "/") && !HasSuffix(url, "/") ==> r == url
  {
    var resolved := if HasPrefix(url, "/") then parentURL + url else url;
    DropTrailingSlash(resolved)
  }

  /** The cases of page/page_test.go, and a doubled slash losing only one. */
  lemma NormalizeURLExamples()
    ensures NormalizeURL("https://example.com", "/cards") == "https://example.com/cards"
    ensures NormalizeURL("https://example.com", "https://example.com/help/") == "https://example.com/help"
    ensures NormalizeURL("https://example.com", "https://example.com/help//") == "https://example.com/help/"
    ensures NormalizeURL("https://example.com", "https://other.org/a") == "https://other.org/a"
  {
    assert HasPrefix("/cards", "/");
    assert !HasSuffix("https://example.com/cards", "/");
    assert !HasPrefix("https://example.com/help/", "/");
    assert HasSuffix("https://example.com/help/", "/");
    assert !HasPrefix("https://example.com/help//", "/");
    assert HasSuffix("https://example.com/help//", "/");
    assert !HasPrefix("https://other.org/a", "/");
    assert !HasSuffix("https://other.org/a", "/");
  }

  /** `isURLSameDomainAsParent`: the parent is parsed first, then the link;
      the first parse error is returned, otherwise whether the hosts agree. */
  function IsURLSameDomainAsParent(parentURL: string, url: string, hostOf: string -> Result<string, string>)
    : (r: Result<bool, string>)
    ensures hostOf(parentURL).Failure? ==> r == Failure(hostOf(parentURL).error)
    ensures hostOf(parentURL).Success? && hostOf(url).Failure? ==> r == Failure(hostOf(url).error)
    ensures r == Success(true) <==>
              hostOf(parentURL).Success? && hostOf(url).Success? && hostOf(parentURL).value == hostOf(url).value
    ensures r == Success(false) <==>
              hostOf(parentURL).Success? && hostOf(url).Success? && hostOf(parentURL).value != hostOf(url).value
  {
    match hostOf(parentURL)
    case Failure(err) => Failure(err)
    case Success(parentHost) =>
      match hostOf(url)
      case Failure(err) => Failure(err)
      case Success(host) => if parentHost != host then Success(false) else Success(true)
  }

  /** The test that admits a link to the internal list. */
  function IsInternal(parentURL: string, hostOf: string -> Result<string, string>): string -> bool
  {
    u => IsURLSameDomainAsParent(parentURL, u, hostOf) == Success(true)
  }

  /** The normalized `href` of every anchor that has one, in document order. */
  function Hrefs(parentURL: string, anchors: seq<Option<string>>): seq<string>
  {
    if anchors == [] then []
    else
      var before := Hrefs(parentURL, anchors[..|anchors| - 1]);
      match anchors[|anchors| - 1]
      case None => before
      case Some(href) => before + [NormalizeURL(parentURL, href)]
  }

  /** The elements of `s` that pass `keep`, in order. */
  function Filter(keep: string -> bool, s: seq<string>): seq<string>
  {
    if s == [] then []
    else Filter(keep, s[..|s| - 1]) + (if keep(s[|s| - 1]) then [s[|s| - 1]] else [])
  }

  /** `s` with every repetition of an earlier element removed. */
  function Dedup(s: seq<string>): seq<string>
  {
    if s == [] then []
    else
      var kept := Dedup(s[..|s| - 1]);
      if s[|s| - 1] in kept then kept else kept + [s[|s| - 1]]
  }

  /** Position of the first occurrence of `x` in `s`. */
  function FirstIndex(s: seq<string>, x: string): (i: nat)
    requires x in s
    ensures i < |s| && s[i] == x && x !in s[..i]
  {
    if s[0] == x then 0 else 1 + FirstIndex(s[1..], x)
  }

  /** One more anchor: its normalized href, if it has one, joins the end. */
  lemma HrefsSnoc(parentURL: string, anchors: seq<Option<string>>, i: nat)
    requires i < |anchors|
    ensures anchors[i].None? ==> Hrefs(parentURL, anchors[..i + 1]) == Hrefs(parentURL, anchors[..i])
    ensures anchors[i].Some? ==>
              Hrefs(parentURL, anchors[..i + 1]) == Hrefs(parentURL, anchors[..i]) + [NormalizeURL(parentURL, anchors[i].value)]
  {
    assert anchors[..i + 1][..i] == anchors[..i];
  }

  lemma FilterSnoc(keep: string -> bool, s: seq<string>, x: string)
    ensures keep(x) ==> Filter(keep, s + [x]) == Filter(keep, s) + [x]
    ensures !keep(x) ==> Filter(keep, s + [x]) == Filter(keep, s)
  {
    assert (s + [x])[..|s|] == s;
    assert Filter(keep, s) + [] == Filter(keep, s);
  }

  lemma DedupSnoc(s: seq<string>, x: string)
    ensures Dedup(s + [x]) == if x in Dedup(s) then Dedup(s) else Dedup(s) + [x]
  {
    assert (s + [x])[..|s|] == s;
  }

  /** `d` lists each element once, in the order of its first occurrence in `s`. */
  ghost predicate InFirstOccurrenceOrder(d: seq<string>, s: seq<string>)
  {
    forall i, j :: 0 <= i < j < |d| ==> d[i] in s && d[j] in s && FirstIndex(s, d[i]) < FirstIndex(s, d[j])
  }

  /** `AllURLs` as `fetchLinks` builds it. */
  function AllLinks(parentURL: string, anchors: seq<Option<string>>): seq<string>
  {
    Dedup(Hrefs(parentURL, anchors))
  }

  /** `InternalURLs` as `fetchLinks` builds it. */
  function InternalLinks(parentURL: string, anchors: seq<Option<string>>, hostOf: string -> Result<string, string>)
    : seq<string>
  {
    Dedup(Filter(IsInternal(parentURL, hostOf), Hrefs(parentURL, anchors)))
  }

  // ---------------------------------------------------------------------
  // Properties of the specification functions

  /** A URL is among the hrefs exactly when some anchor carries an href that
      normalizes to it; anchors without an href contribute nothing. */
  lemma {:induction false} HrefsElements(parentURL: string, anchors: seq<Option<string>>, u: string)
    ensures u in Hrefs(parentURL, anchors) <==>
              exists k :: 0 <= k < |anchors| && anchors[k].Some? && NormalizeURL(parentURL, anchors[k].value) == u
  {
    if anchors != [] {
      var init := anchors[..|anchors| - 1];
      HrefsElements(parentURL, init, u);
      if u in Hrefs(parentURL, init) {
        var k :| 0 <= k < |init| && init[k].Some? && NormalizeURL(parentURL, init[k].value) == u;
        assert anchors[k] == init[k];
      }
      if exists k :: 0 <= k < |anchors| && anchors[k].Some? && NormalizeURL(parentURL, anchors[k].value) == u {
        var k :| 0 <= k < |anchors| && anchors[k].Some? && NormalizeURL(parentURL, anchors[k].value) == u;
        if k < |init| {
          assert init[k] == anchors[k];
        }
      }
    }
  }

  lemma {:induction false} FilterElements(keep: string -> bool, s: seq<string>, x: string)
    ensures x in Filter(keep, s) <==> x in s && keep(x)
  {
    if s != [] {
      var init := s[..|s| - 1];
      FilterElements(keep, init, x);
      assert s == init + [s[|s| - 1]];
    }
  }

  /** `Dedup` keeps every element of `s` and nothing else. */
  lemma {:induction false} DedupHas(s: seq<string>, x: string)
    ensures x in Dedup(s) <==> x in s
  {
    if s != [] {
      var init := s[..|s| - 1];
      DedupHas(init, x);
      assert s == init + [s[|s| - 1]];
    }
  }

  /** `Dedup` keeps each element once. */
  lemma {:induction false} DedupNoDup(s: seq<string>)
    ensures NoDup(Dedup(s))
  {
    if s != [] {
      var init := s[..|s| - 1];
      DedupNoDup(init);
      DedupHas(init, s[|s| - 1]);
      if s[|s| - 1] !in Dedup(init) {
        NoDupSnoc(Dedup(init), s[|s| - 1]);
      }
    }
  }

  lemma {:induction false} FirstIndexInPrefix(a: seq<string>, b: seq<string>, x: string)
    requires x in a
    ensures FirstIndex(a + b, x) == FirstIndex(a, x)
  {
    if a[0] != x {
      assert (a + b)[1..] == a[1..] + b;
      FirstIndexInPrefix(a[1..], b, x);
    }
  }

  /** `Dedup` lists the elements in the order of their first occurrence. */
  lemma {:induction false} DedupFirstOccurrenceOrder(s: seq<string>)
    ensures InFirstOccurrenceOrder(Dedup(s), s)
  {
    if s != [] {
      var init := s[..|s| - 1];
      var last := s[|s| - 1];
      var kept := Dedup(init);
      DedupFirstOccurrenceOrder(init);
      assert s == init + [last];
      forall x | x in kept
        ensures x in init && FirstIndex(s, x) == FirstIndex(init, x)
      {
        DedupHas(init, x);
        FirstIndexInPrefix(init, [last], x);
      }
      if last !in kept {
        DedupHas(init, last);
        assert FirstIndex(s, last) == |init|;
      }
    }
  }

  /** Filtering and deduplicating commute, because whether a URL passes does
      not depend on where it occurs. */
  lemma {:induction false} DedupFilterCommute(keep: string -> bool, s: seq<string>)
    ensures Dedup(Filter(keep, s)) == Filter(keep, Dedup(s))
  {
    if s != [] {
      var init := s[..|s| - 1];
      DedupFilterCommute(keep, init);
      DedupFilterCommuteStep(keep, init, s[|s| - 1]);
      assert s == init + [s[|s| - 1]];
    }
  }

  lemma DedupFilterCommuteStep(keep: string -> bool, init: seq<string>, last: string)
    requires Dedup(Filter(keep, init)) == Filter(keep, Dedup(init))
    ensures Dedup(Filter(keep, init + [last])) == Filter(keep, Dedup(init + [last]))
  {
    DedupHas(init, last);
    FilterElements(keep, init, last);
    DedupHas(Filter(keep, init), last);
    if last in init {
      RepeatedLast(keep, init, last);
    } else {
      NewLast(keep, init, last);
    }
  }

  /** A repeated element changes neither side. */
  lemma RepeatedLast(keep: string -> bool, init: seq<string>, last: string)
    requires Dedup(Filter(keep, init)) == Filter(keep, Dedup(init))
    requires last in Dedup(init)
    requires keep(last) ==> last in Dedup(Filter(keep, init))
    ensures Dedup(Filter(keep, init + [last])) == Filter(keep, Dedup(init + [last]))
  {
    DedupSnoc(init, last);
    FilterSnoc(keep, init, last);
    if keep(last) {
      DedupSnoc(Filter(keep, init), last);
    }
  }

  /** A new element joins the end of both sides, if it passes. */
  lemma NewLast(keep: string -> bool, init: seq<string>, last: string)
    requires Dedup(Filter(keep, init)) == Filter(keep, Dedup(init))
    requires last !in Dedup(init)
    requires last !in Dedup(Filter(keep, init))
    ensures Dedup(Filter(keep, init + [last])) == Filter(keep, Dedup(init + [last]))
  {
    DedupSnoc(init, last);
    FilterSnoc(keep, init, last);
    FilterSnoc(keep, Dedup(init), last);
    if keep(last) {
      DedupSnoc(Filter(keep, init), last);
    }
  }

  /** Each list of a page: duplicate-free, holding exactly the normalized
      hrefs (internal ones for `InternalURLs`), in order of first occurrence;
      and `InternalURLs` is `AllURLs` with the non-internal links taken out,
      so a link whose host check fails is still listed in `AllURLs`. */
  lemma LinksProperties(parentURL: string, anchors: seq<Option<string>>, hostOf: string -> Result<string, string>)
    ensures NoDup(AllLinks(parentURL, anchors))
    ensures forall u :: u in AllLinks(parentURL, anchors) <==>
              exists k :: 0 <= k < |anchors| && anchors[k].Some? && NormalizeURL(parentURL, anchors[k].value) == u
    ensures InFirstOccurrenceOrder(AllLinks(parentURL, anchors), Hrefs(parentURL, anchors))
    ensures InternalLinks(parentURL, anchors, hostOf) == Filter(IsInternal(parentURL, hostOf), AllLinks(parentURL, anchors))
    ensures NoDup(InternalLinks(parentURL, anchors, hostOf))
    ensures forall u :: u in InternalLinks(parentURL, anchors, hostOf) <==>
              u in AllLinks(parentURL, anchors) && IsURLSameDomainAsParent(parentURL, u, hostOf) == Success(true)
    ensures InFirstOccurrenceOrder(InternalLinks(parentURL, anchors, hostOf),
                                   Filter(IsInternal(parentURL, hostOf), Hrefs(parentURL, anchors)))
  {
    var hrefs := Hrefs(parentURL, anchors);
    var keep := IsInternal(parentURL, hostOf);
    DedupNoDup(hrefs);
    DedupFirstOccurrenceOrder(hrefs);
    DedupFirstOccurrenceOrder(Filter(keep, hrefs));
    forall u ensures u in Dedup(hrefs) <==>
        exists k :: 0 <= k < |anchors| && anchors[k].Some? && NormalizeURL(parentURL, anchors[k].value) == u
    {
      DedupHas(hrefs, u);
      HrefsElements(parentURL, anchors, u);
    }
    DedupFilterCommute(keep, hrefs);
    DedupNoDup(Filter(keep, hrefs));
    forall u ensures u in Filter(keep, Dedup(hrefs)) <==> u in Dedup(hrefs) && keep(u) {
      FilterElements(keep, Dedup(hrefs), u);
    }
  }

  /** One more anchor extends both lists as `fetchLinks` does: an anchor
      without an href changes nothing; a normalized href joins `AllURLs`
      unless already there, and joins `InternalURLs` when it is internal and
      not already there. */
  lemma LinksSnoc(parentURL: string, anchors: seq<Option<string>>, i: nat, hostOf: string -> Result<string, string>)
    requires i < |anchors|
    ensures anchors[i].None? ==>
              && AllLinks(parentURL, anchors[..i + 1]) == AllLinks(parentURL, anchors[..i])
              && InternalLinks(parentURL, anchors[..i + 1], hostOf) == InternalLinks(parentURL, anchors[..i], hostOf)
    ensures anchors[i].Some? && NormalizeURL(parentURL, anchors[i].value) in AllLinks(parentURL, anchors[..i]) ==>
              AllLinks(parentURL, anchors[..i + 1]) == AllLinks(parentURL, anchors[..i])
    ensures anchors[i].Some? && NormalizeURL(parentURL, anchors[i].value) !in AllLinks(parentURL, anchors[..i]) ==>
              AllLinks(parentURL, anchors[..i + 1]) == AllLinks(parentURL, anchors[..i]) + [NormalizeURL(parentURL, anchors[i].value)]
    ensures anchors[i].Some? &&
            IsURLSameDomainAsParent(parentURL, NormalizeURL(parentURL, anchors[i].value), hostOf) != Success(true) ==>
              InternalLinks(parentURL, anchors[..i + 1], hostOf) == InternalLinks(parentURL, anchors[..i], hostOf)
    ensures anchors[i].Some? &&
            IsURLSameDomainAsParent(parentURL, NormalizeURL(parentURL, anchors[i].value), hostOf) == Success(true) &&
            NormalizeURL(parentURL, anchors[i].value) in InternalLinks(parentURL, anchors[..i], hostOf) ==>
              InternalLinks(parentURL, anchors[..i + 1], hostOf) == InternalLinks(parentURL, anchors[..i], hostOf)
    ensures anchors[i].Some? &&
            IsURLSameDomainAsParent(parentURL, NormalizeURL(parentURL, anchors[i].value), hostOf) == Success(true) &&
            NormalizeURL(parentURL, anchors[i].value) !in InternalLinks(parentURL, anchors[..i], hostOf) ==>
              InternalLinks(parentURL, anchors[..i + 1], hostOf) ==
              InternalLinks(parentURL, anchors[..i], hostOf) + [NormalizeURL(parentURL, anchors[i].value)]
  {
    var hrefs := Hrefs(parentURL, anchors[..i]);
    var keep := IsInternal(parentURL, hostOf);
    HrefsSnoc(parentURL, anchors, i);
    if anchors[i].Some? {
      var url := NormalizeURL(parentURL, anchors[i].value);
      DedupSnoc(hrefs, url);
      FilterSnoc(keep, hrefs, url);
      DedupSnoc(Filter(keep, hrefs), url);
    }
  }

  // ---------------------------------------------------------------------
  // The imperative extraction

  /** The step `fetchLinks` takes for each list: a URL its cache has not
      seen is appended to the list and added to the cache. */
  method AppendIfNew(urls: seq<string>, cache: StringSet.Set, url: string) returns (urls': seq<string>)
    requires cache.data == Elements(urls)
    modifies cache
    ensures url in urls ==> urls' == urls
    ensures url !in urls ==> urls' == urls + [url]
    ensures cache.data == Elements(urls')
  {
    urls' := urls;
    if !cache.Has(url) {
      urls' := urls + [url];
      cache.Add(url);
      ElementsSnoc(urls, url);
    }
  }

  /** The callback `fetchLinks` runs on anchor `i`: an anchor without an
      href is skipped; otherwise the normalized href joins `allURLs` unless
      its cache has it, and, when the host check succeeds and says internal,
      joins `internalURLs` unless that cache has it. */
  method VisitAnchor(parentURL: string, anchors: seq<Option<string>>, i: nat, hostOf: string -> Result<string, string>,
                     allURLs: seq<string>, internalURLs: seq<string>,
                     allURLsCache: StringSet.Set, internalURLsCache: StringSet.Set)
    returns (allURLs': seq<string>, internalURLs': seq<string>)
    requires i < |anchors| && allURLsCache != internalURLsCache
    requires allURLs == AllLinks(parentURL, anchors[..i])
    requires internalURLs == InternalLinks(parentURL, anchors[..i], hostOf)
    requires allURLsCache.data == Elements(allURLs) && internalURLsCache.data == Elements(internalURLs)
    modifies allURLsCache, internalURLsCache
    ensures allURLs' == AllLinks(parentURL, anchors[..i + 1])
    ensures internalURLs' == InternalLinks(parentURL, anchors[..i + 1], hostOf)
    ensures allURLsCache.data == Elements(allURLs') && internalURLsCache.data == Elements(internalURLs')
  {
    LinksSnoc(parentURL, anchors, i, hostOf);
    allURLs', internalURLs' := allURLs, internalURLs;
    match anchors[i] {
      case None =>
      case Some(href) =>
        var url := NormalizeURL(parentURL, href);
        allURLs' := AppendIfNew(allURLs, allURLsCache, url);

        var isInternalURL := IsURLSameDomainAsParent(parentURL, url, hostOf);
        match isInternalURL {
          case Failure(_) =>
          case Success(internal) =>
            if internal {
              internalURLs' := AppendIfNew(internalURLs, internalURLsCache, url);
            }
        }
    }
  }

  /** `fetchLinks`: one pass over the anchors, appending each new normalized
      href to `allURLs` and each new internal one to `internalURLs`, with two
      string sets remembering what each list already holds. */
  method FetchLinks(parentURL: string, anchors: seq<Option<string>>, hostOf: string -> Result<string, string>)
    returns (allURLs: seq<string>, internalURLs: seq<string>)
    ensures allURLs == AllLinks(parentURL, anchors)
    ensures internalURLs == InternalLinks(parentURL, anchors, hostOf)
  {
    allURLs, internalURLs := [], [];
    var allURLsCache := new StringSet.Set();
    var internalURLsCache := new StringSet.Set();

    var i := 0;
    while i < |anchors|
      invariant 0 <= i <= |anchors|
      invariant fresh(allURLsCache) && fresh(internalURLsCache) && allURLsCache != internalURLsCache
      invariant allURLs == AllLinks(parentURL, anchors[..i])
      invariant internalURLs == InternalLinks(parentURL, anchors[..i], hostOf)
      invariant allURLsCache.data == Elements(allURLs)
      invariant internalURLsCache.data == Elements(internalURLs)
    {
      allURLs, internalURLs := VisitAnchor(parentURL, anchors, i, hostOf, allURLs, internalURLs,
                                           allURLsCache, internalURLsCache);
      i := i + 1;
    }
    assert anchors[..|anchors|] == anchors;
  }

  /** `NewPage`: a page of the given URLs whose link lists are those
      `fetchLinks` extracts from its anchors. */
  method NewPage(parentURL: string, url: string, anchors: seq<Option<string>>, hostOf: string -> Result<string, string>)
    returns (p: Page)
    ensures p.parentURL == parentURL && p.url == url
    ensures p.allURLs == AllLinks(parentURL, anchors)
    ensures p.internalURLs == InternalLinks(parentURL, anchors, hostOf)
  {
    p := Page(parentURL, url, [], []);
    var allURLs, internalURLs := FetchLinks(parentURL, anchors, hostOf);
    p := p.(allURLs := allURLs, internalURLs := internalURLs);
  }
}
