/** Where a claim's evidence comes from: the sources asserted for it, and for a turn the pages its answers cite. */
module ClaimSources {
  import opened Prelude
  import opened ClaimEvidence
  import opened ClaimEvents
  import opened ClaimPlanner
  import opened ClaimHistory

  // ---- the first source of each page

  /** Every page's first source, in order. */
  function FirstOfEachPage(xs: seq<Source>): seq<Source> {
    if xs == [] then [] else
      var front, last := FirstOfEachPage(xs[..|xs| - 1]), xs[|xs| - 1];
      if HasUrl(front, last.url) then front else front + [last]
  }

  /** Every page of the list is there, once. */
  lemma {:induction false} PagesAreKept(xs: seq<Source>)
    ensures UrlUnique(FirstOfEachPage(xs))
    ensures forall url :: HasUrl(FirstOfEachPage(xs), url) <==> HasUrl(xs, url)
  {
    if xs != [] {
      var front, last := xs[..|xs| - 1], xs[|xs| - 1];
      PagesAreKept(front);
      var before := FirstOfEachPage(front);
      hide HasUrl;
      if !HasUrl(before, last.url) { UniqueSnoc(before, last); }
      forall url ensures HasUrl(FirstOfEachPage(xs), url) <==> HasUrl(xs, url) {
        assert xs == front + [last];
        HasUrlSnoc(front, last, url);
        HasUrlSnoc(before, last, url);
      }
    }
  }

  /** Each of them stands in the list with none of its page before it. */
  lemma {:induction false} FirstsAreFirst(xs: seq<Source>, s: Source)
    ensures s in FirstOfEachPage(xs) <==> exists k :: FirstAt(xs, s, k)
  {
    if xs != [] {
      var front, last := xs[..|xs| - 1], xs[|xs| - 1];
      FirstsAreFirst(front, s);
      PagesAreKept(front);
      hide HasUrl;
      forall k | 0 <= k < |front| ensures xs[..k] == front[..k] && xs[k] == front[k] {}
      assert xs[..|front|] == front;
      if k :| FirstAt(front, s, k) { assert FirstAt(xs, s, k); }
      if k :| FirstAt(xs, s, k) { assert k < |front| ==> FirstAt(front, s, k); }
      if s == last && !HasUrl(front, last.url) { assert FirstAt(xs, s, |front|); }
    }
  }

  ghost predicate FirstAt(xs: seq<Source>, s: Source, k: int) {
    0 <= k < |xs| && xs[k] == s && !HasUrl(xs[..k], s.url)
  }

  lemma HasUrlSnoc(xs: seq<Source>, x: Source, url: string)
    ensures HasUrl(xs + [x], url) <==> HasUrl(xs, url) || x.url == url
  {
    if HasUrl(xs, url) {
      var i :| 0 <= i < |xs| && xs[i].url == url;
      assert (xs + [x])[i].url == url;
    }
    if x.url == url { assert (xs + [x])[|xs|].url == url; }
  }

  lemma UniqueSnoc(xs: seq<Source>, x: Source)
    requires UrlUnique(xs) && !HasUrl(xs, x.url)
    ensures UrlUnique(xs + [x])
  {
  }

  lemma {:induction false} UniqueIsFirst(xs: seq<Source>)
    requires UrlUnique(xs)
    ensures FirstOfEachPage(xs) == xs
  {
    if xs != [] {
      var front, last := xs[..|xs| - 1], xs[|xs| - 1];
      UniqueIsFirst(front);
      assert !HasUrl(front, last.url);
      assert xs == front + [last];
    }
  }

  lemma {:induction false} UnionIsFirst(xs: seq<Source>, more: seq<Source>)
    ensures Union(FirstOfEachPage(xs), more) == FirstOfEachPage(xs + more)
    decreases |more|
  {
    if more != [] {
      var longer := xs + [more[0]];
      assert longer[..|xs|] == xs;
      assert xs + more == longer + more[1..];
      UnionIsFirst(longer, more[1..]);
    } else {
      assert xs + more == xs;
    }
  }

  /** Cutting early and cutting late come to the same. */
  lemma MergeOfCapped(xs: seq<Source>, more: seq<Source>)
    requires UrlUnique(xs)
    ensures Merge(Capped(xs, MAX_EVIDENCE), more) == Capped(Union(xs, more), MAX_EVIDENCE)
  {
    if |xs| > MAX_EVIDENCE {
      UnionGrows(xs, more);
      UnionGrows(xs[..MAX_EVIDENCE], more);
    }
  }

  // ---- the evidence of a folded claim

  /** The sources asserted for a claim, in log order. */
  function SourcesOf(events: seq<Event>, id: string): seq<Source> {
    if events == [] then [] else
      var last := events[|events| - 1];
      SourcesOf(events[..|events| - 1], id) + (if Asserts(last, id) then last.kind.sources else [])
  }

  lemma EvidenceStep(env: Env, c: Claim, e: Event)
    ensures Apply(env, c, e).evidence
         == if Asserts(e, c.id) && e.kind.sources != [] then Merge(c.evidence, e.kind.sources) else c.evidence
  {
    hide Merge, Summarize, MergeCitations;
  }

  lemma MoreSources(before: seq<Source>, more: seq<Source>)
    ensures Capped(FirstOfEachPage(before + more), MAX_EVIDENCE)
         == var current := Capped(FirstOfEachPage(before), MAX_EVIDENCE);
            if more != [] then Merge(current, more) else current
  {
    hide FirstOfEachPage, Merge, Union;
    PagesAreKept(before);
    MergeOfCapped(FirstOfEachPage(before), more);
    UnionIsFirst(before, more);
    if more == [] { assert before + more == before; }
  }

  /**
   * For any log and any claim to start from: the evidence is what was there and what was asserted for the claim, the
   * first source of each page in log order, cut at the cap.
   */
  lemma {:induction false} EvidenceIsWhatWasAsserted(env: Env, st: Claim, events: seq<Event>)
    requires UrlUnique(st.evidence) && |st.evidence| <= MAX_EVIDENCE
    ensures Fold(env, st, events).evidence
         == Capped(FirstOfEachPage(st.evidence + SourcesOf(events, st.id)), MAX_EVIDENCE)
  {
    if events == [] {
      assert st.evidence + [] == st.evidence;
      UniqueIsFirst(st.evidence);
    } else {
      var front, last := events[..|events| - 1], events[|events| - 1];
      var c, before := Fold(env, st, front), st.evidence + SourcesOf(front, st.id);
      var more := if Asserts(last, st.id) then last.kind.sources else [];
      assert before + more == st.evidence + SourcesOf(events, st.id);
      hide Apply, Merge, FirstOfEachPage, Capped, UrlUnique, SourcesOf;
      EvidenceIsWhatWasAsserted(env, st, front);
      FoldSnoc(env, st, events);
      FoldKeepsId(env, st, front);
      hide Fold;
      EvidenceStep(env, c, last);
      MoreSources(before, more);
    }
  }

  // ---- the sources a turn asserts

  /** The source that a citation number stands for: its page, with the publisher the classification gives. */
  predicate IsSourceOf(env: Env, pages: map<int, CitedPage>, n: int, s: Source) {
    && n in pages && s.n == n && s.url == pages[n].url && s.date == pages[n].date
    && Publisher(s.host, s.tier, s.publisher) == env.classify(pages[n].url)
  }

  /** The citation numbers with a known page. */
  function Known(numbers: seq<int>, pages: map<int, CitedPage>): seq<int> {
    if numbers == [] then [] else
      var last := numbers[|numbers| - 1];
      Known(numbers[..|numbers| - 1], pages) + (if last in pages then [last] else [])
  }

  /** The sources of a claim's known citations, in their order, one for each. */
  ghost predicate ListsSources(env: Env, numbers: seq<int>, pages: map<int, CitedPage>, sources: seq<Source>) {
    && |sources| == |Known(numbers, pages)|
    && forall k | 0 <= k < |sources| :: IsSourceOf(env, pages, Known(numbers, pages)[k], sources[k])
  }

  lemma {:induction false} KnownHas(numbers: seq<int>, pages: map<int, CitedPage>, n: int)
    ensures n in Known(numbers, pages) <==> n in numbers && n in pages
  {
    if numbers != [] {
      KnownHas(numbers[..|numbers| - 1], pages, n);
      assert numbers == numbers[..|numbers| - 1] + [numbers[|numbers| - 1]];
    }
  }

  lemma {:induction false} KnownConcat(a: seq<int>, b: seq<int>, pages: map<int, CitedPage>)
    ensures Known(a + b, pages) == Known(a, pages) + Known(b, pages)
  {
    if b == [] {
      assert a + b == a;
    } else {
      assert (a + b)[..|a + b| - 1] == a + b[..|b| - 1];
      KnownConcat(a, b[..|b| - 1], pages);
    }
  }

  lemma {:induction false} ResolvedSources(env: Env, numbers: seq<int>, pages: map<int, CitedPage>)
    ensures ListsSources(env, numbers, pages, Resolve(env, numbers, pages))
    decreases |numbers|
  {
    if numbers != [] {
      var n, rest := numbers[0], numbers[1..];
      ResolvedSources(env, rest, pages);
      assert numbers == [n] + rest;
      KnownConcat([n], rest, pages);
      assert [n][..0] == [] && Known([], pages) == [];
      assert Known([n], pages) == if n in pages then [n] else [];
    }
  }
}
