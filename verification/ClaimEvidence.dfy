/** What a claim's cited pages can establish, and the status rule that follows from it. */
module ClaimEvidence {
  import opened Prelude

  datatype Status = Confirmed | Alleged | Reported | Unverified | Retracted

  datatype Tier = Official | WireMajor | LocalNews | Other | Aggregator
  {
    function Rank(): nat {
      match this case Official => 1 case WireMajor => 2 case LocalNews => 3 case Other => 4 case Aggregator => 5
    }
  }

  datatype Publisher = Publisher(host: string, tier: Tier, publisher: string)

  datatype CitedPage = CitedPage(url: string, date: string)

  datatype Source = Source(n: int, url: string, host: string, tier: Tier, publisher: string, date: string)

  /** Text normalization, source classification and date parsing are arbitrary functions here. */
  datatype Env = Env(normalize: string -> string, classify: string -> Publisher, dateMs: string -> Option<int>)

  const MAX_EVIDENCE: nat := 24
  const STALE_AFTER_MS: int := 180 * 86_400_000

  // ---- resolving and merging

  function Resolve(env: Env, numbers: seq<int>, pages: map<int, CitedPage>): seq<Source> {
    if numbers == [] then [] else
      var n := numbers[0];
      (if n in pages then
         var c := env.classify(pages[n].url);
         [Source(n, pages[n].url, c.host, c.tier, c.publisher, pages[n].date)]
       else [])
      + Resolve(env, numbers[1..], pages)
  }

  method ResolveEvidence(env: Env, numbers: seq<int>, pages: map<int, CitedPage>) returns (out: seq<Source>)
    ensures out == Resolve(env, numbers, pages)
  {
    out := [];
    for i := 0 to |numbers|
      invariant out + Resolve(env, numbers[i..], pages) == Resolve(env, numbers, pages)
    {
      var n := numbers[i];
      ghost var done, rest := out, Resolve(env, numbers[i + 1..], pages);
      assert numbers[i..][1..] == numbers[i + 1..];
      if n in pages {
        var c := env.classify(pages[n].url);
        var source := Source(n, pages[n].url, c.host, c.tier, c.publisher, pages[n].date);
        out := out + [source];
        assert Resolve(env, numbers[i..], pages) == [source] + rest;
        hide Resolve;
        assert done + ([source] + rest) == out + rest;
      } else {
        assert Resolve(env, numbers[i..], pages) == rest;
      }
    }
  }

  predicate HasUrl(evidence: seq<Source>, url: string) {
    exists i | 0 <= i < |evidence| :: evidence[i].url == url
  }

  function Union(current: seq<Source>, next: seq<Source>): seq<Source>
    decreases |next|
  {
    if next == [] then current
    else Union(if HasUrl(current, next[0].url) then current else current + [next[0]], next[1..])
  }

  function Merge(current: seq<Source>, next: seq<Source>): seq<Source> { Capped(Union(current, next), MAX_EVIDENCE) }

  method MergeEvidence(current: seq<Source>, next: seq<Source>) returns (out: seq<Source>)
    ensures out == Merge(current, next)
  {
    out := current;
    for i := 0 to |next|
      invariant Union(out, next[i..]) == Union(current, next)
    {
      assert next[i..][1..] == next[i + 1..];
      if !HasUrl(out, next[i].url) { out := out + [next[i]]; }
    }
    out := Capped(out, MAX_EVIDENCE);
  }

  ghost predicate UrlUnique(evidence: seq<Source>) {
    forall i, j | 0 <= i < j < |evidence| :: evidence[i].url != evidence[j].url
  }

  lemma {:induction false} UnionGrows(current: seq<Source>, next: seq<Source>)
    ensures current <= Union(current, next)
    ensures UrlUnique(current) ==> UrlUnique(Union(current, next))
    ensures forall i | 0 <= i < |next| :: HasUrl(Union(current, next), next[i].url)
    decreases |next|
  {
    if next != [] {
      var first := if HasUrl(current, next[0].url) then current else current + [next[0]];
      UnionGrows(first, next[1..]);
      assert HasUrl(first, next[0].url) by {
        if !HasUrl(current, next[0].url) { assert first[|current|].url == next[0].url; }
      }
      var k :| 0 <= k < |first| && first[k].url == next[0].url;
      assert Union(current, next)[k].url == next[0].url;
      forall i | 0 <= i < |next| ensures HasUrl(Union(current, next), next[i].url) {
        if i > 0 { assert next[i] == next[1..][i - 1]; }
      }
    }
  }

  /** Merging keeps every earlier source in place, stays free of repeated pages and within the cap. */
  lemma MergeKeepsEvidence(current: seq<Source>, next: seq<Source>)
    requires UrlUnique(current) && |current| <= MAX_EVIDENCE
    ensures current <= Merge(current, next) && UrlUnique(Merge(current, next)) && |Merge(current, next)| <= MAX_EVIDENCE
  {
    UnionGrows(current, next);
  }

  // ---- the status rule

  datatype Summary = Summary(tier: Option<Tier>, corroboration: nat, ceiling: Status)

  function Publishers(evidence: seq<Source>, majorOnly: bool): set<string> {
    set i | 0 <= i < |evidence| && evidence[i].tier != Aggregator && (majorOnly ==> evidence[i].tier == WireMajor) ::
      evidence[i].publisher
  }

  function BestTier(evidence: seq<Source>): Tier {
    if evidence == [] then Aggregator else
      var best := BestTier(evidence[..|evidence| - 1]);
      var last := evidence[|evidence| - 1].tier;
      if last.Rank() < best.Rank() then last else best
  }

  function Ceiling(evidence: seq<Source>): (c: Status)
    ensures c in {Confirmed, Reported, Unverified}
  {
    if (exists i | 0 <= i < |evidence| :: evidence[i].tier == Official) || |Publishers(evidence, true)| >= 2
      then Confirmed
    else if exists i | 0 <= i < |evidence| :: evidence[i].tier != Aggregator then Reported
    else Unverified
  }

  function Summarize(evidence: seq<Source>): Summary {
    Summary(if evidence == [] then None else Some(BestTier(evidence)), |Publishers(evidence, false)|, Ceiling(evidence))
  }

  function Derive(suggested: Status, evidence: seq<Source>, contradicted: bool): Status {
    if suggested == Alleged || suggested == Retracted || suggested == Unverified then suggested
    else
      var ceiling := Ceiling(evidence);
      if contradicted && ceiling == Confirmed then Reported else ceiling
  }

  predicate Stale(env: Env, evidence: seq<Source>, claimDate: string, at: int) {
    var dates := seq(|evidence|, i requires 0 <= i < |evidence| => evidence[i].date) + [claimDate];
    && (exists i | 0 <= i < |dates| :: env.dateMs(dates[i]).Some?)
    && (forall i | 0 <= i < |dates| && env.dateMs(dates[i]).Some? :: at - env.dateMs(dates[i]).value > STALE_AFTER_MS)
  }

  /** The best tier is one the evidence holds, and nothing in it ranks higher. */
  lemma {:induction false} BestTierIsBest(evidence: seq<Source>)
    requires evidence != []
    ensures exists i | 0 <= i < |evidence| :: evidence[i].tier == BestTier(evidence)
    ensures forall i | 0 <= i < |evidence| :: BestTier(evidence).Rank() <= evidence[i].tier.Rank()
  {
    var front, last := evidence[..|evidence| - 1], evidence[|evidence| - 1];
    if front != [] {
      BestTierIsBest(front);
      if last.tier.Rank() < BestTier(front).Rank() {
        assert evidence[|evidence| - 1].tier == BestTier(evidence);
      } else {
        var i :| 0 <= i < |front| && front[i].tier == BestTier(front);
        assert evidence[i].tier == BestTier(evidence);
      }
    } else {
      assert last.tier == BestTier(evidence);
    }
  }

  function Level(s: Status): nat { if s == Confirmed then 2 else if s == Reported then 1 else 0 }

  /** More evidence never lowers what a claim can be called. */
  lemma CeilingNeverFalls(evidence: seq<Source>, more: seq<Source>)
    requires evidence <= more
    ensures Level(Ceiling(evidence)) <= Level(Ceiling(more))
  {
    forall i | 0 <= i < |evidence| ensures evidence[i] == more[i] {}
    assert Publishers(evidence, true) <= Publishers(more, true);
    SubsetSize(Publishers(evidence, true), Publishers(more, true));
    if exists i | 0 <= i < |evidence| :: evidence[i].tier != Aggregator {
      var i :| 0 <= i < |evidence| && evidence[i].tier != Aggregator;
      assert more[i].tier != Aggregator;
    }
    if exists i | 0 <= i < |evidence| :: evidence[i].tier == Official {
      var i :| 0 <= i < |evidence| && evidence[i].tier == Official;
      assert more[i].tier == Official;
    }
  }

  lemma SubsetSize(a: set<string>, b: set<string>)
    requires a <= b
    ensures |a| <= |b|
  {
    assert b == a + (b - a);
  }

  /** The newest of the dates that can be read. */
  function Newest(env: Env, dates: seq<string>): Option<int> {
    if dates == [] then None else
      var before, last := Newest(env, dates[..|dates| - 1]), env.dateMs(dates[|dates| - 1]);
      if before.None? || (last.Some? && last.value > before.value) then last else before
  }

  lemma {:induction false} NewestIsNewest(env: Env, dates: seq<string>)
    ensures Newest(env, dates).None? <==> forall i | 0 <= i < |dates| :: env.dateMs(dates[i]).None?
    ensures Newest(env, dates).Some? ==>
              && (exists i | 0 <= i < |dates| :: env.dateMs(dates[i]) == Newest(env, dates))
              && forall i | 0 <= i < |dates| && env.dateMs(dates[i]).Some? ::
                   env.dateMs(dates[i]).value <= Newest(env, dates).value
  {
    if dates != [] {
      var n := |dates| - 1;
      NewestIsNewest(env, dates[..n]);
      assert forall i | 0 <= i < n :: dates[..n][i] == dates[i];
      if Newest(env, dates) == env.dateMs(dates[n]) {
        assert Newest(env, dates).Some? ==> env.dateMs(dates[n]) == Newest(env, dates);
      } else {
        var i :| 0 <= i < n && env.dateMs(dates[..n][i]) == Newest(env, dates);
        assert env.dateMs(dates[i]) == Newest(env, dates);
      }
    }
  }

  /** Sources are stale exactly when the newest readable date, the claim's own included, is over half a year past. */
  lemma StaleByTheNewestDate(env: Env, evidence: seq<Source>, claimDate: string, at: int)
    ensures var dates := seq(|evidence|, i requires 0 <= i < |evidence| => evidence[i].date) + [claimDate];
            var newest := Newest(env, dates);
            Stale(env, evidence, claimDate, at) <==> newest.Some? && newest.value + STALE_AFTER_MS < at
  {
    var dates := seq(|evidence|, i requires 0 <= i < |evidence| => evidence[i].date) + [claimDate];
    NewestIsNewest(env, dates);
  }

  /** Corroboration counts the publishers of the sources that are not mere aggregators, each once. */
  lemma CorroborationCountsPublishers(evidence: seq<Source>)
    ensures Summarize(evidence).corroboration == |set s | s in evidence && s.tier != Aggregator :: s.publisher|
    ensures Summarize(evidence).tier.None? <==> evidence == []
  {
    var named := set s | s in evidence && s.tier != Aggregator :: s.publisher;
    forall p ensures p in Publishers(evidence, false) <==> p in named {
      if p in Publishers(evidence, false) {
        var i :| 0 <= i < |evidence| && evidence[i].tier != Aggregator && evidence[i].publisher == p;
        assert evidence[i] in evidence;
      }
      if p in named {
        var s :| s in evidence && s.tier != Aggregator && s.publisher == p;
        var i :| 0 <= i < |evidence| && evidence[i] == s;
      }
    }
    assert Publishers(evidence, false) == named;
  }

  /** A claim is confirmed exactly when it may be, nothing contradicts it, and its sources carry it. */
  lemma ConfirmedMeans(suggested: Status, evidence: seq<Source>, contradicted: bool)
    ensures Derive(suggested, evidence, contradicted) == Confirmed <==>
              && suggested in {Confirmed, Reported} && !contradicted
              && ((exists i | 0 <= i < |evidence| :: evidence[i].tier == Official)
                  || (exists i, j | 0 <= i < |evidence| && 0 <= j < |evidence| ::
                        evidence[i].tier == WireMajor && evidence[j].tier == WireMajor
                          && evidence[i].publisher != evidence[j].publisher))
  {
    var p := Publishers(evidence, true);
    if |p| >= 2 {
      var x :| x in p;
      assert |p - {x}| >= 1;
      var y :| y in p - {x};
      var i :| 0 <= i < |evidence| && evidence[i].tier == WireMajor && evidence[i].publisher == x;
      var j :| 0 <= j < |evidence| && evidence[j].tier == WireMajor && evidence[j].publisher == y;
      assert evidence[i].publisher != evidence[j].publisher;
    }
    forall i, j | 0 <= i < |evidence| && 0 <= j < |evidence| && evidence[i].tier == WireMajor
      && evidence[j].tier == WireMajor
                  && evidence[i].publisher != evidence[j].publisher
      ensures |p| >= 2
    {
      assert {evidence[i].publisher, evidence[j].publisher} <= p;
      SubsetSize({evidence[i].publisher, evidence[j].publisher}, p);
    }
  }

  /** What carries a claim: an official source, or two distinct wire or major publishers. */
  ghost predicate Carried(evidence: seq<Source>) {
    || (exists i | 0 <= i < |evidence| :: evidence[i].tier == Official)
    || (exists i, j | 0 <= i < |evidence| && 0 <= j < |evidence| ::
          evidence[i].tier == WireMajor && evidence[j].tier == WireMajor
          && evidence[i].publisher != evidence[j].publisher)
  }

  /**
   * The whole status rule: a suggestion of doubt or retraction stands; any other becomes confirmed if its sources carry
   * it and nothing contradicts it, reported if a source that is no aggregator is left, and unverified otherwise.
   */
  lemma DerivedStatusMeans(suggested: Status, evidence: seq<Source>, contradicted: bool)
    ensures Derive(suggested, evidence, contradicted)
         == if suggested in {Alleged, Retracted, Unverified} then suggested
            else if Carried(evidence) && !contradicted then Confirmed
            else if exists i | 0 <= i < |evidence| :: evidence[i].tier != Aggregator then Reported
            else Unverified
  {
    ConfirmedMeans(suggested, evidence, contradicted);
    ConfirmedMeans(suggested, evidence, false);
    hide Publishers;
    if Carried(evidence) { assert exists i | 0 <= i < |evidence| :: evidence[i].tier != Aggregator; }
  }
}
