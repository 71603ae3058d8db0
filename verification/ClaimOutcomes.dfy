/** What a turn leaves of each claim: its evidence and conflicts, and no others. */
module ClaimOutcomes {
  import opened Prelude
  import opened ClaimEvidence
  import opened ClaimEvents
  import opened ClaimPlanner
  import opened ClaimHistory
  import opened ClaimLaws
  import opened ClaimTurns
  import opened ClaimLedger
  import opened ClaimSources
  import opened ClaimLandings

  // ---- landed claims and their events

  lemma {:induction false} LandedIsReported(env: Env, t: Turn, resolved: seq<Option<string>>, said: seq<Event>, i: nat)
    returns (e: Event)
    requires |resolved| <= |t.incoming| && AllReported(env, t, resolved, said) && i < |resolved| && resolved[i].Some?
    ensures e in said && Reports(env, t, e, resolved[i].value, t.incoming[i])
    decreases |resolved|
  {
    hide Reports;
    var n := |resolved| - 1;
    var front := resolved[..n];
    if i == n {
      e := said[|said| - 1];
    } else if resolved[n].None? {
      e := LandedIsReported(env, t, front, said, i);
    } else {
      e := LandedIsReported(env, t, front, said[..|said| - 1], i);
    }
  }

  lemma {:induction false} ReportedHasLanded(env: Env, t: Turn, resolved: seq<Option<string>>, said: seq<Event>,
                                             e: Event) returns (i: nat)
    requires |resolved| <= |t.incoming| && AllReported(env, t, resolved, said) && e in said
    ensures i < |resolved| && resolved[i].Some? && Reports(env, t, e, resolved[i].value, t.incoming[i])
    decreases |resolved|
  {
    hide Reports;
    var n := |resolved| - 1;
    var front := resolved[..n];
    if resolved[n].None? {
      i := ReportedHasLanded(env, t, front, said, e);
    } else if e == said[|said| - 1] {
      i := n;
    } else {
      assert said == said[..|said| - 1] + [said[|said| - 1]];
      i := ReportedHasLanded(env, t, front, said[..|said| - 1], e);
    }
  }

  lemma {:induction false} SourcesOfHas(events: seq<Event>, id: string, s: Source)
    ensures s in SourcesOf(events, id) <==> exists e | e in events :: Asserts(e, id) && s in e.kind.sources
  {
    if events != [] {
      var front, last := events[..|events| - 1], events[|events| - 1];
      SourcesOfHas(front, id, s);
      assert events == front + [last];
    }
  }

  // ---- evidence

  /** The turn's source for a citation of some claim that landed here. */
  ghost predicate CitedHere(env: Env, t: Turn, resolved: seq<Option<string>>, id: string, s: Source)
    requires |resolved| == |t.incoming| && t.sources.Some?
  {
    exists i, n | 0 <= i < |resolved| && n in t.incoming[i].citations ::
      resolved[i] == Some(id) && IsSourceOf(env, t.sources.value, n, s)
  }

  lemma AssertedSourcesAreCited(env: Env, active: seq<Claim>, t: Turn, id: string, s: Source)
    requires Admissible(active, t) && s in SourcesOf(PlanTurn(env, active, t).events, id)
    ensures |PlanTurn(env, active, t).resolved| == |t.incoming| && t.sources.Some?
    ensures CitedHere(env, t, PlanTurn(env, active, t).resolved, id, s)
  {
    hide Admissible, PlanTurn, AllLand, Only, SourcesOf;
    var p := PlanTurn(env, active, t);
    TurnLogsWhatLanded(env, active, t);
    SourcesOfHas(p.events, id, s);
    var e :| e in p.events && Asserts(e, id) && s in e.kind.sources;
    OnlyHas(p.events, IsAssertion, e);
    var i := ReportedHasLanded(env, t, p.resolved, Only(p.events, IsAssertion), e);
    var known := Known(t.incoming[i].citations, t.sources.value);
    var k :| 0 <= k < |e.kind.sources| && e.kind.sources[k] == s;
    assert IsSourceOf(env, t.sources.value, known[k], s);
    KnownHas(t.incoming[i].citations, t.sources.value, known[k]);
  }

  lemma CitedSourcesAreAsserted(env: Env, active: seq<Claim>, t: Turn, i: nat, n: int)
    requires Admissible(active, t) && t.sources.Some? && i < |t.incoming|
    requires n in t.incoming[i].citations && n in t.sources.value
    ensures var resolved := PlanTurn(env, active, t).resolved;
            |resolved| == |t.incoming| && (resolved[i].Some? ==>
              HasUrl(SourcesOf(PlanTurn(env, active, t).events, resolved[i].value), t.sources.value[n].url))
  {
    hide Admissible, PlanTurn, AllLand, Only, SourcesOf;
    var p, pages := PlanTurn(env, active, t), t.sources.value;
    TurnLogsWhatLanded(env, active, t);
    if p.resolved[i].Some? {
      var e := LandedIsReported(env, t, p.resolved, Only(p.events, IsAssertion), i);
      OnlyHas(p.events, IsAssertion, e);
      var known := Known(t.incoming[i].citations, pages);
      KnownHas(t.incoming[i].citations, pages, n);
      var k :| 0 <= k < |known| && known[k] == n;
      var s := e.kind.sources[k];
      assert IsSourceOf(env, pages, known[k], s);
      SourcesOfHas(p.events, p.resolved[i].value, s);
      var all := SourcesOf(p.events, p.resolved[i].value);
      var x :| 0 <= x < |all| && all[x] == s;
      assert all[x].url == pages[n].url;
    }
  }

  lemma KeptFirst(kept: seq<Source>, more: seq<Source>)
    requires UrlUnique(kept) && |kept| <= MAX_EVIDENCE
    ensures kept <= Capped(FirstOfEachPage(kept + more), MAX_EVIDENCE)
  {
    UniqueIsFirst(kept);
    UnionIsFirst(kept, more);
    hide FirstOfEachPage;
    UnionGrows(kept, more);
  }

  lemma FirstsAreGiven(kept: seq<Source>, more: seq<Source>, s: Source)
    requires s in Capped(FirstOfEachPage(kept + more), MAX_EVIDENCE)
    ensures s in kept || s in more
  {
    FirstsAreFirst(kept + more, s);
    hide FirstOfEachPage;
    var k :| FirstAt(kept + more, s, k);
    assert (kept + more)[k] == s;
  }

  lemma PagesHaveRoom(kept: seq<Source>, more: seq<Source>, url: string)
    requires HasUrl(more, url)
    ensures var all := Capped(FirstOfEachPage(kept + more), MAX_EVIDENCE); HasUrl(all, url) || |all| == MAX_EVIDENCE
  {
    PagesAreKept(kept + more);
    hide FirstOfEachPage;
    var k :| 0 <= k < |more| && more[k].url == url;
    assert (kept + more)[|kept| + k].url == url;
  }

  /**
   * After a turn with pages: a claim keeps the evidence it had, in place; every known page that a claim landed here
   * cites is among its evidence, unless that is full; and whatever is new is the source of such a citation, with the
   * page's address and date and the publisher that the classification gives.
   */
  lemma CitedPagesAreTheEvidence(env: Env, active: seq<Claim>, t: Turn, id: string, i: nat, n: int, s: Source)
    requires Admissible(active, t) && t.sources.Some? && id in PlanTurn(env, active, t).states
    requires var before := Before(active, t, PlanTurn(env, active, t).created, id);
             UrlUnique(before.evidence) && |before.evidence| <= MAX_EVIDENCE
    ensures var p := PlanTurn(env, active, t);
            var before, evidence := Before(active, t, p.created, id).evidence, p.states[id].evidence;
            && |p.resolved| == |t.incoming| && before <= evidence
            && (i < |t.incoming| && p.resolved[i] == Some(id) && n in t.incoming[i].citations
                && n in t.sources.value ==>
                  HasUrl(evidence, t.sources.value[n].url) || |evidence| == MAX_EVIDENCE)
            && (s in evidence ==> s in before || CitedHere(env, t, p.resolved, id, s))
  {
    var p := PlanTurn(env, active, t);
    var before := Before(active, t, p.created, id);
    TurnLogsWhatLanded(env, active, t);
    TurnFollowsTheLog(env, active, t, id);
    hide Admissible, PlanTurn, Fold, SourcesOf, AllLand, AllReported, LinksOf, FirstOfEachPage, CitedHere;
    var more := SourcesOf(p.events, id);
    assert before.id == id by { BeforeHasId(active, t, p.created, id); }
    hide Before;
    EvidenceIsWhatWasAsserted(env, before, p.events);
    var url := if n in t.sources.value then t.sources.value[n].url else "";
    var evidence := p.states[id].evidence;
    KeptFirst(before.evidence, more);
    if HasUrl(more, url) { PagesHaveRoom(before.evidence, more, url); }
    if s in evidence { FirstsAreGiven(before.evidence, more, s); }
    if i < |t.incoming| && n in t.incoming[i].citations && n in t.sources.value {
      CitedSourcesAreAsserted(env, active, t, i, n);
    }
    if s in more { AssertedSourcesAreCited(env, active, t, id, s); }
  }

  lemma BeforeHasId(active: seq<Claim>, t: Turn, created: seq<string>, id: string)
    ensures Before(active, t, created, id).id == id
  {
    if id in ById(active) { ByIdFinds(active, id); }
  }

  /** A turn without pages adds no evidence. */
  lemma NoPagesNoEvidence(env: Env, active: seq<Claim>, t: Turn, id: string)
    requires Admissible(active, t) && t.sources.None? && id in PlanTurn(env, active, t).states
    requires var before := Before(active, t, PlanTurn(env, active, t).created, id);
             UrlUnique(before.evidence) && |before.evidence| <= MAX_EVIDENCE
    ensures var p := PlanTurn(env, active, t);
            p.states[id].evidence == Before(active, t, p.created, id).evidence
  {
    var p := PlanTurn(env, active, t);
    var before := Before(active, t, p.created, id);
    TurnFollowsTheLog(env, active, t, id);
    BeforeHasId(active, t, p.created, id);
    hide Admissible, PlanTurn, Fold, FirstOfEachPage, Before, CitedHere;
    var more := SourcesOf(p.events, id);
    EvidenceIsWhatWasAsserted(env, before, p.events);
    if more != [] { AssertedSourcesAreCited(env, active, t, id, more[0]); }
    assert before.evidence + more == before.evidence;
    UniqueIsFirst(before.evidence);
  }

  // ---- conflicts

  /** Claim `i` of the turn was created as `a`, in contradiction of `b`. */
  ghost predicate CreatedAgainst(active: seq<Claim>, t: Turn, resolved: seq<Option<string>>, i: int, a: string,
                                 b: string) {
    0 <= i < |resolved| && a != b && resolved[i] == Some(a) && Contradicted(active, t, resolved[..i]) == Some(b)
  }

  lemma {:induction false} LinksOfHas(active: seq<Claim>, t: Turn, resolved: seq<Option<string>>, a: string, b: string)
    ensures (exists e | e in LinksOf(active, t, resolved) :: e.claimId == a && e.kind == ContradictedBy(b)) <==>
            exists i :: CreatedAgainst(active, t, resolved, i, a, b) || CreatedAgainst(active, t, resolved, i, b, a)
  {
    if resolved != [] {
      hide Contradicted;
      var n := |resolved| - 1;
      var front, last := resolved[..n], resolved[n];
      LinksOfHas(active, t, front, a, b);
      forall i | 0 <= i < n ensures front[..i] == resolved[..i] && front[i] == resolved[i] {}
      assert forall i, x, y | i < n ::
        CreatedAgainst(active, t, resolved, i, x, y) <==> CreatedAgainst(active, t, front, i, x, y);
      LinkEventsHave(t, if last.Some? then last.value else "", if Contradicted(active, t, front).Some?
                        then Contradicted(active, t, front).value else "", a, b);
      hide LinkEvents, CreatedAgainst;
      assert CreatedAgainst(active, t, resolved, n, a, b) <==>
        a != b && last == Some(a) && Contradicted(active, t, front) == Some(b) by {
          AgainstLast(active, t, resolved, a, b);
        }
      assert CreatedAgainst(active, t, resolved, n, b, a) <==>
        a != b && last == Some(b) && Contradicted(active, t, front) == Some(a) by {
          AgainstLast(active, t, resolved, b, a);
        }
      AgainstIsInside(active, t, resolved, a, b);
    }
  }

  lemma AgainstLast(active: seq<Claim>, t: Turn, resolved: seq<Option<string>>, a: string, b: string)
    requires resolved != []
    ensures var n := |resolved| - 1;
            CreatedAgainst(active, t, resolved, n, a, b) <==>
              a != b && resolved[n] == Some(a) && Contradicted(active, t, resolved[..n]) == Some(b)
  {
  }

  lemma AgainstIsInside(active: seq<Claim>, t: Turn, resolved: seq<Option<string>>, a: string, b: string)
    ensures forall i, x, y :: CreatedAgainst(active, t, resolved, i, x, y) ==> 0 <= i < |resolved|
  {
  }

  lemma LinkEventsHave(t: Turn, x: string, y: string, a: string, b: string)
    ensures (exists e | e in LinkEvents(t, x, y) :: e.claimId == a && e.kind == ContradictedBy(b)) <==>
            (a == x && b == y) || (a == y && b == x)
  {
    var es := LinkEvents(t, x, y);
    assert es[0] in es && es[1] in es;
  }

  lemma {:induction false} FoldedConflicts(env: Env, st: Claim, events: seq<Event>, x: string)
    ensures x in Fold(env, st, events).contradicts <==>
            x in st.contradicts || (x != "" && exists e | e in events ::
                                    e.claimId == st.id && e.kind == ContradictedBy(x))
  {
    if events != [] {
      var front, last := events[..|events| - 1], events[|events| - 1];
      FoldedConflicts(env, st, front, x);
      FoldSnoc(env, st, events);
      FoldKeepsId(env, st, front);
      hide Apply, Fold;
      ListsStep(env, Fold(env, st, front), last);
      assert events == front + [last];
    }
  }

  /**
   * After any turn a claim conflicts with exactly those it conflicted with before, those it was created in
   * contradiction of, and those created in contradiction of it.
   */
  lemma ConflictsAreTheContradictions(env: Env, active: seq<Claim>, t: Turn, a: string, x: string)
    requires Admissible(active, t) && a in PlanTurn(env, active, t).states && x != ""
    ensures var p := PlanTurn(env, active, t);
            x in p.states[a].contradicts <==>
              x in Before(active, t, p.created, a).contradicts
              || exists i ::
                   (CreatedAgainst(active, t, p.resolved, i, a, x) || CreatedAgainst(active, t, p.resolved, i, x, a))
  {
    var p := PlanTurn(env, active, t);
    var before := Before(active, t, p.created, a);
    TurnLogsWhatLanded(env, active, t);
    TurnFollowsTheLog(env, active, t, a);
    BeforeHasId(active, t, p.created, a);
    hide Admissible, PlanTurn, Fold, Before, AllLand, AllReported, LinksOf, CreatedAgainst, Only;
    FoldedConflicts(env, before, p.events, x);
    LinksOfHas(active, t, p.resolved, a, x);
    forall e ensures e in LinksOf(active, t, p.resolved) <==> e in p.events && IsContradiction(e) {
      OnlyHas(p.events, IsContradiction, e);
    }
  }
}
