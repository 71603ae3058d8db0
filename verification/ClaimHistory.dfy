/** What each field of a folded claim says about its log, without folding. */
module ClaimHistory {
  import opened Prelude
  import opened ClaimEvidence
  import opened ClaimEvents

  predicate Asserts(e: Event, id: string) { e.claimId == id && e.kind.AssertedAs? }

  /** A person's word on the status or the check. */
  predicate Decides(e: Event, id: string) {
    e.claimId == id && e.actor == Person && !e.kind.AssertedAs? && !e.kind.ContradictedBy?
  }

  function LatestText(events: seq<Event>, id: string): string {
    if events == [] then "" else
      var last := events[|events| - 1];
      if Asserts(last, id) && last.kind.text != "" then last.kind.text else LatestText(events[..|events| - 1], id)
  }

  function LatestName(events: seq<Event>, id: string): string {
    if events == [] then "" else
      var last := events[|events| - 1];
      if Asserts(last, id) && last.kind.attributedTo != "" then last.kind.attributedTo
      else LatestName(events[..|events| - 1], id)
  }

  function LatestDate(events: seq<Event>, id: string): string {
    if events == [] then "" else
      var last := events[|events| - 1];
      if Asserts(last, id) && last.kind.date != "" then last.kind.date else LatestDate(events[..|events| - 1], id)
  }

  function LatestSuggestion(events: seq<Event>, id: string): Status {
    if events == [] then Unverified else
      var last := events[|events| - 1];
      if Asserts(last, id) then last.kind.status else LatestSuggestion(events[..|events| - 1], id)
  }

  function LatestTime(events: seq<Event>, id: string): int {
    if events == [] then 0 else
      var before, last := LatestTime(events[..|events| - 1], id), events[|events| - 1];
      if last.claimId == id && last.at > before then last.at else before
  }

  function LatestDecision(events: seq<Event>, id: string): Option<Event> {
    if events == [] then None else
      var last := events[|events| - 1];
      if Decides(last, id) then Some(last) else LatestDecision(events[..|events| - 1], id)
  }

  /** The reason of the open check, or None when the latest check event closed it. */
  function OpenCheck(events: seq<Event>, id: string): Option<string> {
    if events == [] then None else
      var last := events[|events| - 1];
      if last.claimId == id && last.kind.CheckOpened? then Some(Or(last.kind.reason, ActorName(last.actor)))
      else if last.claimId == id && last.kind.CheckClosed? then None
      else OpenCheck(events[..|events| - 1], id)
  }

  lemma FoldSnoc(env: Env, state: Claim, events: seq<Event>)
    requires events != []
    ensures Fold(env, state, events) == Apply(env, Fold(env, state, events[..|events| - 1]), events[|events| - 1])
  {
    var front, last := events[..|events| - 1], events[|events| - 1];
    assert events == front + [last];
    FoldConcat(env, state, front, [last]);
    FoldOne(env, Fold(env, state, front), last);
  }

  lemma WordsStep(env: Env, c: Claim, e: Event)
    ensures var c' := Apply(env, c, e);
            && c'.claim == (if Asserts(e, c.id) && e.kind.text != "" then e.kind.text else c.claim)
            && c'.attributedTo == (if Asserts(e, c.id) && e.kind.attributedTo != "" then e.kind.attributedTo
                                   else c.attributedTo)
            && c'.date == (if Asserts(e, c.id) && e.kind.date != "" then e.kind.date else c.date)
            && c'.suggested == (if Asserts(e, c.id) then e.kind.status else c.suggested)
            && c'.updatedAt == (if e.claimId == c.id && e.at > c.updatedAt then e.at else c.updatedAt)
  {
    hide Merge, Summarize, MergeCitations;
    if e.claimId == c.id {
      var next := Stamp(c, e);
      assert next == c.(updatedAt := next.updatedAt, lastUpdated := next.lastUpdated);
      hide Stamp, ApplyAssertion;
      if e.kind.AssertedAs? { AssertionWords(env, next, e); }
    }
  }

  lemma AssertionWords(env: Env, c: Claim, e: Event)
    requires e.kind.AssertedAs?
    ensures var c' := ApplyAssertion(env, c, e);
            && c'.claim == Or(e.kind.text, c.claim) && c'.attributedTo == Or(e.kind.attributedTo, c.attributedTo)
            && c'.date == Or(e.kind.date, c.date) && c'.suggested == e.kind.status && c'.updatedAt == c.updatedAt
  {
    hide Merge, Summarize, MergeCitations;
  }

  /** The words shown are the latest of each kind, the time is the latest, and the suggestion the last one made. */
  lemma {:induction false} WordsAreTheLatest(env: Env, id: string, events: seq<Event>)
    ensures var c := FoldClaim(env, id, events);
            && c.claim == LatestText(events, id) && c.attributedTo == LatestName(events, id)
               && c.date == LatestDate(events, id)
            && c.suggested == LatestSuggestion(events, id) && c.updatedAt == LatestTime(events, id)
  {
    if events != [] {
      var front := events[..|events| - 1];
      WordsAreTheLatest(env, id, front);
      FoldKeepsId(env, EmptyClaim(id), front);
      FoldSnoc(env, EmptyClaim(id), events);
      hide Fold, Apply;
      WordsStep(env, FoldClaim(env, id, front), events[|events| - 1]);
    }
  }

  /** The assertion that gave the claim its first words; until then, the latest one without any. */
  function Opening(events: seq<Event>, id: string): Option<Event> {
    if events == [] then None else
      var front, last := events[..|events| - 1], events[|events| - 1];
      if Asserts(last, id) && LatestText(front, id) == "" then Some(last) else Opening(front, id)
  }

  /** The last message that an event of the claim came with. */
  function LatestMessage(events: seq<Event>, id: string): Option<string> {
    if events == [] then None else
      var last := events[|events| - 1];
      if last.claimId == id && last.messageId.Some? && last.messageId.value != "" then last.messageId
      else LatestMessage(events[..|events| - 1], id)
  }

  lemma MessagesStep(env: Env, c: Claim, e: Event)
    ensures var c' := Apply(env, c, e);
            && c'.createdAt == (if Asserts(e, c.id) && c.claim == "" then e.at else c.createdAt)
            && c'.firstSeen == (if Asserts(e, c.id) && c.claim == "" then e.messageId else c.firstSeen)
            && c'.lastUpdated == (if e.claimId == c.id && e.messageId.Some? && e.messageId.value != "" then e.messageId
                                  else c.lastUpdated)
  {
    hide Merge, Summarize, MergeCitations;
  }

  /** A claim is dated by the assertion that opened it, and shows the message of that and of its latest event. */
  lemma {:induction false} MessagesAreTheirs(env: Env, id: string, events: seq<Event>)
    ensures var c, opening := FoldClaim(env, id, events), Opening(events, id);
            && c.createdAt == (if opening.Some? then opening.value.at else 0)
            && c.firstSeen == (if opening.Some? then opening.value.messageId else None)
            && c.lastUpdated == LatestMessage(events, id)
  {
    if events != [] {
      var front := events[..|events| - 1];
      MessagesAreTheirs(env, id, front);
      WordsAreTheLatest(env, id, front);
      FoldKeepsId(env, EmptyClaim(id), front);
      FoldSnoc(env, EmptyClaim(id), events);
      hide Fold, Apply;
      MessagesStep(env, FoldClaim(env, id, front), events[|events| - 1]);
    }
  }

  lemma DecisionsStep(env: Env, c: Claim, e: Event)
    ensures var c' := Apply(env, c, e);
            && c'.reviewedAt == (if Decides(e, c.id) then Some(e.at) else c.reviewedAt)
            && c'.reviewedBy == (if Decides(e, c.id) then Some(Or(e.actorName, "Someone")) else c.reviewedBy)
            && c'.needsCheck == (if e.claimId == c.id && e.kind.CheckOpened? then true
                                 else if e.claimId == c.id && e.kind.CheckClosed? then false else c.needsCheck)
            && c'.checkReason == (if e.claimId == c.id && e.kind.CheckOpened?
                                  then Some(Or(e.kind.reason, ActorName(e.actor)))
                                  else if e.claimId == c.id && e.kind.CheckClosed? then None else c.checkReason)
  {
    hide Merge, Summarize, MergeCitations, Or;
  }

  /** A claim is settled by its latest decision, and its check stands as the latest check event left it. */
  lemma {:induction false} DecisionsAreTheLatest(env: Env, id: string, events: seq<Event>)
    ensures var c, decision := FoldClaim(env, id, events), LatestDecision(events, id);
            && c.reviewedAt == (if decision.Some? then Some(decision.value.at) else None)
            && c.reviewedBy == (if decision.Some? then Some(Or(decision.value.actorName, "Someone")) else None)
            && c.checkReason == OpenCheck(events, id) && (c.needsCheck <==> OpenCheck(events, id).Some?)
  {
    if events != [] {
      var front := events[..|events| - 1];
      DecisionsAreTheLatest(env, id, front);
      FoldKeepsId(env, EmptyClaim(id), front);
      FoldSnoc(env, EmptyClaim(id), events);
      hide Fold, Apply, Or;
      DecisionsStep(env, FoldClaim(env, id, front), events[|events| - 1]);
    }
  }

  /** Variants are the normalized wordings asserted, conflicts the claims named as contradicting, each once. */
  lemma {:induction false} ListsHoldWhatWasSaid(env: Env, id: string, events: seq<Event>)
    ensures var c := FoldClaim(env, id, events);
            && Distinct(c.variants) && Distinct(c.contradicts) && Distinct(c.citations)
               && |c.citations| <= MAX_CITATIONS
            && (forall key :: key in c.variants <==> key != "" && exists e | e in events ::
                Asserts(e, id) && env.normalize(e.kind.text) == key)
            && (forall other :: other in c.contradicts <==>
                  other != "" && exists e | e in events :: e.claimId == id && e.kind == ContradictedBy(other))
            && (forall n | n in c.citations :: n > 0 && exists e | e in events ::
                Asserts(e, id) && n in e.kind.citations)
  {
    if events != [] {
      var front, last := events[..|events| - 1], events[|events| - 1];
      var c, c' := FoldClaim(env, id, front), FoldClaim(env, id, events);
      ListsHoldWhatWasSaid(env, id, front);
      FoldKeepsId(env, EmptyClaim(id), front);
      FoldSnoc(env, EmptyClaim(id), events);
      assert events == front + [last];
      assert forall e :: e in events <==> e in front || e == last;
      if Asserts(last, id) { CitationsMerge(c.citations, last.kind.citations); }
      hide Fold, Merge, Summarize, MergeCitations;
      VariantsStep(env, id, events, c, c');
      ConflictsStep(env, id, events, c, c');
      CitationsStep(env, id, events, c, c');
    }
  }

  lemma ListsStep(env: Env, c: Claim, e: Event)
    ensures var c' := Apply(env, c, e);
            && c'.variants == (if Asserts(e, c.id) && env.normalize(e.kind.text) != ""
                               && env.normalize(e.kind.text) !in c.variants
                               then c.variants + [env.normalize(e.kind.text)] else c.variants)
            && c'.contradicts == (if e.claimId == c.id && e.kind.ContradictedBy? && e.kind.other != ""
                                  && e.kind.other !in c.contradicts
                                  then c.contradicts + [e.kind.other] else c.contradicts)
            && c'.citations == (if Asserts(e, c.id) then MergeCitations(c.citations, e.kind.citations) else c.citations)
  {
    hide Merge, Summarize, MergeCitations;
    if e.claimId == c.id {
      var next := Stamp(c, e);
      assert next == c.(updatedAt := next.updatedAt, lastUpdated := next.lastUpdated);
      hide Stamp, ApplyAssertion;
      if e.kind.AssertedAs? { AssertionLists(env, next, e); }
    }
  }

  lemma AssertionLists(env: Env, c: Claim, e: Event)
    requires e.kind.AssertedAs?
    ensures var c', key := ApplyAssertion(env, c, e), env.normalize(e.kind.text);
            && c'.variants == (if key != "" && key !in c.variants then c.variants + [key] else c.variants)
            && c'.contradicts == c.contradicts && c'.citations == MergeCitations(c.citations, e.kind.citations)
  {
    hide Merge, Summarize, MergeCitations;
  }

  lemma VariantsStep(env: Env, id: string, events: seq<Event>, c: Claim, c': Claim)
    requires events != [] && c.id == id && c' == Apply(env, c, events[|events| - 1])
    requires var front := events[..|events| - 1];
             Distinct(c.variants) && forall key :: key in c.variants <==> key != "" && exists e | e in front ::
               Asserts(e, id) && env.normalize(e.kind.text) == key
    ensures Distinct(c'.variants)
    ensures forall key :: key in c'.variants <==> key != "" && exists e | e in events ::
            Asserts(e, id) && env.normalize(e.kind.text) == key
  {
    var front, last := events[..|events| - 1], events[|events| - 1];
    ListsStep(env, c, last);
    hide Apply;
    assert events == front + [last];
    assert forall e :: e in events <==> e in front || e == last;
  }

  lemma ConflictsStep(env: Env, id: string, events: seq<Event>, c: Claim, c': Claim)
    requires events != [] && c.id == id && c' == Apply(env, c, events[|events| - 1])
    requires var front := events[..|events| - 1];
             Distinct(c.contradicts) && forall other :: other in c.contradicts <==>
               other != "" && exists e | e in front :: e.claimId == id && e.kind == ContradictedBy(other)
    ensures Distinct(c'.contradicts)
    ensures forall other :: other in c'.contradicts <==> other != "" && exists e | e in events ::
            e.claimId == id && e.kind == ContradictedBy(other)
  {
    var front, last := events[..|events| - 1], events[|events| - 1];
    ListsStep(env, c, last);
    hide Apply;
    assert events == front + [last];
    assert forall e :: e in events <==> e in front || e == last;
  }

  lemma CitationsStep(env: Env, id: string, events: seq<Event>, c: Claim, c': Claim)
    requires events != [] && c.id == id && c' == Apply(env, c, events[|events| - 1])
    requires Distinct(c.citations) && |c.citations| <= MAX_CITATIONS
    requires var front := events[..|events| - 1];
             forall n | n in c.citations :: n > 0 && exists e | e in front :: Asserts(e, id) && n in e.kind.citations
    ensures Distinct(c'.citations) && |c'.citations| <= MAX_CITATIONS
    ensures forall n | n in c'.citations :: n > 0 && exists e | e in events :: Asserts(e, id) && n in e.kind.citations
  {
    var front, last := events[..|events| - 1], events[|events| - 1];
    ListsStep(env, c, last);
    hide Apply, MergeCitations;
    assert events == front + [last];
    assert forall e :: e in events <==> e in front || e == last;
    if Asserts(last, id) { CitationsMerge(c.citations, last.kind.citations); }
  }

  /** New citations go after the old ones, each once, as far as the cap allows. */
  lemma {:induction false} CitationsMerge(current: seq<int>, next: seq<int>)
    requires Distinct(current)
    ensures var out := MergeCitations(current, next);
            && Distinct(out) && |out| <= MAX_CITATIONS && Capped(current, MAX_CITATIONS) <= out
            && (forall n | n in out :: n in current || (n in next && n > 0))
            && (forall n | n in next && n > 0 :: n in out || |out| == MAX_CITATIONS)
    decreases |next|
  {
    if next != [] {
      var n := next[0];
      var grown := if n in current || n <= 0 then current else current + [n];
      CitationsMerge(grown, next[1..]);
      var out := MergeCitations(current, next);
      assert next == [n] + next[1..];
      assert Capped(current, MAX_CITATIONS) <= Capped(grown, MAX_CITATIONS);
      if n > 0 {
        var i :| 0 <= i < |grown| && grown[i] == n;
        if i < MAX_CITATIONS { assert Capped(grown, MAX_CITATIONS)[i] == n && out[i] == n; }
      }
    }
  }
}
