/** What every turn keeps of each claim: the log is the state, and a person's decisions stand. */
module ClaimLaws {
  import opened Prelude
  import opened ClaimEvidence
  import opened ClaimEvents
  import opened ClaimPlanner

  // ---- lawful events

  /** What a turn may do to a claim in state `st`; events of other claims are of no concern. */
  ghost predicate Allowed(st: Claim, e: Event) {
    e.claimId == st.id ==>
      && e.actor != Person
      && (e.kind.AssertedAs? ==> e.kind.text != "" && (st.claim != "" || st.reviewedAt.None?))
      && (e.kind.StatusChanged? || e.kind.Withdrawn? || e.kind.CheckOpened? ==> st.reviewedAt.None?)
      && (e.kind.StatusChanged? ==>
            e.kind.to != st.status && e.kind.to != Retracted && (e.actor == Model <==> e.kind.to == st.suggested))
      && (e.kind.Withdrawn? ==> st.status != Retracted && st.suggested == Retracted && e.actor == Model)
      && (e.kind.CheckOpened? ==> !st.needsCheck)
      && (e.kind.CheckClosed? ==>
            st.reviewedAt.None? && st.needsCheck && st.checkReason in {Some("model"), Some("stale")})
  }

  ghost predicate Lawful(env: Env, st: Claim, events: seq<Event>)
    decreases |events|
  {
    events == [] || (Allowed(st, events[0]) && Lawful(env, Apply(env, st, events[0]), events[1..]))
  }

  /** Tier and corroboration are those of the evidence. */
  ghost predicate Summarised(st: Claim) {
    var s := Summarize(st.evidence);
    st.tier == s.tier && st.corroboration == s.corroboration
  }

  /** What lawful events keep of a claim. */
  ghost predicate Advances(st: Claim, st': Claim) {
    && st'.id == st.id
    && st'.reviewedAt == st.reviewedAt && st'.reviewedBy == st.reviewedBy
    && (st.reviewedAt.Some? ==>
          st'.status == st.status && st'.needsCheck == st.needsCheck && st'.checkReason == st.checkReason)
    && (st.needsCheck && st.checkReason in {Some("contradicted"), Some("person")} ==>
          st'.needsCheck && st'.checkReason == st.checkReason)
    && st.contradicts <= st'.contradicts
    && st.variants <= st'.variants
    && (st.claim != "" ==> st'.claim != "")
    && (Summarised(st) ==> Summarised(st'))
    && (UrlUnique(st.evidence) && |st.evidence| <= MAX_EVIDENCE ==>
          st.evidence <= st'.evidence && UrlUnique(st'.evidence) && |st'.evidence| <= MAX_EVIDENCE
          && Level(Ceiling(st.evidence)) <= Level(Ceiling(st'.evidence)))
  }

  lemma AllowedAdvances(env: Env, st: Claim, e: Event)
    requires Allowed(st, e)
    ensures Advances(st, Apply(env, st, e))
  {
    hide Merge, Ceiling, Summarize, MergeCitations, UrlUnique;
    if e.claimId == st.id && e.kind.AssertedAs? && UrlUnique(st.evidence) && |st.evidence| <= MAX_EVIDENCE {
      MergeKeepsEvidence(st.evidence, e.kind.sources);
      CeilingNeverFalls(st.evidence, Merge(st.evidence, e.kind.sources));
    }
  }

  lemma AdvancesTransitive(a: Claim, b: Claim, c: Claim)
    requires Advances(a, b) && Advances(b, c)
    ensures Advances(a, c)
  {
    hide Ceiling, UrlUnique, Summarised;
  }

  lemma {:induction false} LawfulAdvances(env: Env, st: Claim, events: seq<Event>)
    requires Lawful(env, st, events)
    ensures Advances(st, Fold(env, st, events))
    decreases |events|
  {
    hide Advances, Apply, Allowed;
    if events != [] {
      AllowedAdvances(env, st, events[0]);
      LawfulAdvances(env, Apply(env, st, events[0]), events[1..]);
      AdvancesTransitive(st, Apply(env, st, events[0]), Fold(env, st, events));
    } else {
      AdvancesReflexive(st);
    }
  }

  lemma AdvancesReflexive(st: Claim)
    ensures Advances(st, st)
  {
  }

  lemma {:induction false} LawfulConcat(env: Env, st: Claim, a: seq<Event>, b: seq<Event>)
    requires Lawful(env, st, a) && Lawful(env, Fold(env, st, a), b)
    ensures Lawful(env, st, a + b)
    decreases |a|
  {
    hide Apply, Allowed;
    if a != [] {
      assert (a + b)[1..] == a[1..] + b;
      LawfulConcat(env, Apply(env, st, a[0]), a[1..], b);
    } else {
      assert a + b == b;
    }
  }

  lemma {:induction false} OthersAreLawful(env: Env, st: Claim, events: seq<Event>)
    requires forall e | e in events :: e.claimId != st.id
    ensures Lawful(env, st, events)
    decreases |events|
  {
    if events != [] { OthersAreLawful(env, st, events[1..]); }
  }

  /** At most one event, and a lawful one. */
  lemma SingleIsLawful(env: Env, st: Claim, events: seq<Event>)
    requires |events| <= 1 && (events != [] ==> Allowed(st, events[0]))
    ensures Lawful(env, st, events)
    ensures Fold(env, st, events) == if events == [] then st else Apply(env, st, events[0])
  {
    hide Apply, Allowed;
    if events != [] {
      FoldOne(env, st, events[0]);
      assert events == [events[0]];
      assert Lawful(env, Apply(env, st, events[0]), []);
    }
  }

  // ---- the rules of a turn are lawful

  /** The stored status is the one the evidence supports, unless a person has settled it. */
  ghost predicate Settled(st: Claim) {
    st.reviewedAt.None? ==> st.status == Derive(st.suggested, st.evidence, st.contradicts != [])
  }

  /** The fields that checks do not touch. */
  ghost predicate SameSubstance(st: Claim, st': Claim) {
    && st'.id == st.id && st'.claim == st.claim && st'.status == st.status && st'.suggested == st.suggested
       && st'.evidence == st.evidence
    && st'.tier == st.tier && st'.corroboration == st.corroboration
    && st'.contradicts == st.contradicts && st'.variants == st.variants && st'.reviewedAt == st.reviewedAt
  }

  /** Events of one claim, at the turn's time. */
  ghost predicate OwnEvents(t: Turn, id: string, events: seq<Event>) {
    forall e | e in events :: e.claimId == id && e.at == t.at
  }

  lemma OnlyRetractionsRetract(suggested: Status, evidence: seq<Source>, contradicted: bool)
    ensures Derive(suggested, evidence, contradicted) == Retracted ==> suggested == Retracted
  {
    hide Ceiling;
  }

  /** The status event of a turn is lawful, and in evidence mode leaves the claim settled. */
  lemma SettleIsLawful(env: Env, t: Turn, st: Claim)
    ensures var es := SettleEvents(t, st);
            && Lawful(env, st, es) && OwnEvents(t, st.id, es)
            && (t.sources.Some? ==> Settled(Fold(env, st, es)))
            && SameSubstance(st, Fold(env, st, es).(status := st.status))
  {
    OnlyRetractionsRetract(st.suggested, st.evidence, st.contradicts != []);
    hide Derive, ApplyAssertion, Lawful, Fold;
    SingleIsLawful(env, st, SettleEvents(t, st));
  }

  lemma StatusIsLawful(env: Env, t: Turn, st: Claim, claim: LedgerClaim, isNew: bool)
    requires st.suggested == claim.status
    ensures var es := StatusEvents(t, st, claim, isNew);
            && Lawful(env, st, es) && OwnEvents(t, st.id, es)
            && (t.sources.Some? ==> Settled(Fold(env, st, es)))
            && SameSubstance(st, Fold(env, st, es).(status := st.status))
  {
    hide Derive, ApplyAssertion, Lawful, Fold, SettleEvents;
    SettleIsLawful(env, t, st);
    if t.sources.None? { SingleIsLawful(env, st, StatusEvents(t, st, claim, isNew)); }
  }

  /** The check events of a turn are lawful and touch nothing else. */
  lemma ChecksAreLawful(env: Env, t: Turn, st: Claim, claim: LedgerClaim, isNew: bool)
    requires isNew ==> st.reviewedAt.None?
    ensures forall es | es in {FlagEvents(t, st, claim, isNew), StaleEvents(env, t, st),
                               ConflictEvents(t, st, isNew)} ::
              Lawful(env, st, es) && OwnEvents(t, st.id, es) && SameSubstance(st, Fold(env, st, es))
  {
    hide Stale, ApplyAssertion, Lawful, Fold;
    SingleIsLawful(env, st, FlagEvents(t, st, claim, isNew));
    SingleIsLawful(env, st, StaleEvents(env, t, st));
    SingleIsLawful(env, st, ConflictEvents(t, st, isNew));
  }

  function Heard(env: Env, variants: seq<string>, text: string): seq<string> {
    var key := env.normalize(text);
    if key != "" && key !in variants then variants + [key] else variants
  }

  lemma AssertionIsLawful(env: Env, t: Turn, st: Claim, claim: LedgerClaim)
    requires claim.claim != "" && (st.reviewedAt.Some? ==> st.claim != "")
    ensures var es := [Assertion(env, t, st.id, claim)];
            var st' := Fold(env, st, es);
            && Lawful(env, st, es) && OwnEvents(t, st.id, es)
            && st'.id == st.id && st'.claim == claim.claim && st'.contradicts == st.contradicts
               && st'.reviewedAt == st.reviewedAt && st'.suggested == claim.status
            && st'.variants == Heard(env, st.variants, claim.claim)
  {
    hide Merge, Summarize, MergeCitations, Resolve, Lawful, Fold;
    SingleIsLawful(env, st, [Assertion(env, t, st.id, claim)]);
  }

  /** In a lawful log each event is allowed in the state that it meets. */
  lemma {:induction false} LawfulAt(env: Env, st: Claim, events: seq<Event>, k: nat)
    requires Lawful(env, st, events) && k < |events|
    ensures Allowed(Fold(env, st, events[..k]), events[k])
    decreases |events|
  {
    hide Apply, Allowed;
    if k > 0 {
      assert events[..k][1..] == events[1..][..k - 1] && events[..k][0] == events[0];
      LawfulAt(env, Apply(env, st, events[0]), events[1..], k - 1);
    } else {
      assert events[..0] == [];
    }
  }
}
