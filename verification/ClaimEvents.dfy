/** Claims as the fold of their events, and a person's review as events. */
module ClaimEvents {
  import opened Prelude
  import opened ClaimEvidence

  const MAX_CITATIONS: nat := 12

  datatype Actor = Model | Person | System

  datatype Kind =
    | AssertedAs(text: string, status: Status, attributedTo: string, citations: seq<int>, date: string,
                 sources: seq<Source>)
    | StatusChanged(to: Status)
    | ContradictedBy(other: string)
    | Withdrawn
    | CheckOpened(reason: string)
    | CheckClosed(reason: string)

  datatype Event = Event(claimId: string, kind: Kind, actor: Actor, actorName: string, messageId: Option<string>,
                         at: int)

  datatype Claim = Claim(
    id: string, claim: string, status: Status, suggested: Status, attributedTo: string, citations: seq<int>,
    evidence: seq<Source>, tier: Option<Tier>, corroboration: nat, date: string,
    needsCheck: bool, checkReason: Option<string>, contradicts: seq<string>, variants: seq<string>,
    reviewedBy: Option<string>, reviewedAt: Option<int>, firstSeen: Option<string>, lastUpdated: Option<string>,
    createdAt: int, updatedAt: int)

  function EmptyClaim(id: string): Claim {
    Claim(id, "", Unverified, Unverified, "", [], [], None, 0, "", false, None, [], [], None, None, None, None, 0, 0)
  }

  function MergeCitations(current: seq<int>, next: seq<int>): seq<int>
    decreases |next|
  {
    if next == [] then Capped(current, MAX_CITATIONS)
    else MergeCitations(if next[0] in current || next[0] <= 0 then current else current + [next[0]], next[1..])
  }

  function Or(a: string, b: string): string { if a != "" then a else b }

  function ActorName(a: Actor): string { match a case Model => "model" case Person => "person" case System => "system" }

  function Reviewed(c: Claim, e: Event): Claim {
    if e.actor == Person then c.(reviewedBy := Some(Or(e.actorName, "Someone")), reviewedAt := Some(e.at)) else c
  }

  function ApplyAssertion(env: Env, c: Claim, e: Event): Claim
    requires e.kind.AssertedAs?
  {
    var d := e.kind;
    var evidence := if d.sources == [] then c.evidence else Merge(c.evidence, d.sources);
    var key := env.normalize(d.text);
    c.(createdAt := if c.claim == "" then e.at else c.createdAt,
       firstSeen := if c.claim == "" then e.messageId else c.firstSeen,
       status := if c.claim == "" then d.status else c.status,
       suggested := d.status,
       evidence := evidence,
       tier := if d.sources == [] then c.tier else Summarize(evidence).tier,
       corroboration := if d.sources == [] then c.corroboration else Summarize(evidence).corroboration,
       claim := Or(d.text, c.claim),
       variants := if key != "" && key !in c.variants then c.variants + [key] else c.variants,
       attributedTo := Or(d.attributedTo, c.attributedTo),
       citations := MergeCitations(c.citations, d.citations),
       date := Or(d.date, c.date))
  }

  function Stamp(state: Claim, e: Event): Claim {
    state.(updatedAt := if e.at > state.updatedAt then e.at else state.updatedAt,
           lastUpdated := if e.messageId.Some? && e.messageId.value != "" then e.messageId else state.lastUpdated)
  }

  function Effect(env: Env, next: Claim, e: Event): Claim {
    match e.kind
    case AssertedAs(_, _, _, _, _, _) => ApplyAssertion(env, next, e)
    case StatusChanged(to) => Reviewed(next.(status := to), e)
    case Withdrawn => Reviewed(next.(status := Retracted), e)
    case ContradictedBy(other) =>
      if other != "" && other !in next.contradicts then next.(contradicts := next.contradicts + [other]) else next
    case CheckOpened(reason) => Reviewed(next.(needsCheck := true, checkReason := Some(Or(reason, ActorName(e.actor)))),
                                         e)
    case CheckClosed(_) => Reviewed(next.(needsCheck := false, checkReason := None), e)
  }

  /** Apply one event to a claim's state; events of other claims are ignored. */
  function Apply(env: Env, state: Claim, e: Event): Claim {
    if e.claimId != state.id then state else Effect(env, Stamp(state, e), e)
  }

  /** The events applied in log order from a given state. */
  function Fold(env: Env, state: Claim, events: seq<Event>): Claim
    decreases |events|
  {
    if events == [] then state else Fold(env, Apply(env, state, events[0]), events[1..])
  }

  function FoldClaim(env: Env, id: string, events: seq<Event>): Claim { Fold(env, EmptyClaim(id), events) }

  lemma {:induction false} FoldConcat(env: Env, state: Claim, a: seq<Event>, b: seq<Event>)
    ensures Fold(env, state, a + b) == Fold(env, Fold(env, state, a), b)
    decreases |a|
  {
    if a != [] {
      assert (a + b)[1..] == a[1..] + b;
      FoldConcat(env, Apply(env, state, a[0]), a[1..], b);
    } else {
      assert a + b == b;
    }
  }

  lemma {:induction false} FoldOne(env: Env, state: Claim, e: Event)
    ensures Fold(env, state, [e]) == Apply(env, state, e)
  {
    assert Fold(env, state, [e]) == Fold(env, Apply(env, state, e), []);
  }

  lemma {:induction false} FoldKeepsId(env: Env, state: Claim, events: seq<Event>)
    ensures Fold(env, state, events).id == state.id
    decreases |events|
  {
    if events != [] { FoldKeepsId(env, Apply(env, state, events[0]), events[1..]); }
  }

  /** Only a claim's own events matter to it. */
  lemma {:induction false} FoldIgnoresOthers(env: Env, state: Claim, events: seq<Event>)
    requires forall e | e in events :: e.claimId != state.id
    ensures Fold(env, state, events) == state
    decreases |events|
  {
    if events != [] { FoldIgnoresOthers(env, state, events[1..]); }
  }

  /** The events of one claim, in log order. */
  function Own(events: seq<Event>, id: string): seq<Event>
    decreases |events|
  {
    if events == [] then []
    else if events[0].claimId == id then [events[0]] + Own(events[1..], id)
    else Own(events[1..], id)
  }

  /** A claim's state depends on its own events alone, whatever else the log holds between them. */
  lemma {:induction false} FoldReadsOwnEvents(env: Env, state: Claim, events: seq<Event>)
    ensures Fold(env, state, events) == Fold(env, state, Own(events, state.id))
    decreases |events|
  {
    hide Effect, Stamp;
    if events != [] {
      var e, rest := events[0], events[1..];
      var next := Apply(env, state, e);
      FoldKeepsId(env, state, [e]);
      FoldOne(env, state, e);
      FoldReadsOwnEvents(env, next, rest);
      if e.claimId == state.id {
        assert ([e] + Own(rest, state.id))[1..] == Own(rest, state.id);
      }
    }
  }

  // ---- reviews

  datatype Review = Review(status: Option<Status>, needsCheck: Option<bool>)

  function PlanReview(c: Claim, review: Review, reviewer: string, at: int): seq<Event> {
    var changed := review.status.Some? && review.status.value != c.status;
    var status :=
      if !changed then []
      else if review.status.value == Retracted then [Event(c.id, Withdrawn, Person, reviewer, None, at)]
      else [Event(c.id, StatusChanged(review.status.value), Person, reviewer, None, at)];
    var check :=
      if review.needsCheck == Some(true) && !c.needsCheck
      then [Event(c.id, CheckOpened("person"), Person, reviewer, None, at)]
      else if review.needsCheck == Some(false) && c.needsCheck
      then [Event(c.id, CheckClosed("person"), Person, reviewer, None, at)]
      else [];
    if status + check != [] then status + check
    else [Event(c.id, StatusChanged(c.status), Person, reviewer, None, at)]
  }

  /**
   * A review is logged as what it changes: a new status, as a withdrawal if it is a retraction, and a check opened or
   * closed; one that changes nothing as the status it confirms. All of it in the person's name.
   */
  lemma ReviewsAreLoggedExactly(c: Claim, review: Review, reviewer: string, at: int, kind: Kind)
    ensures var events := PlanReview(c, review, reviewer, at);
            var status := if review.status.Some? then review.status.value else c.status;
            var needsCheck := if review.needsCheck.Some? then review.needsCheck.value else c.needsCheck;
            && (forall e | e in events ::
                  e.claimId == c.id && e.actor == Person && e.actorName == reviewer && e.messageId == None
                    && e.at == at)
            && (Event(c.id, kind, Person, reviewer, None, at) in events <==>
                  match kind
                  case Withdrawn => status == Retracted && c.status != Retracted
                  case StatusChanged(to) =>
                    to == status && (if status == c.status then needsCheck == c.needsCheck else status != Retracted)
                  case CheckOpened(reason) => reason == "person" && needsCheck && !c.needsCheck
                  case CheckClosed(reason) => reason == "person" && !needsCheck && c.needsCheck
                  case _ => false)
            && 1 <= |events| <= 2
            && (|events| == 2 ==> events[0].kind.StatusChanged? || events[0].kind.Withdrawn?)
  {
  }

  /** The claim with its status and check as given, settled by a person, and nothing else changed. */
  function SettledBy(c: Claim, status: Status, needsCheck: bool, checkReason: Option<string>, reviewer: string,
                     at: int): Claim {
    c.(status := status, needsCheck := needsCheck, checkReason := checkReason,
       reviewedAt := Some(at), reviewedBy := Some(Or(reviewer, "Someone")),
       updatedAt := if at > c.updatedAt then at else c.updatedAt)
  }

  function ReviewEvent(c: Claim, kind: Kind, reviewer: string, at: int): Event {
    Event(c.id, kind, Person, reviewer, None, at)
  }

  lemma StatusEventSettles(env: Env, c: Claim, status: Status, reviewer: string, at: int)
    ensures Apply(env, c, ReviewEvent(c, StatusChanged(status), reviewer, at))
            == SettledBy(c, status, c.needsCheck, c.checkReason, reviewer, at)
    ensures status == Retracted ==>
              Apply(env, c, ReviewEvent(c, Withdrawn, reviewer, at))
                == SettledBy(c, status, c.needsCheck, c.checkReason, reviewer, at)
  {
    hide ApplyAssertion;
  }

  lemma CheckEventSettles(env: Env, c: Claim, reviewer: string, at: int)
    ensures Apply(env, c, ReviewEvent(c, CheckOpened("person"), reviewer, at))
            == SettledBy(c, c.status, true, Some("person"), reviewer, at)
    ensures Apply(env, c, ReviewEvent(c, CheckClosed("person"), reviewer, at))
            == SettledBy(c, c.status, false, None, reviewer, at)
  {
    hide ApplyAssertion;
  }

  /** A review sets exactly the status and check the person named and marks the claim as settled by them. */
  lemma ReviewSettlesTheClaim(env: Env, c: Claim, review: Review, reviewer: string, at: int)
    ensures var status := if review.status.Some? then review.status.value else c.status;
            var needsCheck := if review.needsCheck.Some? then review.needsCheck.value else c.needsCheck;
            var reason := if needsCheck == c.needsCheck then c.checkReason else if needsCheck then Some("person")
              else None;
            Fold(env, c, PlanReview(c, review, reviewer, at)) == SettledBy(c, status, needsCheck, reason, reviewer, at)
  {
    hide Fold, Apply;
    var events := PlanReview(c, review, reviewer, at);
    if review.status.Some? { StatusEventSettles(env, c, review.status.value, reviewer, at); }
    StatusEventSettles(env, c, c.status, reviewer, at);
    CheckEventSettles(env, c, reviewer, at);
    FoldOne(env, c, events[0]);
    if |events| == 2 {
      FoldTwo(env, c, events[0], events[1]);
      CheckEventSettles(env, Apply(env, c, events[0]), reviewer, at);
      assert events == [events[0], events[1]];
    } else {
      assert events == [events[0]];
    }
  }

  lemma FoldTwo(env: Env, state: Claim, x: Event, y: Event)
    ensures Fold(env, state, [x, y]) == Apply(env, Apply(env, state, x), y)
  {
    hide Apply;
    assert [x, y] == [x] + [y];
    FoldConcat(env, state, [x], [y]);
    FoldOne(env, state, x);
    FoldOne(env, Apply(env, state, x), y);
  }
}
