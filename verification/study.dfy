/** The study page: the dashboard counters, deck selection with a shuffle,
    and the flashcard session with its grading buttons, navigation and swipe
    gestures. The shuffle's randomness, the clock and the feedback delays are
    parameters or left out. */
module Study {
  import opened Wrappers
  import opened Types
  import Seqs
  import Store

  const ErrorsCategory: string := "Errors"

  /** The dashboard's three filters. */
  function IsMastered(c: VocabCard): bool {
    c.studyState.Some? && c.studyState.value.status == Mastered
  }

  function IsNew(c: VocabCard): bool {
    c.studyState.None? || c.studyState.value.status == New
  }

  function IsError(c: VocabCard): bool {
    c.category == ErrorsCategory
  }

  function MasteredCount(cards: seq<VocabCard>): nat { |Seqs.Filter(cards, IsMastered)| }
  function NewCount(cards: seq<VocabCard>): nat { |Seqs.Filter(cards, IsNew)| }
  function ErrorCount(cards: seq<VocabCard>): nat { |Seqs.Filter(cards, IsError)| }

  /** Helper: filters by two predicates no element satisfies together select
      at most the whole list between them. */
  lemma {:induction false} DisjointFilters(s: seq<VocabCard>, p: VocabCard -> bool, q: VocabCard -> bool)
    requires forall c :: !(p(c) && q(c))
    ensures |Seqs.Filter(s, p)| + |Seqs.Filter(s, q)| <= |s|
    decreases |s|
  {
    if |s| > 0 {
      DisjointFilters(s[1..], p, q);
    }
  }

  /** No card is both mastered and new, so the two counters never add up to
      more than the collection. */
  lemma CountersBounded(cards: seq<VocabCard>)
    ensures MasteredCount(cards) + NewCount(cards) <= |cards|
    ensures ErrorCount(cards) <= |cards|
  {
    DisjointFilters(cards, IsMastered, IsNew);
  }

  datatype DeckKind = AllDeck | NewDeck | ErrorDeck

  function DeckTitle(k: DeckKind): string {
    match k
    case AllDeck => "All Words"
    case NewDeck => "New Words"
    case ErrorDeck => "Mistakes"
  }

  /** The cards a deck button selects, with the counters' own predicates. */
  function Select(k: DeckKind, cards: seq<VocabCard>): (r: seq<VocabCard>)
    ensures k.AllDeck? ==> r == cards
    ensures k.NewDeck? ==> |r| == NewCount(cards) && forall c :: c in r <==> c in cards && IsNew(c)
    ensures k.ErrorDeck? ==> |r| == ErrorCount(cards) && forall c :: c in r <==> c in cards && IsError(c)
    ensures Seqs.IsSubsequence(r, cards)
  {
    match k
    case AllDeck =>
      SubsequenceRefl(cards);
      cards
    case NewDeck =>
      Seqs.FilterIsSubsequence(cards, IsNew);
      Seqs.Filter(cards, IsNew)
    case ErrorDeck =>
      Seqs.FilterIsSubsequence(cards, IsError);
      Seqs.Filter(cards, IsError)
  }

  /** Helper: every list is a subsequence of itself. */
  lemma {:induction false} SubsequenceRefl(s: seq<VocabCard>)
    ensures Seqs.IsSubsequence(s, s)
    decreases |s|
  {
    if |s| > 0 {
      SubsequenceRefl(s[1..]);
    }
  }

  /** Exchanges two positions. */
  function Swap<T>(s: seq<T>, i: nat, j: nat): (r: seq<T>)
    requires i < |s| && j < |s|
    ensures |r| == |s| && multiset(r) == multiset(s)
    ensures r[i] == s[j] && r[j] == s[i]
    ensures forall k :: 0 <= k < |s| && k != i && k != j ==> r[k] == s[k]
  {
    s[i := s[j]][j := s[i]]
  }

  /** The random sort, as the sequence of exchanges it happened to make; an
      exchange naming a position outside the deck is ignored. */
  function Shuffle<T>(s: seq<T>, swaps: seq<(nat, nat)>): (r: seq<T>)
    ensures |r| == |s| && multiset(r) == multiset(s)
    decreases |swaps|
  {
    if |swaps| == 0 then s
    else
      var (i, j) := swaps[0];
      var s1 := if i < |s| && j < |s| then Swap(s, i, j) else s;
      Shuffle(s1, swaps[1..])
  }

  datatype Feedback = NoFeedback | Correct | Wrong

  /** A flashcard session over a fixed deck, the copy taken when the session
      started. The index is an integer because delayed steps can carry it
      past either end of the deck; `active` turns false when the session ends
      and the page returns to the dashboard. */
  datatype Session = Session(
    deck: seq<VocabCard>,
    title: string,
    index: int,
    flipped: bool,
    feedback: Feedback,
    active: bool)

  /** The index names a card of the deck. */
  predicate Valid(s: Session) {
    0 < |s.deck| && 0 <= s.index < |s.deck|
  }

  /** `startSession`: an empty deck starts nothing; otherwise the shuffled
      deck is shown from its first card. */
  function StartSession(k: DeckKind, cards: seq<VocabCard>, swaps: seq<(nat, nat)>): (r: Option<Session>)
    ensures r.None? <==> |Select(k, cards)| == 0
    ensures r.Some? ==>
      && Valid(r.value) && r.value.index == 0 && r.value.active
      && r.value.title == DeckTitle(k)
      && multiset(r.value.deck) == multiset(Select(k, cards))
  {
    var deck := Select(k, cards);
    if |deck| == 0 then None
    else Some(Session(Shuffle(deck, swaps), DeckTitle(k), 0, false, NoFeedback, true))
  }

  /** The review count a grade starts from: the previous one, 0 when none. */
  function PreviousCount(c: VocabCard): nat {
    if c.studyState.Some? then c.studyState.value.reviewCount else 0
  }

  /** The update "Got it" sends: mastered, one more review, stamped now. */
  function CorrectPatch(c: VocabCard, now: string): Store.CardPatch {
    Store.EmptyPatch.(studyState := Some(StudyState(Some(now), Mastered, PreviousCount(c) + 1)))
  }

  /** The update "Missed it" sends: into the Errors category, learning, one
      more review, stamped now. */
  function IncorrectPatch(c: VocabCard, now: string): Store.CardPatch {
    Store.EmptyPatch.(
      category := Some(ErrorsCategory),
      studyState := Some(StudyState(Some(now), Learning, PreviousCount(c) + 1)))
  }

  /** Grading as the session does it: from the card in its own deck, which is
      the copy taken when the session started. */
  function GradeAsWritten(s: Session, store: seq<VocabCard>, correct: bool, now: string): (r: seq<VocabCard>)
    requires Valid(s)
    ensures |r| == |store|
    ensures forall i :: 0 <= i < |store| && store[i].id != s.deck[s.index].id ==> r[i] == store[i]
    ensures forall i :: 0 <= i < |store| && store[i].id == s.deck[s.index].id ==>
      && r[i].studyState == Some(StudyState(Some(now), if correct then Mastered else Learning, PreviousCount(s.deck[s.index]) + 1))
      && (correct ==> r[i].category == store[i].category)
      && (!correct ==> r[i].category == ErrorsCategory)
      && r[i].term == store[i].term && r[i].definition == store[i].definition
      && r[i].language == store[i].language && r[i].dateAdded == store[i].dateAdded
      && r[i].details == store[i].details
  {
    var c := s.deck[s.index];
    Store.UpdateVocabItem(store, c.id, if correct then CorrectPatch(c, now) else IncorrectPatch(c, now))
  }

  /** The first card of the store with the id, if any. */
  function Find(store: seq<VocabCard>, id: string): (r: Option<VocabCard>)
    ensures r.Some? ==> r.value in store && r.value.id == id
    ensures r.None? <==> forall i :: 0 <= i < |store| ==> store[i].id != id
    decreases |store|
  {
    if |store| == 0 then None
    else if store[0].id == id then Some(store[0])
    else Find(store[1..], id)
  }

  /** Grading from the live card in the store, so that every grade adds one
      review to what is stored. */
  function Grade(s: Session, store: seq<VocabCard>, correct: bool, now: string): (r: seq<VocabCard>)
    requires Valid(s)
    ensures |r| == |store|
    ensures forall i :: 0 <= i < |store| && store[i].id != s.deck[s.index].id ==> r[i] == store[i]
  {
    var id := s.deck[s.index].id;
    var c := Find(store, id).GetOr(s.deck[s.index]);
    Store.UpdateVocabItem(store, id, if correct then CorrectPatch(c, now) else IncorrectPatch(c, now))
  }

  /** Grading a card whose id is unique in the store: "Got it" masters it,
      "Missed it" moves it to Errors as learning; either way its review count is
      one more than stored, and every other card is untouched. */
  lemma GradeEffect(s: Session, store: seq<VocabCard>, correct: bool, now: string, k: nat)
    requires Valid(s) && k < |store| && store[k].id == s.deck[s.index].id
    requires forall i :: 0 <= i < |store| && i != k ==> store[i].id != store[k].id
    ensures var r := Grade(s, store, correct, now);
      && r[k].studyState.Some?
      && r[k].studyState.value.reviewCount == PreviousCount(store[k]) + 1
      && r[k].studyState.value.lastReviewed == Some(now)
      && (correct ==> r[k].studyState.value.status == Mastered && r[k].category == store[k].category)
      && (!correct ==> r[k].studyState.value.status == Learning && r[k].category == ErrorsCategory)
      && r[k].term == store[k].term && r[k].details == store[k].details
      && (forall i :: 0 <= i < |store| && i != k ==> r[i] == store[i])
  {
    FindUnique(store, k);
  }

  /** The session's grading and the corrected one write the same store
      whenever the stored card's review count is still the session copy's, as
      on a card's first grade in a session. */
  lemma GradingsAgreeWhenCurrent(s: Session, store: seq<VocabCard>, correct: bool, now: string, k: nat)
    requires Valid(s) && k < |store| && store[k].id == s.deck[s.index].id
    requires forall i :: 0 <= i < |store| && i != k ==> store[i].id != store[k].id
    requires PreviousCount(store[k]) == PreviousCount(s.deck[s.index])
    ensures GradeAsWritten(s, store, correct, now) == Grade(s, store, correct, now)
  {
    FindUnique(store, k);
  }

  /** Helper: the card found for a unique id is the one carrying it. */
  lemma {:induction false} FindUnique(store: seq<VocabCard>, k: nat)
    requires k < |store|
    requires forall i :: 0 <= i < |store| && i != k ==> store[i].id != store[k].id
    ensures Find(store, store[k].id) == Some(store[k])
    decreases |store|
  {
    if k > 0 {
      FindUnique(store[1..], k - 1);
    }
  }

  /** Grading the same card twice in one session counts two reviews. */
  lemma GradeTwiceCountsTwo(s: Session, store: seq<VocabCard>, c1: bool, c2: bool, now: string, k: nat)
    requires Valid(s) && k < |store| && store[k].id == s.deck[s.index].id
    requires forall i :: 0 <= i < |store| && i != k ==> store[i].id != store[k].id
    ensures var r := Grade(s, Grade(s, store, c1, now), c2, now);
      r[k].studyState.Some? && r[k].studyState.value.reviewCount == PreviousCount(store[k]) + 2
  {
    GradeEffect(s, store, c1, now, k);
    var r1 := Grade(s, store, c1, now);
    GradeEffect(s, r1, c2, now, k);
  }

  datatype Swipe = NoSwipe | SwipeNext | SwipePrev

  /** A touch coordinate as JavaScript tests it: `clientX` is a number of CSS
      pixels, and a missing or zero coordinate is false. */
  predicate Touched(x: Option<real>) {
    x.Some? && x.value != 0.0
  }

  /** `onTouchEnd`: leftward moves of more than 50 pixels go forward,
      rightward ones back; shorter ones and missing coordinates do nothing. */
  function OnTouchEnd(start: Option<real>, end: Option<real>): (r: Swipe)
    ensures r == SwipeNext <==> Touched(start) && Touched(end) && start.value - end.value > 50.0
    ensures r == SwipePrev <==> Touched(start) && Touched(end) && end.value - start.value > 50.0
  {
    if !Touched(start) || !Touched(end) then NoSwipe
    else
      var distance := start.value - end.value;
      if distance > 50.0 then SwipeNext
      else if distance < -50.0 then SwipePrev
      else NoSwipe
  }

  /** A swipe and its mirror image go in opposite directions. */
  lemma SwipeMirror(a: Option<real>, b: Option<real>)
    ensures OnTouchEnd(a, b) == SwipeNext <==> OnTouchEnd(b, a) == SwipePrev
    ensures OnTouchEnd(a, b) == NoSwipe <==> OnTouchEnd(b, a) == NoSwipe
  {
  }

  /** Movements of at most 50 pixels either way are ignored. */
  lemma SwipeDeadZone(a: real, b: real)
    requires -50.0 <= a - b <= 50.0
    ensures OnTouchEnd(Some(a), Some(b)) == NoSwipe
  {
  }

  /** A pending `setTimeout` of the session. A step tests the index its
      closure captured when the page was rendered, not the index current
      when it fires. */
  datatype Timer =
    | AfterGrade(captured: int)  // `handleNext`, 1200 or 1500 ms after a grade
    | NextStep(captured: int)    // the 200 ms step of `handleNext`
    | PrevStep                   // the 200 ms step of `handlePrev`

  /** The page as written, or corrected: steps that test the index they
      update, and grades that read the stored card. */
  datatype Version = AsWritten | Corrected

  /** The session page: the session, the timers scheduled and not yet fired,
      and the application's card list. */
  datatype Page = Page(s: Session, pending: seq<Timer>, store: seq<VocabCard>)

  /** `handleNext` as called: the card turns face up and its feedback clears
      at once, and one step that will test the index captured now is
      scheduled. The index does not move yet. */
  function HandleNext(p: Page, captured: int): (t: Page)
    ensures t.s.index == p.s.index && t.s.deck == p.s.deck && t.s.active == p.s.active
    ensures !t.s.flipped && t.s.feedback == NoFeedback
    ensures t.pending == p.pending + [NextStep(captured)] && t.store == p.store
  {
    Page(p.s.(flipped := false, feedback := NoFeedback), p.pending + [NextStep(captured)], p.store)
  }

  /** `handlePrev` as called: on any card but the first, the card turns face
      up, its feedback clears and one step back is scheduled; on the first,
      nothing happens. The index does not move yet. */
  function HandlePrev(p: Page): (t: Page)
    ensures t.s.index == p.s.index && t.s.deck == p.s.deck && t.s.active == p.s.active && t.store == p.store
    ensures p.s.index > 0 ==> !t.s.flipped && t.s.feedback == NoFeedback && t.pending == p.pending + [PrevStep]
    ensures p.s.index <= 0 ==> t == p
  {
    if p.s.index > 0 then Page(p.s.(flipped := false, feedback := NoFeedback), p.pending + [PrevStep], p.store)
    else p
  }

  /** The step of `handleNext` firing. As written it tests the captured index
      and then advances whatever the index is now (`prev => prev + 1`); the
      corrected step tests the index it advances. Passing the last card ends
      the session. */
  function Advance(v: Version, s: Session, captured: int): (t: Session)
    ensures t.deck == s.deck && t.flipped == s.flipped && t.feedback == s.feedback
    ensures var compared := if v.AsWritten? then captured else s.index;
      && (compared < |s.deck| - 1 ==> t.index == s.index + 1 && t.active == s.active)
      && (compared >= |s.deck| - 1 ==> t.index == s.index && !t.active)
  {
    var compared := if v.AsWritten? then captured else s.index;
    if compared < |s.deck| - 1 then s.(index := s.index + 1) else s.(active := false)
  }

  /** The step of `handlePrev` firing. As written it goes back one card
      unconditionally, the test having run when it was scheduled; the
      corrected step stays on the first card. */
  function Retreat(v: Version, s: Session): (t: Session)
    ensures t.deck == s.deck && t.active == s.active
    ensures v.AsWritten? || s.index > 0 ==> t.index == s.index - 1
    ensures v.Corrected? && s.index <= 0 ==> t.index == s.index
  {
    if v.AsWritten? || s.index > 0 then s.(index := s.index - 1) else s
  }

  /** The pending timers without the k-th. */
  function Without(q: seq<Timer>, k: nat): (r: seq<Timer>)
    requires k < |q|
    ensures |r| == |q| - 1
    ensures forall i :: 0 <= i < k ==> r[i] == q[i]
    ensures forall i :: k <= i < |r| ==> r[i] == q[i + 1]
  {
    q[..k] + q[k + 1..]
  }

  /** Timer k fires. A grade's delayed `handleNext` is the closure rendered
      when the grade was given, so the step it schedules carries that index. */
  function FireTimer(v: Version, p: Page, k: nat): (t: Page)
    requires k < |p.pending|
    ensures t.s.deck == p.s.deck && t.store == p.store
    ensures p.pending[k].AfterGrade? ==>
      t == HandleNext(p.(pending := Without(p.pending, k)), p.pending[k].captured)
    ensures p.pending[k].NextStep? ==>
      t.s == Advance(v, p.s, p.pending[k].captured) && t.pending == Without(p.pending, k)
    ensures p.pending[k].PrevStep? ==> t.s == Retreat(v, p.s) && t.pending == Without(p.pending, k)
  {
    var rest := Without(p.pending, k);
    match p.pending[k]
    case AfterGrade(c) => HandleNext(p.(pending := rest), c)
    case NextStep(c) => p.(s := Advance(v, p.s, c), pending := rest)
    case PrevStep => p.(s := Retreat(v, p.s), pending := rest)
  }

  /** `onTouchEnd` on the page: a swipe schedules a step and leaves the index
      where it is. */
  function OnSwipe(p: Page, start: Option<real>, end: Option<real>): (t: Page)
    ensures t.s.index == p.s.index && t.s.deck == p.s.deck && t.s.active == p.s.active && t.store == p.store
    ensures OnTouchEnd(start, end) == SwipeNext ==> t.pending == p.pending + [NextStep(p.s.index)]
    ensures OnTouchEnd(start, end) == SwipePrev ==> t == HandlePrev(p)
    ensures OnTouchEnd(start, end) == NoSwipe ==> t == p
  {
    match OnTouchEnd(start, end)
    case SwipeNext => HandleNext(p, p.s.index)
    case SwipePrev => HandlePrev(p)
    case NoSwipe => p
  }

  /** What the session page receives: a touch gesture, a tap on the card, a
      grade button with the clock's time, or pending timer k firing. Which
      timer fires is part of the input, so every firing order is admitted. */
  datatype Input =
    | Touch(start: Option<real>, end: Option<real>)
    | Tap
    | GradeButton(correct: bool, now: string)
    | Elapse(k: nat)

  /** The store update of a grade. */
  function GradeStore(v: Version, s: Session, store: seq<VocabCard>, correct: bool, now: string): (r: seq<VocabCard>)
    requires Valid(s)
    ensures |r| == |store|
    ensures forall i :: 0 <= i < |store| && store[i].id != s.deck[s.index].id ==> r[i] == store[i]
  {
    if v.AsWritten? then GradeAsWritten(s, store, correct, now) else Grade(s, store, correct, now)
  }

  /** One input to the session page. After the session ends nothing changes.
      While the index names no card the page renders nothing, so only timers
      act. The grade buttons are on the card's back, shown only while no
      feedback is, and a grade schedules the delayed `handleNext` with the
      index shown. */
  function Step(v: Version, p: Page, e: Input): (t: Page)
    ensures t.s.deck == p.s.deck && |t.store| == |p.store|
    ensures !p.s.active ==> t == p
    ensures !Valid(p.s) && !e.Elapse? ==> t == p
    ensures p.s.active && e.GradeButton? && (!p.s.flipped || p.s.feedback != NoFeedback) ==> t == p
    ensures p.s.active && Valid(p.s) && e.GradeButton? && p.s.flipped && p.s.feedback == NoFeedback ==>
      && t.s == p.s.(feedback := if e.correct then Correct else Wrong)
      && t.pending == p.pending + [AfterGrade(p.s.index)]
      && t.store == GradeStore(v, p.s, p.store, e.correct, e.now)
    ensures p.s.active && Valid(p.s) && e.Tap? ==> t == p.(s := p.s.(flipped := !p.s.flipped))
    ensures p.s.active && Valid(p.s) && e.Touch? ==> t == OnSwipe(p, e.start, e.end)
    ensures p.s.active && e.Elapse? ==> t == if e.k < |p.pending| then FireTimer(v, p, e.k) else p
  {
    if !p.s.active then p
    else if e.Elapse? then
      if e.k < |p.pending| then FireTimer(v, p, e.k) else p
    else if !Valid(p.s) then p
    else
      match e
      case Touch(a, b) => OnSwipe(p, a, b)
      case Tap => p.(s := p.s.(flipped := !p.s.flipped))
      case GradeButton(correct, now) =>
        if !p.s.flipped || p.s.feedback != NoFeedback then p
        else Page(p.s.(feedback := if correct then Correct else Wrong),
                  p.pending + [AfterGrade(p.s.index)],
                  GradeStore(v, p.s, p.store, correct, now))
      case Elapse(_) => p
  }

  function Run(v: Version, p: Page, es: seq<Input>): Page
    decreases |es|
  {
    if |es| == 0 then p else Run(v, Step(v, p, es[0]), es[1..])
  }

  /** The corrected page keeps the index on a card whatever arrives. */
  lemma StepKeepsValid(p: Page, e: Input)
    requires Valid(p.s)
    ensures Valid(Step(Corrected, p, e).s)
  {
  }

  /** The corrected page keeps the index on a card over any run of inputs,
      in any timer order. */
  lemma {:induction false} RunKeepsValid(p: Page, es: seq<Input>)
    requires Valid(p.s)
    ensures Valid(Run(Corrected, p, es).s)
    decreases |es|
  {
    if |es| > 0 {
      StepKeepsValid(p, es[0]);
      RunKeepsValid(Step(Corrected, p, es[0]), es[1..]);
    }
  }

  /** When no other step is in flight, the step fires against the index it
      captured, and the corrected step does exactly what the written one
      does. */
  lemma CorrectionAgreesWhenCurrent(p: Page, k: nat)
    requires k < |p.pending| && Valid(p.s)
    requires p.pending[k].NextStep? ==> p.pending[k].captured == p.s.index
    requires p.pending[k].PrevStep? ==> p.s.index > 0
    ensures FireTimer(AsWritten, p, k) == FireTimer(Corrected, p, k)
  {
  }

  /** Once the index names no card and no timer is pending, the page shows
      nothing and no input changes it again. */
  lemma {:induction false} StuckWithoutCard(v: Version, p: Page, es: seq<Input>)
    requires !Valid(p.s) && p.pending == []
    ensures Run(v, p, es) == p
    decreases |es|
  {
    if |es| > 0 {
      assert Step(v, p, es[0]) == p;
      StuckWithoutCard(v, p, es[1..]);
    }
  }

  const LeftSwipe: Input := Touch(Some(200.0), Some(100.0))
  const RightSwipe: Input := Touch(Some(100.0), Some(200.0))

  /** Helper: running a trace that starts with `e`. */
  lemma RunCons(v: Version, p: Page, e: Input, rest: seq<Input>)
    ensures Run(v, p, [e] + rest) == Run(v, Step(v, p, e), rest)
  {
    assert ([e] + rest)[0] == e;
    assert ([e] + rest)[1..] == rest;
  }

  /** Helper: on the middle card of three, a grade, a left swipe, the
      swipe's step and the grade's delayed `handleNext` leave the last card
      shown with a step pending that captured the middle card. */
  lemma GradeSwipePrefix(v: Version, deck: seq<VocabCard>, store: seq<VocabCard>, now: string)
    requires |deck| == 3
    ensures var s := Session(deck, "All Words", 1, true, NoFeedback, true);
      Run(v, Page(s, [], store), [GradeButton(true, now), LeftSwipe, Elapse(1), Elapse(0)])
        == Page(s.(flipped := false, index := 2), [NextStep(1)], GradeStore(v, s, store, true, now))
  {
    var s := Session(deck, "All Words", 1, true, NoFeedback, true);
    var p := Page(s, [], store);
    var es := [GradeButton(true, now), LeftSwipe, Elapse(1), Elapse(0)];
    var st := GradeStore(v, s, store, true, now);
    var p1 := Page(s.(feedback := Correct), [AfterGrade(1)], st);
    assert Step(v, p, es[0]) == p1;
    var p2 := Page(s.(flipped := false), [AfterGrade(1), NextStep(1)], st);
    assert Step(v, p1, es[1]) == p2;
    var p3 := Page(s.(flipped := false, index := 2), [AfterGrade(1)], st);
    assert Step(v, p2, es[2]) == p3;
    assert Step(v, p3, es[3]) == Page(s.(flipped := false, index := 2), [NextStep(1)], st);
    RunCons(v, p, es[0], es[1..]);
    RunCons(v, p1, es[1], es[2..]);
    RunCons(v, p2, es[2], es[3..]);
    RunCons(v, p3, es[3], []);
  }

  /** A grade followed within its delay by a left swipe overruns the deck as
      written. On the middle card of three: "Got it" at 0 ms, a left swipe at
      100 ms, whose step fires at 300 ms and shows the last card; the grade's
      `handleNext` at 1200 ms schedules a step that still tests index 1 and
      fires at 1400 ms. The index is then 3, the page renders nothing and no
      input can leave it; the corrected page instead ends the session. */
  lemma SwipeAfterGradeOverruns(deck: seq<VocabCard>, store: seq<VocabCard>, now: string)
    requires |deck| == 3
    ensures var p := Page(Session(deck, "All Words", 1, true, NoFeedback, true), [], store);
      var es := [GradeButton(true, now), LeftSwipe, Elapse(1), Elapse(0), Elapse(0)];
      var q := Run(AsWritten, p, es);
      && q.s.index == |deck| && q.s.active && q.pending == [] && !Valid(q.s)
      && (forall more :: Run(AsWritten, q, more) == q)
      && Run(Corrected, p, es).s.index == 2 && !Run(Corrected, p, es).s.active
  {
    var s := Session(deck, "All Words", 1, true, NoFeedback, true);
    var p := Page(s, [], store);
    var prefix := [GradeButton(true, now), LeftSwipe, Elapse(1), Elapse(0)];
    var es := prefix + [Elapse(0)];
    assert es == [GradeButton(true, now), LeftSwipe, Elapse(1), Elapse(0), Elapse(0)];
    forall v: Version
      ensures Run(v, p, es) == Step(v, Page(s.(flipped := false, index := 2), [NextStep(1)], GradeStore(v, s, store, true, now)), Elapse(0))
    {
      GradeSwipePrefix(v, deck, store, now);
      RunAppend(v, p, prefix, [Elapse(0)]);
      RunCons(v, Run(v, p, prefix), Elapse(0), []);
    }
    var q := Run(AsWritten, p, es);
    forall more ensures Run(AsWritten, q, more) == q {
      StuckWithoutCard(AsWritten, q, more);
    }
  }

  /** Two right swipes within 200 ms from the second card both pass the
      first-card test, so as written the index reaches -1; the corrected page
      stops at the first card. */
  lemma DoubleSwipeBackUnderruns(deck: seq<VocabCard>, store: seq<VocabCard>)
    requires |deck| >= 2
    ensures var p := Page(Session(deck, "All Words", 1, false, NoFeedback, true), [], store);
      var es := [RightSwipe, RightSwipe, Elapse(0), Elapse(0)];
      && Run(AsWritten, p, es).s.index == -1
      && Run(Corrected, p, es).s.index == 0
  {
    var p := Page(Session(deck, "All Words", 1, false, NoFeedback, true), [], store);
    var es := [RightSwipe, RightSwipe, Elapse(0), Elapse(0)];
    forall v: Version ensures Run(v, p, es) == Step(v, Step(v, Step(v, Step(v, p, es[0]), es[1]), es[2]), es[3]) {
      RunCons(v, p, es[0], es[1..]);
      RunCons(v, Step(v, p, es[0]), es[1], es[2..]);
      var p2 := Step(v, Step(v, p, es[0]), es[1]);
      RunCons(v, p2, es[2], es[3..]);
      RunCons(v, Step(v, p2, es[2]), es[3], []);
    }
  }

  /** Back and, once that step has fired, forward again returns to the same
      card, as written and corrected. */
  lemma PrevThenNext(v: Version, p: Page)
    requires Valid(p.s) && p.s.index > 0 && p.s.active && p.pending == []
    ensures var q := Run(v, p, [RightSwipe, Elapse(0), LeftSwipe, Elapse(0)]);
      q.s.index == p.s.index && q.s.active && q.pending == []
  {
    var es := [RightSwipe, Elapse(0), LeftSwipe, Elapse(0)];
    RunCons(v, p, es[0], es[1..]);
    var p1 := Step(v, p, es[0]);
    RunCons(v, p1, es[1], es[2..]);
    var p2 := Step(v, p1, es[1]);
    RunCons(v, p2, es[2], es[3..]);
    var p3 := Step(v, p2, es[2]);
    RunCons(v, p3, es[3], []);
  }

  /** Helper: on two cards, a grade of the first and its two delayed steps
      show the second card, face down. */
  lemma GradeThenAdvance(v: Version, c0: VocabCard, c1: VocabCard, now: string)
    ensures var s := Session([c0, c1], "All Words", 0, true, NoFeedback, true);
      Run(v, Page(s, [], [c0, c1]), [GradeButton(true, now), Elapse(0), Elapse(0)])
        == Page(s.(flipped := false, index := 1), [], GradeStore(v, s, [c0, c1], true, now))
  {
    var s := Session([c0, c1], "All Words", 0, true, NoFeedback, true);
    var p := Page(s, [], [c0, c1]);
    var es := [GradeButton(true, now), Elapse(0), Elapse(0)];
    var store1 := GradeStore(v, s, [c0, c1], true, now);
    var p1 := Page(s.(feedback := Correct), [AfterGrade(0)], store1);
    assert Step(v, p, es[0]) == p1;
    var p2 := Page(s.(flipped := false), [NextStep(0)], store1);
    assert Step(v, p1, es[1]) == p2;
    assert Step(v, p2, es[2]) == Page(s.(flipped := false, index := 1), [], store1);
    RunCons(v, p, es[0], es[1..]);
    RunCons(v, p1, es[1], es[2..]);
    RunCons(v, p2, es[2], []);
  }

  /** Helper: from the second of two cards, a right swipe, its step and a
      tap show the first card face up. */
  lemma BackAndTurn(v: Version, s: Session, store: seq<VocabCard>)
    requires |s.deck| == 2 && s.index == 1 && !s.flipped && s.feedback == NoFeedback && s.active
    ensures Run(v, Page(s, [], store), [RightSwipe, Elapse(0), Tap]) == Page(s.(index := 0, flipped := true), [], store)
  {
    var p := Page(s, [], store);
    var es := [RightSwipe, Elapse(0), Tap];
    var p1 := Page(s, [PrevStep], store);
    assert Step(v, p, es[0]) == p1;
    var p2 := Page(s.(index := 0), [], store);
    assert Step(v, p1, es[1]) == p2;
    assert Step(v, p2, es[2]) == Page(s.(index := 0, flipped := true), [], store);
    RunCons(v, p, es[0], es[1..]);
    RunCons(v, p1, es[1], es[2..]);
    RunCons(v, p2, es[2], []);
  }

  /** Helper: the store after the two-grade trace is the session's two
      grades applied in turn. */
  lemma GradeTwiceTrace(v: Version, c0: VocabCard, c1: VocabCard)
    ensures var s := Session([c0, c1], "All Words", 0, true, NoFeedback, true);
      var es := [GradeButton(true, "t1"), Elapse(0), Elapse(0), RightSwipe, Elapse(0), Tap, GradeButton(true, "t2")];
      Run(v, Page(s, [], [c0, c1]), es).store
        == GradeStore(v, s, GradeStore(v, s, [c0, c1], true, "t1"), true, "t2")
  {
    var s := Session([c0, c1], "All Words", 0, true, NoFeedback, true);
    var p := Page(s, [], [c0, c1]);
    var nav := [GradeButton(true, "t1"), Elapse(0), Elapse(0), RightSwipe, Elapse(0), Tap];
    var es := nav + [GradeButton(true, "t2")];
    assert es == [GradeButton(true, "t1"), Elapse(0), Elapse(0), RightSwipe, Elapse(0), Tap, GradeButton(true, "t2")];
    var fwd := [GradeButton(true, "t1"), Elapse(0), Elapse(0)];
    var back := [RightSwipe, Elapse(0), Tap];
    assert nav == fwd + back;
    GradeThenAdvance(v, c0, c1, "t1");
    var q1 := Page(s.(flipped := false, index := 1), [], GradeStore(v, s, [c0, c1], true, "t1"));
    BackAndTurn(v, q1.s, q1.store);
    RunAppend(v, p, fwd, back);
    RunAppend(v, p, nav, [GradeButton(true, "t2")]);
    var q := Page(s, [], GradeStore(v, s, [c0, c1], true, "t1"));
    RunCons(v, q, GradeButton(true, "t2"), []);
  }

  /** The session's own grading loses a review. Two cards with distinct ids,
      the first never studied: "Got it" on the first, the delayed step shows
      the second, a right swipe goes back, a tap turns the card, and "Got it"
      again. As written the
      store ends with one review of the first card, because both grades
      counted from the session's copy; the corrected page counts two. */
  lemma GradeAsWrittenLosesReview(c0: VocabCard, c1: VocabCard)
    requires c0.id != c1.id && c0.studyState.None?
    ensures var p := Page(Session([c0, c1], "All Words", 0, true, NoFeedback, true), [], [c0, c1]);
      var es := [GradeButton(true, "t1"), Elapse(0), Elapse(0), RightSwipe, Elapse(0), Tap, GradeButton(true, "t2")];
      && |Run(AsWritten, p, es).store| == 2 && |Run(Corrected, p, es).store| == 2
      && Run(AsWritten, p, es).store[0].studyState == Some(StudyState(Some("t2"), Mastered, 1))
      && Run(Corrected, p, es).store[0].studyState == Some(StudyState(Some("t2"), Mastered, 2))
  {
    var s := Session([c0, c1], "All Words", 0, true, NoFeedback, true);
    GradeTwiceTrace(AsWritten, c0, c1);
    GradeTwiceTrace(Corrected, c0, c1);
    var c1st := GradeStore(Corrected, s, [c0, c1], true, "t1");
    GradeEffect(s, [c0, c1], true, "t1", 0);
    GradeEffect(s, c1st, true, "t2", 0);
  }

  /** Helper: running a trace in two parts. */
  lemma {:induction false} RunAppend(v: Version, p: Page, a: seq<Input>, b: seq<Input>)
    ensures Run(v, p, a + b) == Run(v, Run(v, p, a), b)
    decreases |a|
  {
    if |a| > 0 {
      assert (a + b)[0] == a[0];
      assert (a + b)[1..] == a[1..] + b;
      RunAppend(v, Step(v, p, a[0]), a[1..], b);
    } else {
      assert a + b == b;
    }
  }
}
