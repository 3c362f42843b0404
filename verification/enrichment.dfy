/** The detail loader of the card page and of the card modal: which detail
    fields are missing, one generator call per missing field, a join on all of
    them, and at most one merged write-back through the card store. */
module Enrichment {
  import opened Wrappers
  import opened Types
  import opened Generators
  import Store

  /** The five independently cached detail fields (image covers the image and
      its MIME type). */
  datatype Field = Explanation | Image | Audio | Conversation | Grammar

  const AllFields: set<Field> := {Explanation, Image, Audio, Conversation, Grammar}

  /** The fields the lighter modal view loads. */
  const MediaFields: set<Field> := {Explanation, Image, Audio}

  /** A field needs fetching when the loader's JavaScript truthiness test fails:
      an absent or empty string is missing, while a present list is not, even
      an empty one. */
  predicate Missing(d: VocabDetails, f: Field) {
    match f
    case Explanation => !Truthy(d.explanation)
    case Image => !Truthy(d.imageUrl)
    case Audio => !Truthy(d.audioBase64)
    case Conversation => d.sampleConversation.None?
    case Grammar => d.grammar.None?
  }

  /** A record is complete for a caller when none of its required fields is missing. */
  predicate IsComplete(d: VocabDetails, required: set<Field>) {
    forall f :: f in required ==> !Missing(d, f)
  }

  /** The fields a load asks for. */
  function Requested(d: VocabDetails, required: set<Field>): (r: set<Field>)
    ensures forall f :: f in r <==> f in required && Missing(d, f)
    ensures r == {} <==> IsComplete(d, required)
  {
    set f | f in required && Missing(d, f)
  }

  /** The two call sites. The page passes the app's target language to the
      generators; the modal passes the card's own language. */
  datatype Loader = DetailPage(targetLanguage: Language) | DetailModal

  function Required(l: Loader): set<Field> {
    match l
    case DetailPage(_) => AllFields
    case DetailModal => MediaFields
  }

  function CallLanguage(l: Loader, card: VocabCard): Language {
    match l
    case DetailPage(lang) => lang
    case DetailModal => card.language
  }

  function FailureMessage(l: Loader): string {
    match l
    case DetailPage(_) => "Failed to generate some content. Please check your connection."
    case DetailModal => "Failed to generate some content. Please try again."
  }

  /** The early-return test each loader performs, as written at its call site. */
  predicate AlreadyLoaded(l: Loader, d: VocabDetails) {
    match l
    case DetailPage(_) =>
      var hasContent := Truthy(d.explanation) && Truthy(d.imageUrl) && Truthy(d.audioBase64)
                        && d.sampleConversation.Some?;
      hasContent && d.grammar.Some?
    case DetailModal =>
      Truthy(d.explanation) && Truthy(d.imageUrl) && Truthy(d.audioBase64)
  }

  /** Both early returns are the one completeness test, with the caller's
      required-field set. */
  lemma AlreadyLoadedIsCompleteness(l: Loader, d: VocabDetails)
    ensures AlreadyLoaded(l, d) <==> IsComplete(d, Required(l))
  {
    if !AlreadyLoaded(l, d) {
      if !Truthy(d.explanation) { assert Missing(d, Explanation); }
      else if !Truthy(d.imageUrl) { assert Missing(d, Image); }
      else if !Truthy(d.audioBase64) { assert Missing(d, Audio); }
      else if d.sampleConversation.None? { assert Missing(d, Conversation); }
      else { assert Missing(d, Grammar); }
    }
  }

  /** One started generator call, with the arguments it receives. */
  datatype GenCall =
    | ExplainCall(term: string, definition: string, language: Language)
    | ImageCall(term: string, definition: string, language: Language)
    | AudioCall(text: string)
    | ConversationCall(term: string, definition: string, language: Language)
    | GrammarCall(term: string, definition: string, language: Language)

  function FieldOf(c: GenCall): Field {
    match c
    case ExplainCall(_, _, _) => Explanation
    case ImageCall(_, _, _) => Image
    case AudioCall(_) => Audio
    case ConversationCall(_, _, _) => Conversation
    case GrammarCall(_, _, _) => Grammar
  }

  /** The position of a field in the order the loaders start their calls. */
  function Rank(f: Field): nat {
    match f
    case Explanation => 0
    case Image => 1
    case Audio => 2
    case Conversation => 3
    case Grammar => 4
  }

  /** A call list asks for field `f`. */
  predicate Asks(calls: seq<GenCall>, f: Field) {
    exists i :: 0 <= i < |calls| && FieldOf(calls[i]) == f
  }

  /** The order in which the loaders test the fields and start their calls. */
  const FieldOrder: seq<Field> := [Explanation, Image, Audio, Conversation, Grammar]

  /** The generator call for one field. */
  function CallFor(f: Field, term: string, definition: string, lang: Language): (c: GenCall)
    ensures FieldOf(c) == f
    ensures CarriesArgs(c, term, definition, lang)
  {
    match f
    case Explanation => ExplainCall(term, definition, lang)
    case Image => ImageCall(term, definition, lang)
    case Audio => AudioCall(term)
    case Conversation => ConversationCall(term, definition, lang)
    case Grammar => GrammarCall(term, definition, lang)
  }

  /** A call carries the card's term and definition and the loader's language;
      audio is spoken from the term alone. */
  predicate CarriesArgs(c: GenCall, term: string, definition: string, lang: Language) {
    match c
    case AudioCall(text) => text == term
    case _ => c.term == term && c.definition == definition && c.language == lang
  }

  predicate RankIncreasing(order: seq<Field>) {
    forall i, j :: 0 <= i < j < |order| ==> Rank(order[i]) < Rank(order[j])
  }

  /** One `if (!field) promises.push(...)` per field of `order`. */
  function CallsIn(order: seq<Field>, req: set<Field>, term: string, definition: string, lang: Language): seq<GenCall>
    decreases |order|
  {
    if |order| == 0 then []
    else (if order[0] in req then [CallFor(order[0], term, definition, lang)] else [])
         + CallsIn(order[1..], req, term, definition, lang)
  }

  /** The call list asks for exactly the requested fields of the order. */
  lemma {:induction false} CallsInAsks(order: seq<Field>, req: set<Field>, term: string, definition: string, lang: Language)
    ensures forall f :: Asks(CallsIn(order, req, term, definition, lang), f) <==> f in req && f in order
    decreases |order|
  {
    if |order| > 0 {
      CallsInAsks(order[1..], req, term, definition, lang);
      var rest := CallsIn(order[1..], req, term, definition, lang);
      var head: seq<GenCall> := if order[0] in req then [CallFor(order[0], term, definition, lang)] else [];
      var r := head + rest;
      assert r == CallsIn(order, req, term, definition, lang);
      forall f | Asks(rest, f) ensures Asks(r, f) {
        var i :| 0 <= i < |rest| && FieldOf(rest[i]) == f;
        assert FieldOf(r[i + |head|]) == f;
      }
      forall f | Asks(r, f) ensures f in req && f in order {
        var i :| 0 <= i < |r| && FieldOf(r[i]) == f;
        if i >= |head| {
          assert r[i] == rest[i - |head|];
        }
      }
      if order[0] in req {
        assert FieldOf(r[0]) == order[0];
      }
      assert forall f :: f in order <==> f == order[0] || f in order[1..];
    }
  }

  /** Every call comes from the order and carries the loader's arguments. */
  lemma {:induction false} CallsInFromOrder(order: seq<Field>, req: set<Field>, term: string, definition: string, lang: Language)
    ensures forall i :: 0 <= i < |CallsIn(order, req, term, definition, lang)| ==>
      && FieldOf(CallsIn(order, req, term, definition, lang)[i]) in order
      && CarriesArgs(CallsIn(order, req, term, definition, lang)[i], term, definition, lang)
    decreases |order|
  {
    if |order| > 0 {
      CallsInFromOrder(order[1..], req, term, definition, lang);
      var rest := CallsIn(order[1..], req, term, definition, lang);
      var head: seq<GenCall> := if order[0] in req then [CallFor(order[0], term, definition, lang)] else [];
      var r := head + rest;
      assert r == CallsIn(order, req, term, definition, lang);
      forall i | 0 <= i < |r| ensures FieldOf(r[i]) in order && CarriesArgs(r[i], term, definition, lang) {
        if i >= |head| {
          assert r[i] == rest[i - |head|];
          assert FieldOf(rest[i - |head|]) in order[1..];
        } else {
          assert r[i] == CallFor(order[0], term, definition, lang);
        }
      }
    }
  }

  /** Calls of strictly increasing rank. */
  predicate IncreasingCalls(calls: seq<GenCall>) {
    forall i, j :: 0 <= i < j < |calls| ==> Rank(FieldOf(calls[i])) < Rank(FieldOf(calls[j]))
  }

  /** Helper: a call ranked below every call of an increasing list can be put
      in front of it. */
  lemma PrependIncreasing(c: GenCall, rest: seq<GenCall>)
    requires IncreasingCalls(rest)
    requires forall k :: 0 <= k < |rest| ==> Rank(FieldOf(c)) < Rank(FieldOf(rest[k]))
    ensures IncreasingCalls([c] + rest)
  {
    var r := [c] + rest;
    forall i, j | 0 <= i < j < |r| ensures Rank(FieldOf(r[i])) < Rank(FieldOf(r[j])) {
      assert r[j] == rest[j - 1];
      if i > 0 {
        assert r[i] == rest[i - 1];
      }
    }
  }

  /** An order of increasing rank gives calls of increasing rank: no field is
      asked for twice. */
  lemma {:induction false} CallsInRanks(order: seq<Field>, req: set<Field>, term: string, definition: string, lang: Language)
    requires RankIncreasing(order)
    ensures IncreasingCalls(CallsIn(order, req, term, definition, lang))
    decreases |order|
  {
    if |order| > 0 {
      var tail := order[1..];
      assert RankIncreasing(tail);
      CallsInRanks(tail, req, term, definition, lang);
      CallsInFromOrder(tail, req, term, definition, lang);
      var rest := CallsIn(tail, req, term, definition, lang);
      if order[0] in req {
        var c := CallFor(order[0], term, definition, lang);
        forall k | 0 <= k < |rest| ensures Rank(FieldOf(c)) < Rank(FieldOf(rest[k])) {
          var x := FieldOf(rest[k]);
          var m :| 0 <= m < |tail| && tail[m] == x;
          assert order[m + 1] == x;
        }
        PrependIncreasing(c, rest);
        assert CallsIn(order, req, term, definition, lang) == [c] + rest;
      } else {
        assert CallsIn(order, req, term, definition, lang) == rest;
      }
    }
  }

  /** The calls a load starts: exactly one per requested field, in the fixed
      order, each with the card's term and definition and the loader's language. */
  function StartCalls(req: set<Field>, term: string, definition: string, lang: Language): (r: seq<GenCall>)
    ensures forall f :: Asks(r, f) <==> f in req
    ensures forall i, j :: 0 <= i < j < |r| ==> Rank(FieldOf(r[i])) < Rank(FieldOf(r[j]))
    ensures forall i :: 0 <= i < |r| ==> CarriesArgs(r[i], term, definition, lang)
  {
    forall f ensures f in FieldOrder {
      assert FieldOrder[Rank(f)] == f;
    }
    CallsInAsks(FieldOrder, req, term, definition, lang);
    CallsInFromOrder(FieldOrder, req, term, definition, lang);
    CallsInRanks(FieldOrder, req, term, definition, lang);
    CallsIn(FieldOrder, req, term, definition, lang)
  }

  /** `Promise.all` resolves: every started generator resolved. */
  predicate Joins(req: set<Field>, g: GenResults) {
    && (Explanation in req ==> g.explanation.Success?)
    && (Image in req ==> g.image.Success?)
    && (Audio in req ==> g.audio.Success?)
    && (Conversation in req ==> g.conversation.Success?)
    && (Grammar in req ==> g.grammar.Success?)
  }

  /** The image a loader starts from: the cached one, its type defaulting to
      'image/png', when the cached image is truthy. */
  function CachedImage(d: VocabDetails): Option<ImagePart> {
    if Truthy(d.imageUrl) then Some(ImagePart(d.imageUrl.value, Or(d.imageMimeType, Some("image/png")).value))
    else None
  }

  /** The record written back: each requested field from its generator, every
      other field from the old record. */
  function Merge(d: VocabDetails, req: set<Field>, g: GenResults): (r: VocabDetails)
    requires Joins(req, g)
    ensures Explanation in req ==> r.explanation == Some(g.explanation.value)
    ensures Explanation !in req ==> r.explanation == d.explanation
    ensures Image in req && g.image.value.None? ==> r.imageUrl.None? && r.imageMimeType.None?
    ensures Image in req && g.image.value.Some? ==>
      r.imageUrl == Some(g.image.value.value.data) && r.imageMimeType == Some(g.image.value.value.mimeType)
    ensures Image !in req && Truthy(d.imageUrl) ==>
      r.imageUrl == d.imageUrl && r.imageMimeType == Or(d.imageMimeType, Some("image/png"))
    ensures Audio in req ==> r.audioBase64 == g.audio.value
    ensures Audio !in req ==> r.audioBase64 == d.audioBase64
    ensures Conversation in req ==> r.sampleConversation == Some(g.conversation.value)
    ensures Conversation !in req ==> r.sampleConversation == d.sampleConversation
    ensures Grammar in req ==> r.grammar == Some(g.grammar.value)
    ensures Grammar !in req ==> r.grammar == d.grammar
  {
    var image := if Image in req then g.image.value else CachedImage(d);
    VocabDetails(
      if Explanation in req then Some(g.explanation.value) else d.explanation,
      if image.Some? then Some(image.value.data) else None,
      if image.Some? then Some(image.value.mimeType) else None,
      if Audio in req then g.audio.value else d.audioBase64,
      if Conversation in req then Some(g.conversation.value) else d.sampleConversation,
      if Grammar in req then Some(g.grammar.value) else d.grammar)
  }

  /** The loading flag and error message of the view. */
  datatype ViewState = ViewState(isLoading: bool, error: Option<string>)

  /** Everything one load does: the calls it starts, the single write-back it
      sends (if any) and the view state it leaves. */
  datatype LoadEffect = LoadEffect(calls: seq<GenCall>, write: Option<VocabDetails>, view: ViewState)

  /** `loadDetails`. The generators settle as `g` says; `mounted` tells whether
      the view is still mounted when the join settles (teardown clears it).
      Every call carries the card's term and definition, and the language the
      loader passes: the page's target language, or the modal's card
      language. */
  function LoadDetails(l: Loader, card: VocabCard, view: ViewState, g: GenResults, mounted: bool): (e: LoadEffect)
    ensures var d := DetailsOf(card);
      && (e.calls == [] <==> IsComplete(d, Required(l)))
      && (IsComplete(d, Required(l)) ==> e == LoadEffect([], None, view))
      && (forall f :: Asks(e.calls, f) <==> f in Required(l) && Missing(d, f))
      && (e.write.Some? <==> !IsComplete(d, Required(l)) && mounted && Joins(Requested(d, Required(l)), g))
      && (!IsComplete(d, Required(l)) && mounted && !Joins(Requested(d, Required(l)), g) ==>
            e.view == ViewState(false, Some(FailureMessage(l))))
      && (!mounted ==> e.write.None? && e.view.error in {view.error, None})
    ensures forall i :: 0 <= i < |e.calls| ==>
      CarriesArgs(e.calls[i], card.term, card.definition, CallLanguage(l, card))
  {
    var d := DetailsOf(card);
    AlreadyLoadedIsCompleteness(l, d);
    if AlreadyLoaded(l, d) then LoadEffect([], None, view)
    else
      var req := Requested(d, Required(l));
      var calls := StartCalls(req, card.term, card.definition, CallLanguage(l, card));
      assert Asks(calls, if Missing(d, Explanation) then Explanation else if Missing(d, Image) then Image
        else if Missing(d, Audio) then Audio else if Missing(d, Conversation) then Conversation else Grammar);
      if !mounted then LoadEffect(calls, None, ViewState(true, None))
      else if Joins(req, g) then LoadEffect(calls, Some(Merge(d, req, g)), ViewState(false, None))
      else LoadEffect(calls, None, ViewState(false, Some(FailureMessage(l))))
  }

  /** The written record of a load. */
  function Written(l: Loader, card: VocabCard, g: GenResults): VocabDetails
    requires Joins(Requested(DetailsOf(card), Required(l)), g)
  {
    Merge(DetailsOf(card), Requested(DetailsOf(card), Required(l)), g)
  }

  /** A write-back is the merged record, and it reaches the store as the new
      `details` of the loaded card only. */
  lemma WriteBackIsMerge(l: Loader, cards: seq<VocabCard>, i: nat, view: ViewState, g: GenResults)
    requires i < |cards|
    requires LoadDetails(l, cards[i], view, g, true).write.Some?
    ensures var w := LoadDetails(l, cards[i], view, g, true).write.value;
      var cards2 := Store.UpdateVocabItem(cards, cards[i].id, Store.DetailsPatch(w));
      && w == Written(l, cards[i], g)
      && DetailsOf(cards2[i]) == w
      && forall k :: 0 <= k < |cards| && cards[k].id != cards[i].id ==> cards2[k] == cards[k]
  {
  }

  /** The generators delivered a non-empty image and audio clip. */
  predicate DeliversMedia(g: GenResults) {
    && g.image.Success? && g.image.value.Some? && g.image.value.value.data != ""
    && g.audio.Success? && Truthy(g.audio.value)
  }

  /** After a write-back, a later load of the updated card asks again at most
      for the image and the audio (the generators may have given none), and for
      nothing at all when they delivered both: enrichment settles after one
      successful load. */
  lemma SecondLoadRetriesOnlyMedia(l: Loader, cards: seq<VocabCard>, i: nat, view: ViewState, g: GenResults,
                                   view2: ViewState, g2: GenResults, mounted2: bool)
    requires i < |cards|
    requires WellFormed(g)
    requires LoadDetails(l, cards[i], view, g, true).write.Some?
    ensures var w := LoadDetails(l, cards[i], view, g, true).write.value;
      var cards2 := Store.UpdateVocabItem(cards, cards[i].id, Store.DetailsPatch(w));
      var e2 := LoadDetails(l, cards2[i], view2, g2, mounted2);
      && (forall f :: Asks(e2.calls, f) ==> f == Image || f == Audio)
      && (DeliversMedia(g) ==> e2.calls == [] && e2.write.None?)
  {
    var d := DetailsOf(cards[i]);
    var req := Requested(d, Required(l));
    var w := LoadDetails(l, cards[i], view, g, true).write.value;
    WriteBackIsMerge(l, cards, i, view, g);
    assert !Missing(w, Explanation);
    assert Conversation in Required(l) ==> !Missing(w, Conversation);
    assert Grammar in Required(l) ==> !Missing(w, Grammar);
    if DeliversMedia(g) {
      assert !Missing(w, Image) && !Missing(w, Audio);
      assert IsComplete(w, Required(l));
    }
  }

  /** The end-to-end run: a card without details on the page, generators with a
      key whose replies include an image and an audio clip. The first load starts
      all five calls and writes back; the next load of the updated card starts none. */
  lemma EnrichNewCardThenSettle(lang: Language, cards: seq<VocabCard>, i: nat, view: ViewState,
                                apiKey: Option<string>, replies: Replies, view2: ViewState, g2: GenResults)
    requires i < |cards| && cards[i].details.None?
    requires Truthy(apiKey)
    requires replies.image.Replied? && FirstInline(replies.image.value).Some?
    requires FirstInline(replies.image.value).value.data != ""
    requires replies.audio.Replied? && Truthy(replies.audio.value)
    ensures var g := RunGenerators(apiKey, replies);
      var e := LoadDetails(DetailPage(lang), cards[i], view, g, true);
      && |e.calls| == 5
      && e.write.Some?
      && var cards2 := Store.UpdateVocabItem(cards, cards[i].id, Store.DetailsPatch(e.write.value));
         LoadDetails(DetailPage(lang), cards2[i], view2, g2, true).calls == []
  {
    var g := RunGenerators(apiKey, replies);
    GeneratorsAllOrNothing(apiKey, replies);
    var d := DetailsOf(cards[i]);
    assert d == NoDetails;
    var req := Requested(d, AllFields);
    assert req == AllFields by {
      assert Missing(d, Explanation) && Missing(d, Image) && Missing(d, Audio);
      assert Missing(d, Conversation) && Missing(d, Grammar);
    }
    var e := LoadDetails(DetailPage(lang), cards[i], view, g, true);
    assert e.calls == CallsIn(FieldOrder, AllFields, cards[i].term, cards[i].definition, lang);
    CallsInAll(FieldOrder, AllFields, cards[i].term, cards[i].definition, lang);
    assert WellFormed(g) && DeliversMedia(g);
    SecondLoadRetriesOnlyMedia(DetailPage(lang), cards, i, view, g, view2, g2, true);
  }

  /** Helper: when every field of the order is requested, there is one call
      per field. */
  lemma {:induction false} CallsInAll(order: seq<Field>, req: set<Field>, term: string, definition: string, lang: Language)
    requires forall f :: f in order ==> f in req
    ensures |CallsIn(order, req, term, definition, lang)| == |order|
    decreases |order|
  {
    if |order| > 0 {
      assert order[0] in req;
      assert forall f :: f in order[1..] ==> f in order;
      CallsInAll(order[1..], req, term, definition, lang);
    }
  }

  /** A page card missing only its grammar (the other four present, even as
      empty lists): one grammar call, and the written record equals the old
      one except for the grammar and the defaulted image type. */
  lemma MissingOnlyGrammar(lang: Language, card: VocabCard, view: ViewState, g: GenResults)
    requires var d := DetailsOf(card);
      Truthy(d.explanation) && Truthy(d.imageUrl) && Truthy(d.audioBase64)
      && d.sampleConversation.Some? && d.grammar.None?
    requires g.grammar.Success?
    ensures var d := DetailsOf(card);
      var e := LoadDetails(DetailPage(lang), card, view, g, true);
      && e.calls == [GrammarCall(card.term, card.definition, lang)]
      && e.write == Some(d.(grammar := Some(g.grammar.value), imageMimeType := Or(d.imageMimeType, Some("image/png"))))
  {
    var d := DetailsOf(card);
    var req := Requested(d, AllFields);
    assert req == {Grammar} by {
      assert Missing(d, Grammar);
      forall f | f in req ensures f == Grammar { }
    }
    var e := LoadDetails(DetailPage(lang), card, view, g, true);
    assert Asks(e.calls, Grammar);
    assert CarriesArgs(e.calls[0], card.term, card.definition, lang);
  }

  /** Media are not persisted, so a card reloaded from storage has its image and
      audio asked for again, and nothing else beyond what it already lacked. */
  lemma ReloadRefetchesMedia(l: Loader, d: VocabDetails)
    ensures Requested(Store.StripMedia(d), Required(l)) == Requested(d, Required(l)) + {Image, Audio}
  {
    var s := Store.StripMedia(d);
    assert Missing(s, Image) && Missing(s, Audio);
    forall f ensures Missing(s, f) <==> Missing(d, f) || f == Image || f == Audio { }
  }
}
