/** The card list owned by the application root: shallow-merge update, delete,
    prepend-add, the persisted projection without media, the legacy-field
    migration on load, and reset. */
module Store {
  import opened Wrappers
  import opened Types
  import Seqs

  /** A `Partial<VocabCard>`: each present field overwrites the card's. */
  datatype CardPatch = CardPatch(
    term: Option<string>,
    definition: Option<string>,
    language: Option<Language>,
    category: Option<string>,
    dateAdded: Option<string>,
    details: Option<VocabDetails>,
    studyState: Option<StudyState>)

  const EmptyPatch: CardPatch := CardPatch(None, None, None, None, None, None, None)

  /** The `{ details }` update a detail loader sends. */
  function DetailsPatch(d: VocabDetails): CardPatch {
    EmptyPatch.(details := Some(d))
  }

  /** `{ ...item, ...updates }`. */
  function ApplyPatch(c: VocabCard, p: CardPatch): VocabCard {
    VocabCard(
      c.id,
      p.term.GetOr(c.term),
      p.definition.GetOr(c.definition),
      p.language.GetOr(c.language),
      p.category.GetOr(c.category),
      p.dateAdded.GetOr(c.dateAdded),
      if p.details.Some? then p.details else c.details,
      if p.studyState.Some? then p.studyState else c.studyState)
  }

  /** `updateVocabItem`: every card with the id is shallow-merged with the
      patch; every other card, the length and the order are kept. A patched
      `details` replaces the old record wholesale. */
  function UpdateVocabItem(cards: seq<VocabCard>, id: string, p: CardPatch): (r: seq<VocabCard>)
    ensures |r| == |cards|
    ensures forall i :: 0 <= i < |r| ==> r[i].id == cards[i].id
    ensures forall i :: 0 <= i < |r| && cards[i].id != id ==> r[i] == cards[i]
    ensures forall i :: 0 <= i < |r| && cards[i].id == id ==>
      && (p.details.Some? ==> r[i].details == p.details)
      && (p.details.None? ==> r[i].details == cards[i].details)
      && (p.studyState.Some? ==> r[i].studyState == p.studyState)
      && (p.studyState.None? ==> r[i].studyState == cards[i].studyState)
      && (p.category.Some? ==> r[i].category == p.category.value)
      && (p.category.None? ==> r[i].category == cards[i].category)
      && r[i].term == p.term.GetOr(cards[i].term)
      && r[i].definition == p.definition.GetOr(cards[i].definition)
      && r[i].language == p.language.GetOr(cards[i].language)
      && r[i].dateAdded == p.dateAdded.GetOr(cards[i].dateAdded)
  {
    seq(|cards|, i requires 0 <= i < |cards| =>
      if cards[i].id == id then ApplyPatch(cards[i], p) else cards[i])
  }

  /** Two updates of the same card: the later one wins on every field it sets,
      so a second detail write-back replaces the first one's record entirely
      (there is no per-card lock). */
  lemma LastWriteWins(cards: seq<VocabCard>, id: string, d1: VocabDetails, d2: VocabDetails)
    ensures UpdateVocabItem(UpdateVocabItem(cards, id, DetailsPatch(d1)), id, DetailsPatch(d2))
         == UpdateVocabItem(cards, id, DetailsPatch(d2))
  {
    var a := UpdateVocabItem(UpdateVocabItem(cards, id, DetailsPatch(d1)), id, DetailsPatch(d2));
    var b := UpdateVocabItem(cards, id, DetailsPatch(d2));
    assert forall i :: 0 <= i < |a| ==> a[i] == b[i];
  }

  /** Updating an id that no card carries leaves the list as it was. */
  lemma UpdateUnknownId(cards: seq<VocabCard>, id: string, p: CardPatch)
    requires forall i :: 0 <= i < |cards| ==> cards[i].id != id
    ensures UpdateVocabItem(cards, id, p) == cards
  {
  }

  /** The filter predicates of a delete. */
  function WithId(id: string): VocabCard -> bool {
    (c: VocabCard) => c.id == id
  }

  function WithoutId(id: string): VocabCard -> bool {
    (c: VocabCard) => c.id != id
  }

  /** `deleteVocabItem`: keeps, in order, exactly the cards with another id. */
  function DeleteVocabItem(cards: seq<VocabCard>, id: string): (r: seq<VocabCard>)
    ensures forall c :: c in r <==> c in cards && c.id != id
    ensures Seqs.IsSubsequence(r, cards)
    ensures |r| == |cards| - |Seqs.Filter(cards, WithId(id))|
  {
    Seqs.FilterIsSubsequence(cards, WithoutId(id));
    FilterSplitsCount(cards, id);
    Seqs.Filter(cards, WithoutId(id))
  }

  /** Every card is either kept or dropped by a delete. */
  lemma {:induction false} FilterSplitsCount(cards: seq<VocabCard>, id: string)
    ensures |Seqs.Filter(cards, WithoutId(id))| + |Seqs.Filter(cards, WithId(id))| == |cards|
    decreases |cards|
  {
    if |cards| > 0 {
      FilterSplitsCount(cards[1..], id);
    }
  }

  /** The application state the root component holds. */
  datatype AppState = AppState(cards: seq<VocabCard>, targetLanguage: Option<Language>)

  /** The card an import item becomes. */
  function NewCard(item: ParsedVocabItem, id: string, stamp: string, lang: Language): VocabCard {
    VocabCard(id, item.term, item.definition, lang, item.category, stamp, None, None)
  }

  /** `addVocabItems`: without a target language nothing happens; otherwise the
      items, in input order, become cards (fresh id, timestamp, the target
      language, no details or study state) placed before every existing card.
      The fresh ids and timestamps are inputs. */
  function AddVocabItems(s: AppState, items: seq<ParsedVocabItem>, ids: seq<string>, stamps: seq<string>): (r: AppState)
    requires |ids| == |items| && |stamps| == |items|
    ensures r.targetLanguage == s.targetLanguage
    ensures s.targetLanguage.None? ==> r == s
    ensures s.targetLanguage.Some? ==>
      && |r.cards| == |items| + |s.cards|
      && r.cards[|items|..] == s.cards
      && forall i :: 0 <= i < |items| ==>
           && r.cards[i].id == ids[i]
           && r.cards[i].term == items[i].term
           && r.cards[i].definition == items[i].definition
           && r.cards[i].category == items[i].category
           && r.cards[i].dateAdded == stamps[i]
           && r.cards[i].language == s.targetLanguage.value
           && r.cards[i].details.None? && r.cards[i].studyState.None?
  {
    match s.targetLanguage
    case None => s
    case Some(lang) =>
      var added := seq(|items|, i requires 0 <= i < |items| => NewCard(items[i], ids[i], stamps[i], lang));
      AppState(added + s.cards, s.targetLanguage)
  }

  /** The cards the application seeds an empty store with; their timestamp is
      the time the list was created. */
  function Seed(now: string): seq<VocabCard> {
    [ VocabCard("1", "안녕하세요", "Hello / Good morning", Korean, "Greetings", now, None, None),
      VocabCard("2", "맛있어요", "It is delicious", Korean, "Food", now, None, None),
      VocabCard("3", "猫", "Cat", Japanese, "Animals", now, None, None) ]
  }

  /** `resetData`: the seed list and no target language. */
  function ResetData(seedTime: string): (r: AppState)
    ensures r.targetLanguage.None?
    ensures |r.cards| == 3
  {
    AppState(Seed(seedTime), None)
  }

  /** After a reset no import can add cards until a language is chosen again. */
  lemma AddAfterResetIsNoOp(seedTime: string, items: seq<ParsedVocabItem>, ids: seq<string>, stamps: seq<string>)
    requires |ids| == |items| && |stamps| == |items|
    ensures AddVocabItems(ResetData(seedTime), items, ids, stamps) == ResetData(seedTime)
  {
  }

  /** The details kept in storage: media (image, its type, audio) are dropped. */
  function StripMedia(d: VocabDetails): (r: VocabDetails)
    ensures r.imageUrl.None? && r.imageMimeType.None? && r.audioBase64.None?
    ensures r.explanation == d.explanation
    ensures r.sampleConversation == d.sampleConversation
    ensures r.grammar == d.grammar
  {
    VocabDetails(d.explanation, None, None, None, d.sampleConversation, d.grammar)
  }

  /** The persisted copy of a card: details stripped of media, absent details
      stay absent, every other field kept. */
  function PersistCard(c: VocabCard): (r: VocabCard)
    ensures r.details.None? <==> c.details.None?
    ensures c.details.Some? ==> r.details == Some(StripMedia(c.details.value))
    ensures r.(details := c.details) == c
  {
    c.(details := if c.details.Some? then Some(StripMedia(c.details.value)) else None)
  }

  function Persisted(cards: seq<VocabCard>): (r: seq<VocabCard>)
    ensures |r| == |cards|
    ensures forall i :: 0 <= i < |cards| ==> r[i] == PersistCard(cards[i])
  {
    seq(|cards|, i requires 0 <= i < |cards| => PersistCard(cards[i]))
  }

  /** Persisting what was persisted changes nothing. */
  lemma PersistIdempotent(cards: seq<VocabCard>)
    ensures Persisted(Persisted(cards)) == Persisted(cards)
  {
    assert forall i :: 0 <= i < |cards| ==> PersistCard(PersistCard(cards[i])) == PersistCard(cards[i]);
  }

  /** A card as read back from storage: any JSON object, possibly of the legacy
      shape that had `korean` / `english` instead of `term` / `definition`. */
  datatype StoredCard = StoredCard(
    id: string,
    term: Option<string>,
    definition: Option<string>,
    language: Option<Language>,
    category: string,
    dateAdded: string,
    details: Option<VocabDetails>,
    studyState: Option<StudyState>,
    korean: Option<string>,
    english: Option<string>)

  /** The JSON form of a current card. */
  function ToStored(c: VocabCard): StoredCard {
    StoredCard(c.id, Some(c.term), Some(c.definition), Some(c.language), c.category, c.dateAdded,
               c.details, c.studyState, None, None)
  }

  /** The migration is triggered by a truthy `korean` on the first stored card. */
  predicate IsLegacyList(parsed: seq<StoredCard>) {
    |parsed| > 0 && Truthy(parsed[0].korean)
  }

  /** One card of a legacy list: `korean || term`, `english || definition`,
      `language || 'Korean'`; the legacy fields themselves are kept. */
  function MigrateCard(p: StoredCard): (r: StoredCard)
    ensures Truthy(p.korean) ==> r.term == p.korean
    ensures !Truthy(p.korean) ==> r.term == p.term
    ensures Truthy(p.english) ==> r.definition == p.english
    ensures !Truthy(p.english) ==> r.definition == p.definition
    ensures r.language == Some(p.language.GetOr(Korean))
    ensures r.(term := p.term, definition := p.definition, language := p.language) == p
  {
    p.(term := Or(p.korean, p.term), definition := Or(p.english, p.definition),
       language := Some(p.language.GetOr(Korean)))
  }

  /** The load-time migration: a legacy list has every card migrated, any other
      list is used as stored. */
  function Migrate(parsed: seq<StoredCard>): (r: seq<StoredCard>)
    ensures |r| == |parsed|
    ensures !IsLegacyList(parsed) ==> r == parsed
    ensures IsLegacyList(parsed) ==> forall i :: 0 <= i < |parsed| ==> r[i] == MigrateCard(parsed[i])
  {
    if IsLegacyList(parsed) then seq(|parsed|, i requires 0 <= i < |parsed| => MigrateCard(parsed[i]))
    else parsed
  }

  /** The legacy fields survive the migration and its persistence, so every
      later load migrates again; this is harmless because migrating a migrated
      list changes nothing. */
  lemma MigrateIdempotent(parsed: seq<StoredCard>)
    ensures Migrate(Migrate(parsed)) == Migrate(parsed)
  {
    var m := Migrate(parsed);
    if IsLegacyList(parsed) {
      assert m[0].korean == parsed[0].korean;
      forall i | 0 <= i < |parsed|
        ensures MigrateCard(m[i]) == m[i]
      {
      }
    }
  }

  /** The initial card list: the stored list (migrated), or the seed when
      nothing is stored. */
  function LoadCards(saved: Option<seq<StoredCard>>, seedTime: string): seq<StoredCard> {
    match saved
    case Some(parsed) => Migrate(parsed)
    case None => seq(3, i requires 0 <= i < 3 => ToStored(Seed(seedTime)[i]))
  }

  function SaveCards(cards: seq<VocabCard>): (r: seq<StoredCard>)
    ensures |r| == |cards|
  {
    seq(|cards|, i requires 0 <= i < |cards| => ToStored(PersistCard(cards[i])))
  }

  /** Saving and loading again gives back every card as it was, except for the
      dropped media. This covers cards that never had the legacy `korean` /
      `english` fields, so no migration runs on the reload. A card migrated
      from a legacy list keeps those fields through the spread copy and is
      migrated again on every load (see `MigrateIdempotent`). */
  lemma SaveLoadRoundTrip(cards: seq<VocabCard>, seedTime: string)
    ensures LoadCards(Some(SaveCards(cards)), seedTime) == SaveCards(cards)
    ensures forall i :: 0 <= i < |cards| ==>
      SaveCards(cards)[i] == ToStored(cards[i]).(details := PersistCard(cards[i]).details)
  {
  }
}
