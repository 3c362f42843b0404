/** The application's records: a vocabulary card, its cached detail fields,
    study progress, parsed import items and linked document sources. */
module Types {
  import opened Wrappers

  /** The two supported target languages. */
  datatype Language = Korean | Japanese

  /** The name a language is shown and prompted with. */
  function LanguageName(l: Language): string {
    match l
    case Korean => "Korean"
    case Japanese => "Japanese"
  }

  datatype Status = New | Learning | Review | Mastered

  datatype StudyState = StudyState(lastReviewed: Option<string>, status: Status, reviewCount: nat)

  datatype GrammarInfo = GrammarInfo(tense: string, conjugation: string, example: string)

  datatype ConversationLine = ConversationLine(speaker: string, term: string, definition: string)

  /** The per-card cache of generated content. Every field may be absent; the
      two list fields may also be present but empty. */
  datatype VocabDetails = VocabDetails(
    explanation: Option<string>,
    imageUrl: Option<string>,
    imageMimeType: Option<string>,
    audioBase64: Option<string>,
    sampleConversation: Option<seq<ConversationLine>>,
    grammar: Option<seq<GrammarInfo>>)

  /** What `card.details?.field` reads when a card has no details at all. */
  const NoDetails: VocabDetails := VocabDetails(None, None, None, None, None, None)

  datatype VocabCard = VocabCard(
    id: string,
    term: string,
    definition: string,
    language: Language,
    category: string,
    dateAdded: string,
    details: Option<VocabDetails>,
    studyState: Option<StudyState>)

  /** The details a card's `details?.` reads see. */
  function DetailsOf(c: VocabCard): VocabDetails {
    c.details.GetOr(NoDetails)
  }

  datatype ParsedVocabItem = ParsedVocabItem(term: string, definition: string, category: string)

  datatype DocSource = DocSource(id: string, name: string, url: string, lastSynced: Option<string>)

  /** JavaScript truthiness of an optional string: present and non-empty. */
  predicate Truthy(s: Option<string>) {
    s.Some? && s.value != ""
  }

  /** JavaScript `a || b` on optional strings. */
  function Or(a: Option<string>, b: Option<string>): (r: Option<string>)
    ensures Truthy(a) ==> r == a
    ensures !Truthy(a) ==> r == b
    ensures Truthy(r) <==> Truthy(a) || Truthy(b)
  {
    if Truthy(a) then a else b
  }
}
