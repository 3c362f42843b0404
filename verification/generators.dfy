/** The content generators of the Gemini service, reduced to what the rest of
    the application can observe: the client precondition, and which value each
    generator settles with for a given provider reply. Prompts, models and the
    JSON schema of a reply are not modelled; a reply is given as already parsed. */
module Generators {
  import opened Wrappers
  import opened Types

  const MissingKeyError: string := "API Key not found in environment."
  const NoExplanation: string := "No explanation available."
  const ExplanationFailed: string := "Could not generate explanation."

  /** A client is the API key it was built with. */
  type Client = string

  /** `getClient`: throws unless an API key is configured (a non-empty string). */
  function GetClient(apiKey: Option<string>): (r: Result<Client, string>)
    ensures r.Success? <==> Truthy(apiKey)
    ensures r.Success? ==> r.value == apiKey.value
    ensures r.Failure? ==> r.error == MissingKeyError
  {
    if Truthy(apiKey) then Success(apiKey.value) else Failure(MissingKeyError)
  }

  /** What the provider call inside a generator's `try` produced: a (parsed)
      reply, or a thrown error (network, provider or JSON parse failure). */
  datatype Reply<+T> = Replied(value: T) | Threw

  /** One part of an image-model reply; only parts carrying inline data matter. */
  datatype ImagePart = ImagePart(data: string, mimeType: string)
  datatype Part = Part(inlineData: Option<ImagePart>)

  /** `generateVocabExplanation`: the reply text (`None` when it is missing),
      a placeholder for an empty reply, another for a thrown error. */
  function GenerateExplanation(apiKey: Option<string>, reply: Reply<Option<string>>): (r: Result<string, string>)
    ensures r.Failure? <==> !Truthy(apiKey)
    ensures r.Failure? ==> r.error == MissingKeyError
    ensures r.Success? ==> r.value != ""
    ensures r.Success? && reply.Replied? && Truthy(reply.value) ==> r.value == reply.value.value
    ensures r.Success? && reply.Replied? && !Truthy(reply.value) ==> r.value == NoExplanation
    ensures r.Success? && reply.Threw? ==> r.value == ExplanationFailed
  {
    match GetClient(apiKey)
    case Failure(e) => Failure(e)
    case Success(_) =>
      match reply
      case Replied(text) => Success(Or(text, Some(NoExplanation)).value)
      case Threw => Success(ExplanationFailed)
  }

  /** The first part of a reply carrying inline image data. */
  function FirstInline(parts: seq<Part>): (r: Option<ImagePart>)
    ensures r.None? <==> forall i :: 0 <= i < |parts| ==> parts[i].inlineData.None?
    ensures r.Some? ==> exists i :: 0 <= i < |parts| && parts[i].inlineData == r
                                 && (forall j :: 0 <= j < i ==> parts[j].inlineData.None?)
  {
    if |parts| == 0 then None
    else if parts[0].inlineData.Some? then parts[0].inlineData
    else
      var r := FirstInline(parts[1..]);
      assert forall j :: 1 <= j < |parts| ==> parts[j] == parts[1..][j - 1];
      r
  }

  /** `generateVocabImage`: the first inline image of the first candidate (the
      parts list is empty when the reply has none), or `undefined`. */
  function GenerateImage(apiKey: Option<string>, reply: Reply<seq<Part>>): (r: Result<Option<ImagePart>, string>)
    ensures r.Failure? <==> !Truthy(apiKey)
    ensures r.Success? && reply.Threw? ==> r.value.None?
    ensures r.Success? && reply.Replied? ==> r.value == FirstInline(reply.value)
  {
    match GetClient(apiKey)
    case Failure(e) => Failure(e)
    case Success(_) =>
      match reply
      case Replied(parts) => Success(FirstInline(parts))
      case Threw => Success(None)
  }

  /** `generateVocabAudio`: the inline data of the first part, which may be
      missing, or `undefined` on a thrown error. */
  function GenerateAudio(apiKey: Option<string>, reply: Reply<Option<string>>): (r: Result<Option<string>, string>)
    ensures r.Failure? <==> !Truthy(apiKey)
    ensures r.Success? && reply.Threw? ==> r.value.None?
    ensures r.Success? && reply.Replied? ==> r.value == reply.value
  {
    match GetClient(apiKey)
    case Failure(e) => Failure(e)
    case Success(_) =>
      match reply
      case Replied(data) => Success(data)
      case Threw => Success(None)
  }

  /** The shared shape of the two list generators (`generateSampleConversation`,
      `generateGrammarDetails`): an empty reply text (`None`) and any thrown
      error both settle with the empty list. */
  function GenerateList<T>(apiKey: Option<string>, reply: Reply<Option<seq<T>>>): (r: Result<seq<T>, string>)
    ensures r.Failure? <==> !Truthy(apiKey)
    ensures r.Success? && r.value != [] ==> reply == Replied(Some(r.value))
    ensures r.Success? && reply.Replied? && reply.value.Some? ==> r.value == reply.value.value
  {
    match GetClient(apiKey)
    case Failure(e) => Failure(e)
    case Success(_) =>
      match reply
      case Replied(Some(items)) => Success(items)
      case Replied(None) => Success([])
      case Threw => Success([])
  }

  function GenerateConversation(apiKey: Option<string>, reply: Reply<Option<seq<ConversationLine>>>): Result<seq<ConversationLine>, string> {
    GenerateList(apiKey, reply)
  }

  function GenerateGrammar(apiKey: Option<string>, reply: Reply<Option<seq<GrammarInfo>>>): Result<seq<GrammarInfo>, string> {
    GenerateList(apiKey, reply)
  }

  /** `parseNotesWithGemini`: unlike the detail generators it rethrows a provider
      error; an empty reply text yields no items. */
  function ParseNotes(apiKey: Option<string>, reply: Reply<Option<seq<ParsedVocabItem>>>): (r: Result<seq<ParsedVocabItem>, string>)
    ensures r.Failure? <==> !Truthy(apiKey) || reply.Threw?
    ensures r.Success? ==> reply.Replied? && r.value == reply.value.GetOr([])
  {
    match GetClient(apiKey)
    case Failure(e) => Failure(e)
    case Success(_) =>
      match reply
      case Replied(items) => Success(items.GetOr([]))
      case Threw => Failure("provider error")
  }

  /** The provider replies the five detail generators would see. */
  datatype Replies = Replies(
    explanation: Reply<Option<string>>,
    image: Reply<seq<Part>>,
    audio: Reply<Option<string>>,
    conversation: Reply<Option<seq<ConversationLine>>>,
    grammar: Reply<Option<seq<GrammarInfo>>>)

  /** How each of the five detail generators settles when called. */
  datatype GenResults = GenResults(
    explanation: Result<string, string>,
    image: Result<Option<ImagePart>, string>,
    audio: Result<Option<string>, string>,
    conversation: Result<seq<ConversationLine>, string>,
    grammar: Result<seq<GrammarInfo>, string>)

  function RunGenerators(apiKey: Option<string>, replies: Replies): GenResults {
    GenResults(
      GenerateExplanation(apiKey, replies.explanation),
      GenerateImage(apiKey, replies.image),
      GenerateAudio(apiKey, replies.audio),
      GenerateConversation(apiKey, replies.conversation),
      GenerateGrammar(apiKey, replies.grammar))
  }

  /** What every generator guarantees about its settled value, whatever the
      provider does: the explanation is never empty. */
  predicate WellFormed(g: GenResults) {
    g.explanation.Success? ==> g.explanation.value != ""
  }

  /** All five generators settle alike: with an API key none rejects, without
      one every one rejects with the missing-key error; and what they yield is
      well formed. */
  lemma GeneratorsAllOrNothing(apiKey: Option<string>, replies: Replies)
    ensures var g := RunGenerators(apiKey, replies);
      && WellFormed(g)
      && (Truthy(apiKey) <==> g.explanation.Success?)
      && (Truthy(apiKey) <==> g.image.Success?)
      && (Truthy(apiKey) <==> g.audio.Success?)
      && (Truthy(apiKey) <==> g.conversation.Success?)
      && (Truthy(apiKey) <==> g.grammar.Success?)
  {
  }
}
