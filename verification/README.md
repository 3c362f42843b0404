# Lannote vocabulary app: a Dafny model of its core logic

Lannote is a browser app for learning Korean or Japanese vocabulary. It imports
words from pasted notes or linked Google Docs, keeps a card library in local
storage, enriches each card with generated content (explanation, doodle image,
speech audio, sample conversation, grammar table), lets the learner record
their own pronunciation, and runs flashcard study sessions.

This project models the sequential logic of that app as pure functions over
immutable datatypes and proves properties about it:

- `Wrappers`, `Seqs`, `Types` hold the optional and result types, the
  order-preserving filter, subsequence and substring helpers, and the card
  records with JavaScript truthiness of optional strings.
- `Generators` (services/geminiService.ts) covers the API-key precondition and
  the value each content generator settles with for a given provider reply.
  The provider itself is abstract.
- `Pcm` (services/geminiService.ts) covers the byte copy after `atob`, and the
  16-bit PCM decoder: padding, frame count, de-interleaving and scaling.
- `Enrichment` (pages/VocabDetailPage.tsx, components/VocabDetailModal.tsx)
  covers the detail loader. It chooses which fields to fetch, starts one
  generator per missing field, joins them all-or-nothing, and makes a single
  merged write-back that teardown suppresses.
- `Practice` (recording.dfy; same two files) is the recorder state machine for
  both views. Browser events are its inputs: the record button going down and
  up, the microphone answer (which comes later), data chunks, the recorder's
  stop event and teardown.
- `Store` (App.tsx) covers update, delete and prepend-add on the card list, the
  media-free persisted copy, the legacy-field migration and reset.
- `Study` (pages/StudyPage.tsx) covers the counters, deck selection and
  shuffle, grading, swipe gestures, and the session page as a state machine
  whose pending `setTimeout` steps carry the index their closure captured.
  Each step exists as written and corrected (`Study.Version`).
- `Library` (pages/LibraryPage.tsx) covers the category chips and the
  search/category filter.
- `Parser` (pages/ParserPage.tsx) covers note processing with sync
  de-duplication, Google-Doc export URLs, the sign-in-page check, and edits to
  the document and review lists.

Behaviour of the code that the model keeps, though a reader might expect
otherwise:

- **Starting a recording twice.** A second start while recording is not
  rejected. The code overwrites the recorder reference and acquires a second
  microphone stream. `Practice.RestartLeaksStream` shows that one stream stays
  live.
- **Microphone release on teardown.** Teardown only stops a recorder that is
  still recording. It never stops the stream's tracks. See
  `Practice.TeardownKeepsMicrophone`.
- **Hold to record.** The record button starts on press and stops on release, but the microphone is granted asynchronously. A release before the grant stops nothing, and the recorder then keeps recording with the button up (`Practice.ReleaseBeforeGrantKeepsRecording`). A grant after the view is gone still starts a recorder and holds the microphone (`Practice.GrantAfterTeardownLeaks`).
- **Unsupported recording type.** On the detail page, a recorder that cannot
  be built for the chosen type shows the same "Microphone access denied"
  message as a permission denial. This happens when none of the page's types
  is supported, since the constructor rejects an unsupported explicit type.
- **Media after enrichment.** One load of a new card does not always leave
  all five fields present. The image and audio generators may resolve to
  nothing, and those fields then stay absent. So
  `Enrichment.EnrichNewCardThenSettle` promises zero calls on the second load
  only when media were delivered. Otherwise
  `Enrichment.SecondLoadRetriesOnlyMedia` says what is asked again.

## Model

| member | source | states |
|---|---|---|
| Generators.GetClient | services/geminiService.ts:4-10 | A client exists iff the API key is a non-empty string; otherwise the call fails with "API Key not found in environment." |
| Generators.GenerateExplanation | services/geminiService.ts:61-73 | Rejects only without an API key. Otherwise it never yields empty text: the reply text, "No explanation available." for an empty reply, or "Could not generate explanation." when the call threw |
| Generators.FirstInline | services/geminiService.ts:85-93 | None iff no part carries inline data; otherwise the inline data of the first part that does |
| Generators.GenerateImage | services/geminiService.ts:75-98 | Rejects only without an API key; resolves to the first inline image or to nothing, including after a thrown error |
| Generators.GenerateAudio | services/geminiService.ts:100-121 | Rejects only without an API key; resolves to the reply's audio data, possibly nothing, and to nothing after a thrown error |
| Generators.GenerateList | services/geminiService.ts:123-153 | Rejects only without an API key; a non-empty result is exactly the parsed reply; an empty reply or a thrown error gives the empty list (grammar at 155-192 is the same) |
| Generators.ParseNotes | services/geminiService.ts:12-59 | Fails iff the key is missing or the provider call threw, since the error is rethrown; an empty reply gives no items |
| Generators.GeneratorsAllOrNothing | services/geminiService.ts:4-10 | The five detail generators all resolve with a key and all reject without one, and the explanation is never empty |
| Pcm.ToUint8 | services/geminiService.ts:199 | Storing a character code in a byte array keeps codes below 256 unchanged |
| Pcm.DecodeBase64 | services/geminiService.ts:194-202 | Output length equals the string length, and byte i is the code of character i |
| Pcm.BinaryStringRoundTrip | services/geminiService.ts:194-202 | On a binary string, turning the copied bytes back into characters gives the original string, so no information is lost |
| Pcm.Pad | services/geminiService.ts:210-215 | The result has even length, starts with the whole input, grows by exactly one byte for odd input and not at all for even input, and the added byte is zero |
| Pcm.Int16LE | services/geminiService.ts:217 | Two bytes read as a signed 16-bit value in [-32768, 32767] whose two's-complement encoding is low + 256 * high |
| Pcm.NormalizedRange | services/geminiService.ts:224 | Every scaled sample lies in [-1, 1); -32768 maps to exactly -1.0 and 32767 to 32767/32768 |
| Pcm.DecodeAudioData | services/geminiService.ts:204-228 | Fails, with NotSupportedError, iff `createBuffer` rejects the buffer: no channel, more channels than the engine supports, a sample rate outside its range, or fewer samples than channels. Otherwise the length is (padded length / 2) / channels rounded down, and channel c, frame i holds sample i * channels + c divided by 32768 |
| Pcm.DefaultsRejectOnlyEmpty | services/geminiService.ts:204-219 | With the default 24000 Hz mono and an engine meeting the Web Audio minimums, decoding fails iff the audio is empty; a single byte still makes one frame |
| Pcm.DecodeChannel | services/geminiService.ts:221-226 | One channel holds, in frame order, the scaled samples at that channel's interleaved positions |
| Pcm.EncodePcm | services/geminiService.ts:217 | The inverse reference: little-endian 16-bit encoding, two bytes per sample, sample k at bytes 2k and 2k+1 |
| Pcm.DeinterleaveRoundTrip | services/geminiService.ts:217-226 | Encoding equal-length channels frame by frame and decoding the bytes gives the same frame count and, at frame i of channel c, the original sample, with no padding added |
| Pcm.DecodeExampleOdd | services/geminiService.ts:210-219 | Five bytes decode, in mono, as three frames, the last built from the fifth byte and the zero padding |
| Pcm.DecodeExampleEven | services/geminiService.ts:210-224 | Bytes 00 40 00 80 decode, in mono, to the two frames 0.5 and -1.0 |
| Enrichment.Requested | pages/VocabDetailPage.tsx:58-80 | A field is fetched iff the caller needs it and its value is falsy: an empty string is missing, an empty list is present. Nothing is fetched iff the record is complete |
| Enrichment.AlreadyLoadedIsCompleteness | pages/VocabDetailPage.tsx:47-52 | The page's early return, and the modal's three-field test at components/VocabDetailModal.tsx:31-33, each hold exactly when no field the caller needs is missing |
| Enrichment.CallFor | pages/VocabDetailPage.tsx:66-80 | The call for a field asks for that field and carries the card's term and definition and the loader's language; audio gets only the term |
| Enrichment.CallsInAsks | pages/VocabDetailPage.tsx:64-80 | Walking a list of fields starts a call for a field iff the field is on the list and requested |
| Enrichment.StartCalls | pages/VocabDetailPage.tsx:64-80 | One call per requested field and no other, in the fixed explanation, image, audio, conversation, grammar order, each with the right arguments |
| Enrichment.Merge | pages/VocabDetailPage.tsx:58-95 | Each requested field takes its generator's value, and an image that did not come back leaves url and type absent. Unrequested fields keep their value, except that a cached image without a type gets "image/png" |
| Enrichment.LoadDetails | pages/VocabDetailPage.tsx:45-104 | A complete card starts no call and changes nothing. Otherwise a call starts per missing field. Exactly one write happens iff all calls resolve and the view is still mounted. A rejection sets the caller's error message instead, and a torn-down view sees no change. Every call carries the card's term and definition and the loader's language: the page's target language, the modal's card language (components/VocabDetailModal.tsx:39-53) |
| Enrichment.WriteBackIsMerge | pages/VocabDetailPage.tsx:84-96 | The write-back is the merged record, and after the store update the card carries it as its details |
| Enrichment.SecondLoadRetriesOnlyMedia | pages/VocabDetailPage.tsx:58-95 | After a write-back, the next load of the updated card asks for nothing but image or audio, and for nothing at all if both came back non-empty |
| Enrichment.EnrichNewCardThenSettle | pages/VocabDetailPage.tsx:45-104 | A detail-less card on the page with a key starts five calls; once media are delivered, a reload of the written card starts none |
| Enrichment.MissingOnlyGrammar | pages/VocabDetailPage.tsx:78-95 | A card lacking only grammar starts just the grammar call; the write sets grammar and defaults the image type, and changes nothing else |
| Enrichment.ReloadRefetchesMedia | App.tsx:64-74 | A card read back from storage has lost its media, so a load asks for exactly what it asked before plus image and audio |
| Practice.ChooseMime | pages/VocabDetailPage.tsx:153-158 | The first supported of "audio/webm;codecs=opus" and "audio/mp4", else "audio/webm" whether or not that is supported |
| Practice.StartPressed | pages/VocabDetailPage.tsx:147-151 | Pressing clears the error and the old recording and asks for the microphone; the recorder, chunks and flag are untouched until the answer |
| Practice.StartSettled | pages/VocabDetailPage.tsx:151-190 | Once the microphone answer comes: a grant holds one more stream. With a recorder that can be built, a recording recorder of the chosen type with empty chunks replaces the old one, and the flag goes up if the view is still mounted. Denial, or a recorder that cannot be built, leaves the recorder alone and shows the denial message on a mounted view |
| Practice.Step | pages/VocabDetailPage.tsx:108-198 | Answers come only to requests made. After teardown the error, recording and flag never change and only a pending answer acts; a press goes to StartPressed and a teardown to OnTeardown (buttons at lines 374-379) |
| Practice.OnData | pages/VocabDetailPage.tsx:164-168 | A chunk is appended when a recorder exists: on the page only if non-empty, in the modal always (components/VocabDetailModal.tsx:123-125) |
| Practice.DataAccumulates | pages/VocabDetailPage.tsx:164-168 | Over a run of chunks the list grows by exactly the kept chunks in arrival order: the non-empty ones on the page, all in the modal. Nothing else changes |
| Practice.KeptAllIsFilter | pages/VocabDetailPage.tsx:164-168 | The chunks kept over a run are, on the page, exactly the non-empty ones in arrival order; in the modal, all of them (components/VocabDetailModal.tsx:123-125) |
| Practice.OnStop | pages/VocabDetailPage.tsx:170-182 | The page makes no recording from zero chunks and otherwise one blob of the chosen type. The modal always makes one, typed as the recorder's type or "audio/webm" (components/VocabDetailModal.tsx:127-138) |
| Practice.StopRecording | pages/VocabDetailPage.tsx:192-198 | Acts only when the guard holds: recorder state on the page, the isRecording flag in the modal (components/VocabDetailModal.tsx:148-155). It then stops the recorder and its tracks and clears the flag |
| Practice.OnTeardown | pages/VocabDetailPage.tsx:108-113 | Teardown unmounts, stops a recorder that is still recording, and releases no microphone stream |
| Practice.RecordTake | pages/VocabDetailPage.tsx:147-198 | Press, grant, chunks, release, then the stop event yield a blob of exactly the kept chunks, or none on the page when all were empty, with every stream released |
| Practice.RestartLeaksStream | pages/VocabDetailPage.tsx:160-162 | Starting twice (press and grant each time) and releasing leaves one microphone stream live, because the first recorder is overwritten, not stopped |
| Practice.TeardownKeepsMicrophone | pages/VocabDetailPage.tsx:110-112 | Teardown while recording leaves the recorder inactive but its stream live |
| Practice.ReleaseBeforeGrantKeepsRecording | pages/VocabDetailPage.tsx:147-198 | Releasing the hold-to-record button before the grant stops nothing; the grant then starts a recorder that keeps recording with a live stream, button up |
| Practice.GrantAfterTeardownLeaks | pages/VocabDetailPage.tsx:108-190 | A grant arriving after teardown builds and starts a recorder with a live stream while the view's flag stays down, and no later event other than an answer changes that |
| Store.UpdateVocabItem | App.tsx:99-103 | Length, ids and order are kept and cards with another id are unchanged. Matching cards take every field the patch sets and keep the rest, and details are replaced as a whole |
| Store.LastWriteWins | App.tsx:99-103 | Two detail updates of one card equal the second alone |
| Store.UpdateUnknownId | App.tsx:99-103 | An id no card has leaves the list unchanged |
| Store.DeleteVocabItem | App.tsx:95-97 | Keeps exactly the cards with another id, in order, and shrinks by the number of cards with that id |
| Store.AddVocabItems | App.tsx:84-93 | No-op without a target language. Otherwise the items, in input order, become cards with the given ids, timestamps and the target language, placed before all existing cards |
| Store.ResetData | App.tsx:105-109 | The three seed cards and no target language |
| Store.AddAfterResetIsNoOp | App.tsx:84-109 | Right after a reset an import adds nothing |
| Store.StripMedia | App.tsx:64-74 | The stored details drop image, image type and audio and keep explanation, conversation and grammar |
| Store.PersistCard | App.tsx:64-74 | Absent details stay absent, present ones are stripped of media, and no other field changes |
| Store.Persisted | App.tsx:63-76 | The saved list is the persisted form of each card, in order |
| Store.PersistIdempotent | App.tsx:63-76 | Persisting a persisted list changes nothing |
| Store.MigrateCard | App.tsx:47-52 | term = korean or term, definition = english or definition, language = language or Korean; nothing else changes |
| Store.Migrate | App.tsx:45-54 | A list whose first card has a truthy legacy korean field has every card migrated; any other list is kept |
| Store.MigrateIdempotent | App.tsx:45-54 | Migrating a migrated list changes nothing, so repeated loads of a legacy list are stable |
| Store.SaveLoadRoundTrip | App.tsx:41-76 | Saving then loading gives back every card that never had the legacy fields as it was, minus its media, with no migration |
| Study.CountersBounded | pages/StudyPage.tsx:18-20 | No card is both mastered and new, so those two counters sum to at most the card count |
| Study.Select | pages/StudyPage.tsx:22-40 | The all deck is the whole list. The new and mistakes decks hold exactly the cards their counters count, as many as the counter says, in library order |
| Study.Shuffle | pages/StudyPage.tsx:47 | The shuffled deck is a permutation of the selected cards |
| Study.StartSession | pages/StudyPage.tsx:22-51 | An empty deck starts no session. Otherwise the session shows a permutation of the deck from its first card, under the deck's title |
| Study.HandleNext | pages/StudyPage.tsx:163-175 | Turns the card face down and clears its feedback at once, and schedules one step carrying the index captured now; the index itself does not move yet |
| Study.HandlePrev | pages/StudyPage.tsx:177-185 | On any card but the first, turns it face down, clears its feedback and schedules one step back; on the first card nothing at all changes |
| Study.Advance | pages/StudyPage.tsx:166-174 | As written, the step tests the index its closure captured and then adds one to the current index; corrected, it tests the index it advances. Passing the test advances by one, failing it ends the session in place |
| Study.Retreat | pages/StudyPage.tsx:181-183 | As written, the step always subtracts one, the first-card test having run when it was scheduled; corrected, it never leaves the first card |
| Study.FireTimer | pages/StudyPage.tsx:166-183 | A firing grade timer runs the `handleNext` of the grade's render, so the step it schedules carries the graded index; a firing step moves the index as Advance or Retreat says; the fired timer leaves the queue and the deck and store are untouched |
| Study.OnSwipe | pages/StudyPage.tsx:228-234 | A swipe never moves the index by itself: a leftward one schedules a step carrying the current index, a rightward one acts as HandlePrev, an ignored one changes nothing |
| Study.Step | pages/StudyPage.tsx:161-236 | The deck and the store size never change; an ended session ignores everything; while the index names no card (the page renders nothing) only timers act. A grade on a card face down or with feedback showing does nothing; otherwise it shows the feedback, schedules the delayed `handleNext` with the shown index and writes the graded store. A tap turns the card, a touch acts as OnSwipe, and a timer fires as FireTimer |
| Study.StepKeepsValid | pages/StudyPage.tsx:163-185 | With steps that test the index they move, no input takes the index off the deck |
| Study.RunKeepsValid | pages/StudyPage.tsx:163-236 | With corrected steps, the index names a card after any sequence of touches, taps, grades and timer firings in any order |
| Study.CorrectionAgreesWhenCurrent | pages/StudyPage.tsx:163-185 | When the fired step captured the current index (or a back step fires off the first card), the corrected and written steps do the same thing |
| Study.StuckWithoutCard | pages/StudyPage.tsx:236 | Once the index names no card and nothing is pending, no input changes the page again |
| Study.SwipeAfterGradeOverruns | pages/StudyPage.tsx:163-199 | Middle card of three: "Got it", then a left swipe within the grade's delay. As written the index reaches 3, the session is still active with nothing pending and stays so forever; corrected, the session ends on the last card (see Findings) |
| Study.DoubleSwipeBackUnderruns | pages/StudyPage.tsx:177-185 | Two right swipes from the second card within 200 ms reach index -1 as written, and stop at the first card corrected (see Findings) |
| Study.PrevThenNext | pages/StudyPage.tsx:163-185 | Back, its step, forward and its step return to the same card, active with nothing pending, in both versions |
| Study.GradeAsWritten | pages/StudyPage.tsx:187-214 | Grading as the session does it: the graded card is stamped now, mastered by "Got it" with its category kept, learning in Errors by "Missed it", with a review count one more than the snapshot taken at session start, whatever the store holds now; its term, definition, language, date and details are kept, and other cards are unchanged (see Findings) |
| Study.GradingsAgreeWhenCurrent | pages/StudyPage.tsx:187-214 | When the stored review count still equals the session copy's, the session's grading and the corrected one write the same store |
| Study.GradeAsWrittenLosesReview | pages/StudyPage.tsx:187-199 | Two cards, the first never studied: "Got it", its delayed steps, a right swipe back, its step, a tap and "Got it" again. As written the first card is stored with one review; corrected, with two |
| Study.Grade | pages/StudyPage.tsx:187-214 | The corrected grading reads the stored card and changes no card with another id; its effect on the graded card is stated by GradeEffect |
| Study.GradeEffect | pages/StudyPage.tsx:187-214 | "Got it" masters the card and keeps its category. "Missed it" moves it to Errors as learning. Either way the review count is the stored one (0 when none) plus one, and every other card is unchanged |
| Study.GradeTwiceCountsTwo | pages/StudyPage.tsx:187-214 | With the corrected grading, two grades add two reviews |
| Study.OnTouchEnd | pages/StudyPage.tsx:219-234 | A missing or zero coordinate (a real number of pixels) does nothing; forward iff both are present and the move is more than 50 pixels leftward, back iff more than 50 pixels rightward |
| Study.SwipeMirror | pages/StudyPage.tsx:228-234 | A swipe and its mirror image go opposite ways, and both or neither are ignored |
| Study.SwipeDeadZone | pages/StudyPage.tsx:232-233 | Moves of at most 50 pixels either way do nothing |
| Library.Distinct | pages/LibraryPage.tsx:19-20 | Each value once, the same values as the input, ordered by first appearance |
| Library.Categories | pages/LibraryPage.tsx:18-21 | "All" first, then every card category exactly once and nothing else |
| Library.CategoriesInOrder | pages/LibraryPage.tsx:18-21 | The chips after "All" follow the order in which categories first occur |
| Library.FilteredList | pages/LibraryPage.tsx:23-33 | Keeps a card iff its lower-cased term or definition contains the lower-cased search and the chip is "All" or its category; every kept card appears as often as in the library, the others not at all, in library order |
| Library.EmptySearchShowsAll | pages/LibraryPage.tsx:25-27 | Empty search under "All" shows every card in order |
| Library.ChipNarrows | pages/LibraryPage.tsx:29-31 | A chip keeps exactly the "All" results of that category, in order |
| Parser.NewItems | pages/ParserPage.tsx:61-64 | Keeps, in order and with their multiplicity, exactly the parsed items whose term no existing card has |
| Parser.MarkSynced | pages/ParserPage.tsx:72-74 | Only the document with the id gets the new sync time; ids, names and URLs are kept |
| Parser.ProcessText | pages/ParserPage.tsx:52-92 | Whitespace-only text is ignored. A sync lists only new terms, or sets "Sync complete!..." and an empty list, and stamps its document only when something is new. Direct input lists every result, or sets "No <language> vocabulary..." and an empty list. A failed parse sets "Failed to process notes..." |
| Parser.SyncOnlyNewTerms | pages/ParserPage.tsx:61-64 | After a sync no listed item repeats a library term |
| Parser.ResyncFindsNothing | pages/ParserPage.tsx:61-67 | Re-syncing a parse whose terms are all in the library finds nothing new |
| Parser.IdRun | pages/ParserPage.tsx:120 | The greedy run of letters, digits, '-' and '_' at a position |
| Parser.FindFrom | pages/ParserPage.tsx:120 | The leftmost position at or after a start where "/d/" and an id character begin, or none |
| Parser.DocId | pages/ParserPage.tsx:120-121 | None iff the URL has no "/d/<id>"; otherwise the non-empty greedy id after the leftmost match |
| Parser.FetchUrl | pages/ParserPage.tsx:119-123 | A URL with a document id is fetched as https://docs.google.com/document/d/<id>/export?format=txt; any other URL unchanged |
| Parser.ExportUrlId | pages/ParserPage.tsx:122 | The export URL carries its own id as its first match |
| Parser.FetchUrlIdempotent | pages/ParserPage.tsx:119-123 | Resolving a fetch URL twice is resolving it once |
| Parser.SyncDoc | pages/ParserPage.tsx:113-152 | A failed fetch, a sign-in page or a blank body sets the failure message chosen by the document URL; any other body is processed as a sync of that document |
| Parser.WithScheme | pages/ParserPage.tsx:158-161 | The saved URL starts with "http": unchanged if it did, otherwise prefixed with "https://" |
| Parser.WithSchemeIdempotent | pages/ParserPage.tsx:158-161 | Adding the scheme twice is adding it once |
| Parser.AddDoc | pages/ParserPage.tsx:155-175 | Without a name or URL nothing happens. Otherwise the new never-synced document is appended and handed on for syncing |
| Parser.DeleteDoc | pages/ParserPage.tsx:177-179 | Keeps exactly the documents with another id, each as often as before, in order |
| Parser.AddThenDelete | pages/ParserPage.tsx:155-179 | Adding a document under an unused id and deleting it restores the list |
| Parser.RemoveItem | pages/ParserPage.tsx:102-104 | Index i removes item i only, shifting the later ones; an index outside the list removes nothing |
| Parser.UpdateItem | pages/ParserPage.tsx:106-110 | Only the named field of item i changes |
| Parser.UpdateSameValue | pages/ParserPage.tsx:106-110 | Writing back a field's current value changes nothing |

## Left out

- The Gemini calls themselves are not modelled: prompts, model names, response schemas and JSON parsing of replies. They belong to a foreign network library. A reply is an input that is either an already-parsed value or a thrown error.
- `atob` (base64 decoding, section 4 of RFC 4648) is a foreign call. Its output string is the input of `Pcm.DecodeBase64`.
- Audio output is not modelled: creating and resuming the AudioContext, buffer sources, `Audio.play`, blob URLs and `getUserMedia`. These are device I/O. The decoded `AudioBuffer` and the recorder events stand for them.
- `Pcm.DecodeAudioData` takes the engine's channel and sample-rate limits as a parameter (`Pcm.BufferLimits`). They belong to the browser; `Pcm.Conforming` states the Web Audio minimums.
- `Pcm.DecodeAudioData` reads the `Int16Array` view as little-endian, which is what every platform the app runs on uses.
- `fetch`, its 10-second abort timeout, FileReader, localStorage reads and writes, `crypto.randomUUID`, `new Date()` and the `Math.random` sort order are not modelled. They are I/O or nondeterminism, and appear as parameters: the body, ids, stamps and swaps.
- The 200, 1200 and 1500 ms delays are not modelled as durations. Pending timers form a queue, and which one fires next is part of the input, so every firing order is admitted, including ones the real delays exclude.
- The "Session Complete!" alert and the swipe-hint timer are not modelled. The alert is a blocking dialog and the hint is presentation only; the end of a session is `active` turning false.
- Unicode `toLowerCase` is the parameter `lower`; `Library.EmptySearchShowsAll` assumes only that it maps the empty text to itself.
- Concurrent views enriching the same card are not modelled. Such views race through `Store.UpdateVocabItem`, and `Store.LastWriteWins` states the outcome of two writes. `Promise.all` is modelled as an all-or-nothing join.
- Recorder events after teardown are not modelled, except a pending microphone answer. Chunks and `stop` events of a recorder left running are dropped, since they can no longer reach what the view shows. A teardown caused by the page re-running its effect for another card is treated the same.
- Practice: the events of an overwritten first recorder are not delivered in the model. In the app, that recorder keeps writing into the shared chunk list.
- Practice: blob creation failure ("Failed to process recording.") and playback errors are not modelled. They are browser media internals.
- `playTTS` and `playRecording` are not modelled. They are thin wrappers over the decoder and device playback.
- JSX rendering is not modelled, nor are the mode tabs of the import page, `handleFileUpload` (FileReader), `handleSaveToLibrary` (hands the list to `Store.AddVocabItems`), components/Layout.tsx, components/Button.tsx and pages/SettingsPage.tsx. They are markup, I/O or simple forwarding.
- The stale `syncingDocId` after a failed sync is not modelled, because the page shows it only while a sync is processing.
- Store.ResetData: promises only the seed size and the cleared language; the seed cards themselves are the literal list.

## Findings

| source | as written | input that shows it | evidently intended | confidence | as-written member | corrected member |
|---|---|---|---|---|---|---|
| pages/StudyPage.tsx:187-214 | "Got it" and "Missed it" compute the new review count from the card in the session deck. That deck is a copy taken when the session started, and grading never refreshes it | Two cards, the first never studied: "Got it" on the first, the delayed step shows the second, swipe right back to the first, tap, "Got it" again. The first card is stored with reviewCount 1 | Each grade adds one review to the stored count, giving 2 | medium, not executed | Study.GradeAsWritten (counterexample Study.GradeAsWrittenLosesReview) | Study.Grade (Study.GradeEffect, Study.GradeTwiceCountsTwo) |
| pages/StudyPage.tsx:163-199 | The delayed step of `handleNext` tests the `currentIndex` its render captured, then adds one to whatever the index is by then. A grade schedules that `handleNext` 1200 or 1500 ms later, from the grade's render | Middle card of a three-card deck: "Got it", then a left swipe within 1200 ms. The swipe's step shows the last card; the grade's step still tests index 1 and moves to index 3. Nothing renders (line 236) and no input leaves that state | The step tests the index it advances, so the session ends on the last card and the index always names a card | medium, not executed | Study.FireTimer, with Study.Advance as written (counterexample Study.SwipeAfterGradeOverruns, Study.StuckWithoutCard) | Study.Advance corrected (Study.StepKeepsValid, Study.RunKeepsValid) |
| pages/StudyPage.tsx:177-185 | `handlePrev` tests `currentIndex > 0` when called and its delayed step subtracts one unconditionally | Second card: two right swipes within 200 ms. Both pass the test on index 1 and the index reaches -1, where nothing renders | The step stays on the first card | medium, not executed | Study.FireTimer, with Study.Retreat as written (counterexample Study.DoubleSwipeBackUnderruns) | Study.Retreat corrected (Study.StepKeepsValid, Study.RunKeepsValid) |
