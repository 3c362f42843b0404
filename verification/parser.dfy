/** The note-import page: turning parsed notes into a review list (with
    de-duplication when syncing a linked document), resolving a linked
    document's fetch URL, recognising a sign-in page, and the edits on the
    review list and on the list of linked documents. The network, the clock,
    random ids and the parse itself are parameters. */
module Parser {
  import opened Wrappers
  import opened Types
  import Seqs

  /** ECMAScript white space and line terminators, as `trim` removes them. */
  predicate IsWhitespace(c: char) {
    c in {'\U{0020}', '\U{0009}', '\U{000A}', '\U{000D}', '\U{000B}', '\U{000C}',
          '\U{00A0}', '\U{FEFF}', '\U{1680}', '\U{2000}', '\U{2001}', '\U{2002}',
          '\U{2003}', '\U{2004}', '\U{2005}', '\U{2006}', '\U{2007}', '\U{2008}',
          '\U{2009}', '\U{200A}', '\U{2028}', '\U{2029}', '\U{202F}', '\U{205F}',
          '\U{3000}'}
  }

  /** `!text.trim()`: the text has nothing but white space. */
  predicate Blank(text: string) {
    forall i :: 0 <= i < |text| ==> IsWhitespace(text[i])
  }

  const SyncNothingNew: string := "Sync complete! No new vocabulary words found."
  const ProcessFailed: string := "Failed to process notes. Please try again."

  function NothingFound(lang: Language): string {
    "No " + LanguageName(lang) + " vocabulary or translations found. Try adding more context."
  }

  /** The page state `processText` and the sync handler change. */
  datatype PageState = PageState(
    parsed: seq<ParsedVocabItem>,
    error: Option<string>,
    docs: seq<DocSource>,
    processing: bool)

  /** Whether a parsed term is new: no existing card has exactly that term. */
  function IsUnknown(existing: seq<VocabCard>): ParsedVocabItem -> bool {
    (item: ParsedVocabItem) => forall i :: 0 <= i < |existing| ==> existing[i].term != item.term
  }

  /** The parsed items a sync keeps. */
  function NewItems(results: seq<ParsedVocabItem>, existing: seq<VocabCard>): (r: seq<ParsedVocabItem>)
    ensures forall x :: x in r <==> x in results && forall i :: 0 <= i < |existing| ==> existing[i].term != x.term
    ensures forall x :: multiset(r)[x] == if forall i :: 0 <= i < |existing| ==> existing[i].term != x.term then multiset(results)[x] else 0
    ensures Seqs.IsSubsequence(r, results)
  {
    Seqs.FilterIsSubsequence(results, IsUnknown(existing));
    Seqs.Filter(results, IsUnknown(existing))
  }

  /** Stamps the document with the id as synced now; the others keep theirs. */
  function MarkSynced(docs: seq<DocSource>, id: string, now: string): (r: seq<DocSource>)
    ensures |r| == |docs|
    ensures forall i :: 0 <= i < |docs| ==> r[i].id == docs[i].id && r[i].name == docs[i].name && r[i].url == docs[i].url
    ensures forall i :: 0 <= i < |docs| ==> r[i].lastSynced == (if docs[i].id == id then Some(now) else docs[i].lastSynced)
  {
    seq(|docs|, i requires 0 <= i < |docs| => if docs[i].id == id then docs[i].(lastSynced := Some(now)) else docs[i])
  }

  /** `processText`: `outcome` is how the parse settled. White-space text is
      ignored. A sync (a non-empty source id) keeps only unknown terms and
      stamps its document when any remain; direct input shows everything; an
      empty result or a failed parse sets a message. */
  function ProcessText(st: PageState, text: string, sourceId: Option<string>, existing: seq<VocabCard>,
                       lang: Language, outcome: Result<seq<ParsedVocabItem>, string>, now: string): (t: PageState)
    ensures Blank(text) ==> t == st
    ensures !Blank(text) ==> !t.processing
    ensures !Blank(text) && outcome.Failure? ==> t == st.(error := Some(ProcessFailed), processing := false)
    ensures !Blank(text) && outcome.Success? && Truthy(sourceId) ==>
      var unseen := NewItems(outcome.value, existing);
      && t.parsed == unseen
      && (t.error == None <==> |unseen| > 0)
      && (|unseen| == 0 ==> t.error == Some(SyncNothingNew) && t.docs == st.docs)
      && (|unseen| > 0 ==> t.docs == MarkSynced(st.docs, sourceId.value, now))
    ensures !Blank(text) && outcome.Success? && !Truthy(sourceId) ==>
      && t.parsed == outcome.value && t.docs == st.docs
      && (t.error == None <==> |outcome.value| > 0)
      && (|outcome.value| == 0 ==> t.error == Some(NothingFound(lang)))
  {
    if Blank(text) then st
    else
      var started := st.(processing := true, error := None);
      var done :=
        match outcome
        case Failure(_) => started.(error := Some(ProcessFailed))
        case Success(results) =>
          if Truthy(sourceId) then
            var unseen := NewItems(results, existing);
            if |unseen| == 0 then started.(error := Some(SyncNothingNew), parsed := [])
            else started.(parsed := unseen, docs := MarkSynced(st.docs, sourceId.value, now))
          else if |results| == 0 then started.(error := Some(NothingFound(lang)), parsed := [])
          else started.(parsed := results);
      done.(processing := false)
  }

  /** After a sync, no listed item repeats a term already in the library. */
  lemma SyncOnlyNewTerms(st: PageState, text: string, id: string, existing: seq<VocabCard>, lang: Language,
                         results: seq<ParsedVocabItem>, now: string)
    requires !Blank(text) && id != ""
    ensures var t := ProcessText(st, text, Some(id), existing, lang, Success(results), now);
      forall x, i :: x in t.parsed && 0 <= i < |existing| ==> existing[i].term != x.term
  {
  }

  /** Syncing the same parse a second time, once its items are in the library,
      finds nothing new. */
  lemma ResyncFindsNothing(st: PageState, text: string, id: string, existing: seq<VocabCard>, lang: Language,
                           results: seq<ParsedVocabItem>, now: string, saved: seq<VocabCard>)
    requires !Blank(text) && id != ""
    requires forall x :: x in results ==> exists i :: 0 <= i < |saved| && saved[i].term == x.term
    ensures ProcessText(st, text, Some(id), saved, lang, Success(results), now).error == Some(SyncNothingNew)
  {
  }

  /** `[a-zA-Z0-9-_]`. */
  predicate IsIdChar(c: char) {
    ('a' <= c <= 'z') || ('A' <= c <= 'Z') || ('0' <= c <= '9') || c == '-' || c == '_'
  }

  /** A match of `/d/` followed by at least one id character starts at `i`. */
  predicate MatchAt(u: string, i: nat) {
    i + 3 < |u| && u[i] == '/' && u[i + 1] == 'd' && u[i + 2] == '/' && IsIdChar(u[i + 3])
  }

  /** The greedy run of id characters starting at `k`. */
  function IdRun(u: string, k: nat): (r: string)
    requires k <= |u|
    ensures k + |r| <= |u| && r == u[k..k + |r|]
    ensures forall j :: 0 <= j < |r| ==> IsIdChar(r[j])
    ensures k + |r| == |u| || !IsIdChar(u[k + |r|])
    decreases |u| - k
  {
    if k < |u| && IsIdChar(u[k]) then
      var rest := IdRun(u, k + 1);
      assert u[k..k + 1 + |rest|] == [u[k]] + rest;
      [u[k]] + rest
    else []
  }

  /** The leftmost match at or after `i`, as the regular expression scans. */
  function FindFrom(u: string, i: nat): (r: Option<nat>)
    ensures r.Some? ==> i <= r.value && MatchAt(u, r.value) && forall j :: i <= j < r.value ==> !MatchAt(u, j)
    ensures r.None? ==> forall j :: i <= j ==> !MatchAt(u, j)
    decreases |u| - i
  {
    if i + 3 >= |u| then None
    else if MatchAt(u, i) then Some(i)
    else FindFrom(u, i + 1)
  }

  /** The id captured by `/\/d\/([a-zA-Z0-9-_]+)/`, if the URL has one. */
  function DocId(u: string): (r: Option<string>)
    ensures r.None? <==> forall j :: !MatchAt(u, j)
    ensures r.Some? ==> |r.value| > 0 && exists i: nat ::
      && MatchAt(u, i)
      && (forall j :: 0 <= j < i ==> !MatchAt(u, j))
      && r.value == IdRun(u, i + 3)
  {
    match FindFrom(u, 0)
    case None => None
    case Some(i) =>
      var id := IdRun(u, i + 3);
      assert id[0] == u[i + 3];
      assert MatchAt(u, i) && (forall j :: 0 <= j < i ==> !MatchAt(u, j)) && id == IdRun(u, i + 3);
      Some(id)
  }

  const ExportPrefix: string := "https://docs.google.com/document/d/"
  const ExportSuffix: string := "/export?format=txt"

  function ExportUrl(id: string): string {
    ExportPrefix + id + ExportSuffix
  }

  /** The URL a sync fetches: the plain-text export of a linked document,
      anything else unchanged. */
  function FetchUrl(u: string): (r: string)
    ensures DocId(u).None? ==> r == u
    ensures DocId(u).Some? ==> r == ExportUrl(DocId(u).value)
  {
    match DocId(u)
    case None => u
    case Some(id) => ExportUrl(id)
  }

  /** Helper: a match that fits inside `s` is unaffected by what follows. */
  lemma MatchInPrefix(s: string, t: string, j: nat)
    requires j + 3 < |s|
    ensures MatchAt(s + t, j) == MatchAt(s, j)
  {
  }

  /** Helper: the export prefix holds no `/?/` pattern before its final
      `/d/`. */
  lemma PrefixHasNoEarlyMatch()
    ensures forall j :: 0 <= j < |ExportPrefix| - 3 ==> ExportPrefix[j] != '/' || ExportPrefix[j + 2] != '/'
  {
    var p := ExportPrefix;
    assert forall j :: 0 <= j < |p| - 3 ==> p[j] != '/' || p[j + 2] != '/';
  }

  /** Helper: a match with none before it is the leftmost match. */
  lemma FirstMatch(u: string, k: nat)
    requires MatchAt(u, k) && forall j :: 0 <= j < k ==> !MatchAt(u, j)
    ensures FindFrom(u, 0) == Some(k)
  {
  }

  /** An export URL carries its id as its first match. */
  lemma ExportUrlId(id: string)
    requires |id| > 0 && forall j :: 0 <= j < |id| ==> IsIdChar(id[j])
    ensures DocId(ExportUrl(id)) == Some(id)
  {
    var p := ExportPrefix;
    var t := id + ExportSuffix;
    var u := ExportUrl(id);
    assert u == p + t;
    var k := |p| - 3;
    PrefixHasNoEarlyMatch();
    forall j | 0 <= j < k ensures !MatchAt(u, j) {
      MatchInPrefix(p, t, j);
    }
    assert u[k] == '/' && u[k + 1] == 'd' && u[k + 2] == '/' && u[k + 3] == id[0];
    FirstMatch(u, k);
    assert u[|p|..|p| + |id|] == id;
    assert u[|p| + |id|] == '/';
    IdRunIs(u, |p|, id);
  }

  /** Helper: a run of id characters followed by another character or the
      end is what `IdRun` reads. */
  lemma {:induction false} IdRunIs(u: string, k: nat, id: string)
    requires k + |id| <= |u| && u[k..k + |id|] == id
    requires forall j :: 0 <= j < |id| ==> IsIdChar(id[j])
    requires k + |id| == |u| || !IsIdChar(u[k + |id|])
    ensures IdRun(u, k) == id
    decreases |id|
  {
    if |id| > 0 {
      assert u[k] == id[0];
      assert u[k + 1..k + 1 + |id[1..]|] == id[1..];
      IdRunIs(u, k + 1, id[1..]);
      assert id == [id[0]] + id[1..];
    }
  }

  /** Resolving a fetch URL twice is resolving it once. */
  lemma FetchUrlIdempotent(u: string)
    ensures FetchUrl(FetchUrl(u)) == FetchUrl(u)
  {
    if DocId(u).Some? {
      ExportUrlId(DocId(u).value);
    }
  }

  /** A fetched page that is really a sign-in page: an HTML document (case
      ignored, with `lower` the runtime's lower-casing) mentioning Google or
      sign-in. */
  predicate IsAuthPage(lower: string -> string, text: string) {
    Seqs.Contains(lower(text), "<!doctype html>")
    && (Seqs.Contains(text, "Google") || Seqs.Contains(text, "Sign in"))
  }

  const GoogleDocFailed: string := "Could not access Google Doc. Please use \"File > Share > Publish to web\" and use the Link provided there."

  function ConnectFailed(name: string): string {
    "Could not connect to \"" + name + "\". Please ensure the link is publicly accessible."
  }

  /** The message a failed sync shows, chosen by the document's own URL. */
  function SyncFailure(doc: DocSource): string {
    if Seqs.Contains(doc.url, "docs.google.com") then GoogleDocFailed else ConnectFailed(doc.name)
  }

  /** `handleSyncDoc`: `body` is the text of a successful response to
      `FetchUrl(doc.url)`, or none when the fetch failed, timed out or was
      not ok. A sign-in page or a blank body fails the sync; any other body is
      processed as a sync of this document. */
  function SyncDoc(st: PageState, doc: DocSource, body: Option<string>, lower: string -> string,
                   existing: seq<VocabCard>, lang: Language, outcome: Result<seq<ParsedVocabItem>, string>, now: string): (t: PageState)
    ensures !t.processing
    ensures body.None? || IsAuthPage(lower, body.value) || Blank(body.value) ==>
      t == st.(error := Some(SyncFailure(doc)), processing := false)
    ensures body.Some? && !IsAuthPage(lower, body.value) && !Blank(body.value) ==>
      t == ProcessText(st.(error := None, processing := true), body.value, Some(doc.id), existing, lang, outcome, now)
  {
    var started := st.(error := None, processing := true);
    if body.Some? && !IsAuthPage(lower, body.value) && !Blank(body.value) then
      ProcessText(started, body.value, Some(doc.id), existing, lang, outcome, now)
    else
      started.(error := Some(SyncFailure(doc)), processing := false)
  }

  /** The URL a new document is saved with. */
  function WithScheme(url: string): (r: string)
    ensures "http" <= r
    ensures "http" <= url ==> r == url
    ensures !("http" <= url) ==> r == "https://" + url
  {
    if "http" <= url then url else "https://" + url
  }

  /** Adding a scheme twice adds it once. */
  lemma WithSchemeIdempotent(url: string)
    ensures WithScheme(WithScheme(url)) == WithScheme(url)
  {
  }

  /** `handleAddDoc`: with a name and a URL, the new never-synced document is
      appended and returned for an immediate sync. */
  function AddDoc(docs: seq<DocSource>, name: string, url: string, id: string): (r: (seq<DocSource>, Option<DocSource>))
    ensures name == "" || url == "" ==> r == (docs, None)
    ensures name != "" && url != "" ==>
      && r.1 == Some(DocSource(id, name, WithScheme(url), None))
      && r.0 == docs + [r.1.value]
  {
    if name == "" || url == "" then (docs, None)
    else
      var d := DocSource(id, name, WithScheme(url), None);
      (docs + [d], Some(d))
  }

  function NotDoc(id: string): DocSource -> bool {
    (d: DocSource) => d.id != id
  }

  /** `handleDeleteDoc`: the documents with the id go; the rest keep their order. */
  function DeleteDoc(docs: seq<DocSource>, id: string): (r: seq<DocSource>)
    ensures forall d :: d in r <==> d in docs && d.id != id
    ensures forall d :: multiset(r)[d] == if d.id != id then multiset(docs)[d] else 0
    ensures Seqs.IsSubsequence(r, docs)
  {
    Seqs.FilterIsSubsequence(docs, NotDoc(id));
    Seqs.Filter(docs, NotDoc(id))
  }

  /** Adding a document and deleting it again leaves the list as it was, when
      the new id was not in use. */
  lemma AddThenDelete(docs: seq<DocSource>, name: string, url: string, id: string)
    requires name != "" && url != ""
    requires forall i :: 0 <= i < |docs| ==> docs[i].id != id
    ensures DeleteDoc(AddDoc(docs, name, url, id).0, id) == docs
  {
    var d := DocSource(id, name, WithScheme(url), None);
    Seqs.FilterAppend(docs, [d], NotDoc(id));
    Seqs.FilterKeepsAll(docs, NotDoc(id));
    assert Seqs.Filter([d], NotDoc(id)) == [];
  }

  /** `handleRemoveItem`: the item at the index goes; an index outside the
      list removes nothing. */
  function RemoveItem(items: seq<ParsedVocabItem>, index: int): (r: seq<ParsedVocabItem>)
    ensures 0 <= index < |items| ==>
      && |r| == |items| - 1
      && (forall j :: 0 <= j < index ==> r[j] == items[j])
      && (forall j :: index <= j < |r| ==> r[j] == items[j + 1])
    ensures !(0 <= index < |items|) ==> r == items
  {
    if 0 <= index < |items| then items[..index] + items[index + 1..] else items
  }

  datatype ItemField = TermField | DefinitionField | CategoryField

  function SetField(item: ParsedVocabItem, field: ItemField, value: string): ParsedVocabItem {
    match field
    case TermField => item.(term := value)
    case DefinitionField => item.(definition := value)
    case CategoryField => item.(category := value)
  }

  function GetField(item: ParsedVocabItem, field: ItemField): string {
    match field
    case TermField => item.term
    case DefinitionField => item.definition
    case CategoryField => item.category
  }

  /** `handleUpdateItem`: only the named field of the item at the index
      changes. */
  function UpdateItem(items: seq<ParsedVocabItem>, index: int, field: ItemField, value: string): (r: seq<ParsedVocabItem>)
    ensures |r| == |items|
    ensures forall j :: 0 <= j < |items| && j != index ==> r[j] == items[j]
    ensures 0 <= index < |items| ==>
      && GetField(r[index], field) == value
      && forall g :: g != field ==> GetField(r[index], g) == GetField(items[index], g)
  {
    seq(|items|, j requires 0 <= j < |items| => if j == index then SetField(items[j], field, value) else items[j])
  }

  /** Writing back the value a field already has changes nothing. */
  lemma UpdateSameValue(items: seq<ParsedVocabItem>, index: int, field: ItemField)
    requires 0 <= index < |items|
    ensures UpdateItem(items, index, field, GetField(items[index], field)) == items
  {
    var r := UpdateItem(items, index, field, GetField(items[index], field));
    assert r[index] == items[index];
  }
}
