/** The pronunciation-practice recorder of the detail page and of the detail
    modal, as an event-stepping state machine. The browser's microphone and
    `MediaRecorder` are reduced to events: a permission answer, data chunks
    (only their size matters), the stop button, the recorder's own `stop`
    event and the view's teardown. */
module Practice {
  import opened Wrappers
  import Seqs

  /** The two views that record; they differ in MIME choice, chunk filtering,
      the stop guard and the error wording. */
  datatype Flavor = DetailPage | DetailModal

  const OpusWebm: string := "audio/webm;codecs=opus"
  const Mp4: string := "audio/mp4"
  const Webm: string := "audio/webm"

  /** The page's MIME preferences, best first; `Webm` is the fallback. */
  const Preferences: seq<string> := [OpusWebm, Mp4]

  const PageDenied: string := "Microphone access denied. Please allow permissions."
  const ModalDenied: string := "Microphone access denied. Please check permissions."

  function DeniedMessage(f: Flavor): string {
    match f
    case DetailPage => PageDenied
    case DetailModal => ModalDenied
  }

  /** The page's MIME choice: the first supported preference, or the fallback
      when none is supported (the fallback itself is not checked). */
  function ChooseMime(supported: set<string>): (m: string)
    ensures m == Webm <==> (forall p :: p in Preferences ==> p !in supported)
    ensures m != Webm ==> m in Preferences && m in supported
    ensures m == Mp4 ==> OpusWebm !in supported
  {
    if OpusWebm in supported then OpusWebm
    else if Mp4 in supported then Mp4
    else Webm
  }

  datatype RecorderState = Inactive | Recording

  /** A `MediaRecorder` with the microphone stream it owns. */
  datatype Recorder = Recorder(state: RecorderState, mimeType: string, tracksLive: bool)

  /** A recorded blob: its chunk sizes in order and its type. */
  datatype Blob = Blob(parts: seq<nat>, mimeType: string)

  /** The recorder-related state of one view. `recorder` and `chunks` are the
      view's refs; `isRecording`, `recorded` and `error` are its React state.
      `liveStreams` counts microphone streams whose tracks were acquired and
      never stopped, and `asking` the microphone requests not yet answered. */
  datatype Session = Session(
    recorder: Option<Recorder>,
    chunks: seq<nat>,
    isRecording: bool,
    recorded: Option<Blob>,
    error: Option<string>,
    liveStreams: nat,
    asking: nat,
    mounted: bool)

  const Idle: Session := Session(None, [], false, None, None, 0, 0, true)

  /** `Press` is the record button going down, which calls `startRecording`;
      `Answer` is the oldest microphone request settling, where `supported`
      answers `MediaRecorder.isTypeSupported` and `browserMime` is the type a
      recorder built without options reports. `StopPressed` is the button
      going up or the mouse leaving it. */
  datatype Event =
    | Press
    | Answer(granted: bool, supported: set<string>, browserMime: string)
    | Data(size: nat)
    | StopPressed
    | RecorderStopped
    | Teardown

  /** Whether the recorder could be built. The page passes its chosen MIME
      explicitly, and a recorder constructor rejects an unsupported explicit
      type; the modal passes none. */
  predicate Constructs(f: Flavor, supported: set<string>) {
    f.DetailModal? || ChooseMime(supported) in supported
  }

  function MimeFor(f: Flavor, supported: set<string>, browserMime: string): string {
    match f
    case DetailPage => ChooseMime(supported)
    case DetailModal => browserMime
  }

  /** The synchronous part of `startRecording`: the error and the old
      recording are cleared and the microphone is asked for; nothing else
      changes until the answer comes. */
  function StartPressed(s: Session): (t: Session)
    ensures t.error == None && t.recorded == None && t.asking == s.asking + 1
    ensures t.recorder == s.recorder && t.chunks == s.chunks && t.isRecording == s.isRecording
    ensures t.liveStreams == s.liveStreams && t.mounted == s.mounted
  {
    s.(error := None, recorded := None, asking := s.asking + 1)
  }

  /** The rest of `startRecording`, once `getUserMedia` settles. A grant holds
      a stream; when the recorder can be built it replaces the reference
      without stopping the old one, starts with empty chunks, and the flag
      goes up. Denial, or a recorder that cannot be built, shows the view's
      denial message. On a torn-down view the state setters do nothing, but the
      refs and the stream are real: a grant still builds and starts a
      recorder. */
  function StartSettled(f: Flavor, s: Session, granted: bool, supported: set<string>, browserMime: string): (t: Session)
    requires s.asking > 0
    ensures t.asking == s.asking - 1 && t.mounted == s.mounted && t.recorded == s.recorded
    ensures t.liveStreams == s.liveStreams + (if granted then 1 else 0)
    ensures granted && Constructs(f, supported) ==>
      && t.recorder == Some(Recorder(Recording, MimeFor(f, supported, browserMime), true))
      && t.chunks == [] && t.error == s.error
      && t.isRecording == (s.mounted || s.isRecording)
    ensures !(granted && Constructs(f, supported)) ==>
      && t.recorder == s.recorder && t.chunks == s.chunks && t.isRecording == s.isRecording
      && t.error == (if s.mounted then Some(DeniedMessage(f)) else s.error)
  {
    var answered := s.(asking := s.asking - 1);
    var held := if granted then answered.(liveStreams := s.liveStreams + 1) else answered;
    if !granted || !Constructs(f, supported) then
      // a denial, or a stream acquired that no recorder owns
      if s.mounted then held.(error := Some(DeniedMessage(f))) else held
    else
      var started := held.(recorder := Some(Recorder(Recording, MimeFor(f, supported, browserMime), true)), chunks := []);
      if s.mounted then started.(isRecording := true) else started
  }

  /** The chunks one `dataavailable` event contributes: the page drops empty
      chunks, the modal keeps all. */
  function Kept(f: Flavor, size: nat): seq<nat> {
    if f.DetailPage? && size == 0 then [] else [size]
  }

  /** `ondataavailable`: append the chunk, if a recorder has been built. */
  function OnData(f: Flavor, s: Session, size: nat): (t: Session)
    ensures s.recorder.None? ==> t == s
    ensures s.recorder.Some? ==> t == s.(chunks := s.chunks + Kept(f, size))
  {
    if s.recorder.None? then s else s.(chunks := s.chunks + Kept(f, size))
  }

  /** The type the blob is given: the page's chosen type; the modal's
      recorder type or `Webm` when the recorder reports none. */
  function BlobType(f: Flavor, r: Recorder): string {
    match f
    case DetailPage => r.mimeType
    case DetailModal => if r.mimeType != "" then r.mimeType else Webm
  }

  /** `onstop`: turn the accumulated chunks into the recording. The page makes
      none from zero chunks; the modal always makes one. */
  function OnStop(f: Flavor, s: Session): (t: Session)
    ensures s.recorder.None? ==> t == s
    ensures s.recorder.Some? && (f.DetailModal? || |s.chunks| > 0) ==>
      t == s.(recorded := Some(Blob(s.chunks, BlobType(f, s.recorder.value))))
    ensures s.recorder.Some? && f.DetailPage? && |s.chunks| == 0 ==> t == s
  {
    if s.recorder.None? then s
    else if f.DetailPage? && |s.chunks| == 0 then s
    else s.(recorded := Some(Blob(s.chunks, BlobType(f, s.recorder.value))))
  }

  /** The condition under which the stop button acts: the page asks the
      recorder, the modal trusts its own flag. */
  predicate StopGuard(f: Flavor, s: Session) {
    s.recorder.Some? &&
    match f
    case DetailPage => s.recorder.value.state == Recording
    case DetailModal => s.isRecording
  }

  /** `stopRecording`: stop the recorder, clear the flag, stop the tracks. */
  function StopRecording(f: Flavor, s: Session): (t: Session)
    ensures !StopGuard(f, s) ==> t == s
    ensures StopGuard(f, s) ==>
      && t.recorder == Some(s.recorder.value.(state := Inactive, tracksLive := false))
      && !t.isRecording
      && t.chunks == s.chunks && t.recorded == s.recorded
  {
    if !StopGuard(f, s) then s
    else
      var r := s.recorder.value;
      s.(recorder := Some(r.(state := Inactive, tracksLive := false)),
         isRecording := false,
         liveStreams := if r.tracksLive && s.liveStreams > 0 then s.liveStreams - 1 else s.liveStreams)
  }

  /** Teardown: the view is gone; a recorder still recording is stopped, but
      its microphone tracks are not. */
  function OnTeardown(s: Session): (t: Session)
    ensures !t.mounted && t.liveStreams == s.liveStreams && t.isRecording == s.isRecording
    ensures s.recorder.Some? && s.recorder.value.state == Recording ==>
      t.recorder == Some(s.recorder.value.(state := Inactive))
    ensures t.recorder.Some? ==> t.recorder.value.state == Inactive
    ensures t.recorder.Some? <==> s.recorder.Some?
  {
    var s1 := s.(mounted := false);
    if s.recorder.Some? && s.recorder.value.state == Recording then
      s1.(recorder := Some(s.recorder.value.(state := Inactive)))
    else
      assert s.recorder.Some? ==> s.recorder.value.state != Recording;
      s1
  }

  /** One event. An answer comes only to a request that was made. Once the
      view is torn down its button is gone and nothing it shows changes any
      more; only a pending microphone answer still acts, on the refs and the
      stream. */
  function Step(f: Flavor, s: Session, e: Event): (t: Session)
    ensures e.Answer? && s.asking == 0 ==> t == s
    ensures e.Answer? && s.asking > 0 ==> t == StartSettled(f, s, e.granted, e.supported, e.browserMime)
    ensures !s.mounted && !e.Answer? ==> t == s
    ensures !s.mounted ==>
      !t.mounted && t.error == s.error && t.recorded == s.recorded && t.isRecording == s.isRecording
    ensures s.mounted && e.Press? ==> t == StartPressed(s)
    ensures s.mounted && e.Teardown? ==> t == OnTeardown(s)
  {
    if e.Answer? then
      if s.asking == 0 then s else StartSettled(f, s, e.granted, e.supported, e.browserMime)
    else if !s.mounted then s
    else
      match e
      case Press => StartPressed(s)
      case Answer(_, _, _) => s
      case Data(size) => OnData(f, s, size)
      case StopPressed => StopRecording(f, s)
      case RecorderStopped => OnStop(f, s)
      case Teardown => OnTeardown(s)
  }

  function Run(f: Flavor, s: Session, events: seq<Event>): Session
    decreases |events|
  {
    if |events| == 0 then s else Run(f, Step(f, s, events[0]), events[1..])
  }

  /** Running two traces one after the other is running their concatenation. */
  lemma {:induction false} RunAppend(f: Flavor, s: Session, a: seq<Event>, b: seq<Event>)
    ensures Run(f, s, a + b) == Run(f, Run(f, s, a), b)
    decreases |a|
  {
    if |a| == 0 {
      assert a + b == b;
    } else {
      assert (a + b)[0] == a[0];
      assert (a + b)[1..] == a[1..] + b;
      RunAppend(f, Step(f, s, a[0]), a[1..], b);
    }
  }

  /** One `dataavailable` event per size, in order. */
  function DataEvents(sizes: seq<nat>): (r: seq<Event>)
    ensures |r| == |sizes|
    ensures forall i :: 0 <= i < |sizes| ==> r[i] == Data(sizes[i])
    decreases |sizes|
  {
    if |sizes| == 0 then [] else [Data(sizes[0])] + DataEvents(sizes[1..])
  }

  function Positive(size: nat): bool { size > 0 }

  /** The chunks a sequence of sizes contributes, in arrival order. */
  function KeptAll(f: Flavor, sizes: seq<nat>): seq<nat>
    decreases |sizes|
  {
    if |sizes| == 0 then [] else Kept(f, sizes[0]) + KeptAll(f, sizes[1..])
  }

  /** The kept chunks against an independent reference: the page keeps exactly
      the non-empty chunks in arrival order, the modal keeps all of them. */
  lemma {:induction false} KeptAllIsFilter(f: Flavor, sizes: seq<nat>)
    ensures f.DetailPage? ==> KeptAll(f, sizes) == Seqs.Filter(sizes, Positive)
    ensures f.DetailModal? ==> KeptAll(f, sizes) == sizes
    decreases |sizes|
  {
    if |sizes| > 0 {
      KeptAllIsFilter(f, sizes[1..]);
      if f.DetailPage? {
        Seqs.FilterCons(sizes, Positive);
      } else {
        assert sizes == [sizes[0]] + sizes[1..];
      }
    }
  }

  /** Helper: running a trace that starts with `e`. */
  lemma RunCons(f: Flavor, s: Session, e: Event, rest: seq<Event>)
    ensures Run(f, s, [e] + rest) == Run(f, Step(f, s, e), rest)
  {
    assert ([e] + rest)[0] == e;
    assert ([e] + rest)[1..] == rest;
  }

  /** Helper: the data events of a non-empty run of sizes. */
  lemma DataEventsCons(sizes: seq<nat>)
    requires |sizes| > 0
    ensures DataEvents(sizes) == [Data(sizes[0])] + DataEvents(sizes[1..])
  {
  }

  /** Helper: one data event on a live recorder appends its kept chunk. */
  lemma StepData(f: Flavor, s: Session, size: nat)
    requires s.mounted && s.recorder.Some?
    ensures Step(f, s, Data(size)) == s.(chunks := s.chunks + Kept(f, size))
  {
  }

  /** Chunk accumulation: over a run of data events the chunk list grows by
      exactly the kept chunks, in arrival order, and nothing else changes. */
  lemma {:induction false} DataAccumulates(f: Flavor, s: Session, sizes: seq<nat>)
    requires s.mounted && s.recorder.Some?
    ensures Run(f, s, DataEvents(sizes)) == s.(chunks := s.chunks + KeptAll(f, sizes))
    decreases |sizes|
  {
    if |sizes| == 0 {
      assert s.chunks + KeptAll(f, sizes) == s.chunks;
    } else {
      var rest := DataEvents(sizes[1..]);
      var s1 := s.(chunks := s.chunks + Kept(f, sizes[0]));
      DataEventsCons(sizes);
      StepData(f, s, sizes[0]);
      calc {
        Run(f, s, DataEvents(sizes));
        { RunCons(f, s, Data(sizes[0]), rest); }
        Run(f, s1, rest);
        { DataAccumulates(f, s1, sizes[1..]); }
        s1.(chunks := s1.chunks + KeptAll(f, sizes[1..]));
        { assert s1.chunks + KeptAll(f, sizes[1..]) == s.chunks + KeptAll(f, sizes); }
        s.(chunks := s.chunks + KeptAll(f, sizes));
      }
    }
  }

  /** Helper: a press answered at once on a mounted view. */
  lemma PressAnswered(f: Flavor, s: Session, a: Event, rest: seq<Event>)
    requires s.mounted && a.Answer?
    ensures Run(f, s, [Press, a] + rest)
      == Run(f, StartSettled(f, StartPressed(s), a.granted, a.supported, a.browserMime), rest)
  {
    assert [Press, a] + rest == [Press] + ([a] + rest);
    RunCons(f, s, Press, [a] + rest);
    RunCons(f, StartPressed(s), a, rest);
  }

  /** A full practice take: the button goes down, permission is granted,
      chunks arrive, the button goes up and the recorder reports `stop`. The
      recording holds the kept chunks of the chosen type; the page makes none
      when every chunk was empty; the one microphone stream is released. */
  lemma RecordTake(f: Flavor, supported: set<string>, browserMime: string, sizes: seq<nat>)
    requires Constructs(f, supported)
    ensures var t := Run(f, Idle, [Press, Answer(true, supported, browserMime)] + DataEvents(sizes) + [StopPressed, RecorderStopped]);
      var kept := KeptAll(f, sizes);
      var blobType := BlobType(f, Recorder(Recording, MimeFor(f, supported, browserMime), true));
      && (t.recorded.Some? <==> f.DetailModal? || |kept| > 0)
      && (t.recorded.Some? ==> t.recorded.value == Blob(kept, blobType))
      && !t.isRecording && t.liveStreams == 0 && t.error == None
  {
    var answer := Answer(true, supported, browserMime);
    var s1 := StartSettled(f, StartPressed(Idle), true, supported, browserMime);
    var datas := DataEvents(sizes);
    var stops := [StopPressed, RecorderStopped];
    assert [Press, answer] + datas + stops == [Press, answer] + (datas + stops);
    PressAnswered(f, Idle, answer, datas + stops);
    RunAppend(f, s1, datas, stops);
    DataAccumulates(f, s1, sizes);
    var s2 := s1.(chunks := KeptAll(f, sizes));
    RunCons(f, s2, StopPressed, [RecorderStopped]);
    RunCons(f, StopRecording(f, s2), RecorderStopped, []);
  }

  /** Starting again while recording overwrites the recorder: the first
      recorder is no longer reachable, so releasing the button afterwards
      releases only the new stream and one microphone stream stays live. */
  lemma RestartLeaksStream(f: Flavor, supported: set<string>, browserMime: string)
    requires Constructs(f, supported)
    ensures var a := Answer(true, supported, browserMime);
      var t := Run(f, Idle, [Press, a, Press, a, StopPressed]);
      t.liveStreams == 1 && !t.isRecording
  {
    var a := Answer(true, supported, browserMime);
    var s1 := StartSettled(f, StartPressed(Idle), true, supported, browserMime);
    var s2 := StartSettled(f, StartPressed(s1), true, supported, browserMime);
    assert [Press, a, Press, a, StopPressed] == [Press, a] + ([Press, a] + [StopPressed]);
    PressAnswered(f, Idle, a, [Press, a] + [StopPressed]);
    PressAnswered(f, s1, a, [StopPressed]);
    RunCons(f, s2, StopPressed, []);
  }

  /** Unmounting while recording stops the recorder but keeps the microphone:
      the stream is still live afterwards. */
  lemma TeardownKeepsMicrophone(f: Flavor, supported: set<string>, browserMime: string)
    requires Constructs(f, supported)
    ensures var t := Run(f, Idle, [Press, Answer(true, supported, browserMime), Teardown]);
      && t.recorder.Some? && t.recorder.value.state == Inactive
      && t.recorder.value.tracksLive && t.liveStreams == 1 && !t.mounted
  {
    var a := Answer(true, supported, browserMime);
    var s1 := StartSettled(f, StartPressed(Idle), true, supported, browserMime);
    PressAnswered(f, Idle, a, [Teardown]);
    RunCons(f, s1, Teardown, []);
  }

  /** The button is held to record, but releasing it before permission is
      granted stops nothing: no recorder exists yet. The grant then starts a
      recorder that keeps recording with its stream live, button up. */
  lemma ReleaseBeforeGrantKeepsRecording(f: Flavor, supported: set<string>, browserMime: string)
    requires Constructs(f, supported)
    ensures var t := Run(f, Idle, [Press, StopPressed, Answer(true, supported, browserMime)]);
      && t.isRecording && t.recorder.Some? && t.recorder.value.state == Recording
      && t.recorder.value.tracksLive && t.liveStreams == 1 && t.error == None
  {
    var a := Answer(true, supported, browserMime);
    var s1 := StartPressed(Idle);
    assert StopRecording(f, s1) == s1;
    assert [Press, StopPressed, a] == [Press] + ([StopPressed] + [a]);
    RunCons(f, Idle, Press, [StopPressed] + [a]);
    RunCons(f, s1, StopPressed, [a]);
    RunCons(f, s1, a, []);
  }

  /** A view torn down while its microphone request is pending: the grant
      still builds and starts a recorder on the refs, holding a live stream
      that nothing on the gone view can stop, while the view's own flag never
      went up. */
  lemma GrantAfterTeardownLeaks(f: Flavor, supported: set<string>, browserMime: string)
    requires Constructs(f, supported)
    ensures var t := Run(f, Idle, [Press, Teardown, Answer(true, supported, browserMime)]);
      && !t.mounted && !t.isRecording && t.asking == 0
      && t.recorder == Some(Recorder(Recording, MimeFor(f, supported, browserMime), true))
      && t.liveStreams == 1
      && (forall more: seq<Event> :: (forall i :: 0 <= i < |more| ==> !more[i].Answer?) ==> Run(f, t, more) == t)
  {
    var a := Answer(true, supported, browserMime);
    var s1 := StartPressed(Idle);
    var s2 := OnTeardown(s1);
    assert [Press, Teardown, a] == [Press] + ([Teardown] + [a]);
    RunCons(f, Idle, Press, [Teardown] + [a]);
    RunCons(f, s1, Teardown, [a]);
    RunCons(f, s2, a, []);
    var t := StartSettled(f, s2, true, supported, browserMime);
    forall more: seq<Event> | forall i :: 0 <= i < |more| ==> !more[i].Answer?
      ensures Run(f, t, more) == t
    {
      FrozenWithoutAnswers(f, t, more);
    }
  }

  /** Helper: a torn-down view with no answer arriving never changes. */
  lemma {:induction false} FrozenWithoutAnswers(f: Flavor, s: Session, more: seq<Event>)
    requires !s.mounted
    requires forall i :: 0 <= i < |more| ==> !more[i].Answer?
    ensures Run(f, s, more) == s
    decreases |more|
  {
    if |more| > 0 {
      assert !more[0].Answer?;
      FrozenWithoutAnswers(f, s, more[1..]);
    }
  }
}
