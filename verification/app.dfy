/** The orchestration in `renderer/App.jsx`: the transcript accumulator with its
    2000 ms fallback timer, the translation log fed by streamed deltas, the
    voice-mode and subtitle-mode glue, `stopListening` and the font-size bounds.
    Server events, timer firings and UI actions are the inputs of `Step`; the
    calls the app makes on the connection and the capture are its outputs. */
module App {
  import opened Common
  import opened JsText
  import Timers
  import Config
  import Readiness
  import Subtitle
  import Playback
  import Chunking

  const SentenceTimeoutMs := 2000
  const SpeakingGraceMs := 500
  const MinFontSize := 0
  const MaxFontSize := 5

  /** The subtitle line width: the subtitle view reports `Math.max(10, ...)`,
      and the app starts from 50. */
  type LineWidth = n: int | n >= 10 witness 50

  /** The app's state and refs that take part in the pipeline. */
  datatype App = App(
    accumulated: string,
    sentenceTimer: Timers.Slot,
    originalText: seq<string>,
    translatedText: seq<string>,
    currentTranslation: string,
    status: Status,
    listening: bool,
    fontSize: int,
    voiceMode: bool,
    subtitleMode: bool,
    speakingTTS: bool,
    graceTimers: nat,
    maxChars: LineWidth,
    pacer: Subtitle.Pacer,
    player: Playback.Player)

  const Initial := App("", Timers.Idle, [], [], "", Status(Ready, "Ready"), false, 2,
                       false, false, false, 0, 50, Subtitle.Initial, Playback.Initial)

  /** What the app asks of the other hooks. `batch` is the accumulated text a
      response request was issued for; the request itself sends no text (the
      source only logs it), so `batch` records which speech the request covers. */
  datatype Effect = RequestResponse(batch: string) | StopCapture | Disconnect

  datatype Event =
    | Transcription(transcript: Option<string>)
    | SentenceTimeout(id: nat)
    | TextDelta(delta: string)
    | TextDone
    | AudioDelta(present: bool, now: real, bytes: nat)
    | AudioDone
    | SpeakingGraceElapsed
    | ResponseDone
    | ServerError(message: Option<string>)
    | StartRequested
    | ListeningStarted
    | StopListening
    | ClearTranscripts
    | IncreaseFont
    | DecreaseFont
    | SetVoiceMode(on: bool)
    | SetSubtitleMode(on: bool)
    | SetMaxChars(width: LineWidth)
    | SubtitleTimer(id: nat)

  // ------------------------------------------------------------- the accumulator

  /** `a + (a ? ' ' : '') + b`, and symmetric in dropping empty sides. */
  function Glue(a: string, b: string): (r: string)
    ensures r == "" <==> a == "" && b == ""
  {
    if a == "" then b else if b == "" then a else a + " " + b
  }

  /** The transcripts that reach the accumulator: present, non-blank after
      trimming, and not a hallucination. */
  predicate Accepted(transcript: Option<string>) {
    transcript.Some? && Trim(transcript.value) != "" && !Config.IsHallucination(Trim(transcript.value))
  }

  /** `tryRequestResponse()`: with text accumulated, cancel the fallback timer,
      take the text and issue one response request; otherwise nothing. */
  function TryRequestResponse(a: App): (r: (App, seq<Effect>))
    ensures a.accumulated == "" ==> r == (a, [])
    ensures a.accumulated != "" ==>
      r.1 == [RequestResponse(a.accumulated)] && r.0.accumulated == "" &&
      (Timers.Valid(a.sentenceTimer) ==> Timers.Valid(r.0.sentenceTimer) && !Timers.Armed(r.0.sentenceTimer))
    ensures r.0.originalText == a.originalText && r.0.status == a.status
  {
    if a.accumulated == "" then (a, [])
    else (a.(sentenceTimer := Timers.Cancel(a.sentenceTimer), accumulated := ""),
          [RequestResponse(a.accumulated)])
  }

  /** The transcription-completed branch of `handleServerEvent`. */
  function OnTranscription(a: App, transcript: Option<string>): (r: (App, seq<Effect>))
    ensures !Accepted(transcript) ==> r == (a, [])
    ensures Accepted(transcript) ==>
      var t := Trim(transcript.value);
      var joined := a.accumulated + (if a.accumulated != "" then " " else "") + t;
      r.0.originalText == a.originalText + [t] &&
      (Readiness.ShouldRequestTranslation(joined).should ==>
         r.1 == [RequestResponse(joined)] && r.0.accumulated == "" &&
         r.0.status == Status(Processing, "Translating...")) &&
      (!Readiness.ShouldRequestTranslation(joined).should ==>
         r.1 == [] && r.0.accumulated == joined && Timers.Armed(r.0.sentenceTimer) &&
         r.0.status == Status(Listening, "Listening..."))
    ensures Valid(a) ==> Valid(r.0)
  {
    if !Accepted(transcript) then (a, [])
    else
      var t := Trim(transcript.value);
      var joined := a.accumulated + (if a.accumulated != "" then " " else "") + t;
      var a1 := a.(originalText := a.originalText + [t], accumulated := joined,
                   sentenceTimer := Timers.Cancel(a.sentenceTimer));
      if Readiness.ShouldRequestTranslation(joined).should then
        TryRequestResponse(a1.(status := Status(Processing, "Translating...")))
      else
        (a1.(status := Status(Listening, "Listening..."), sentenceTimer := Timers.Arm(a1.sentenceTimer)), [])
  }

  /** The fallback timer `id` fires: it requests only if text is still waiting. */
  function OnSentenceTimeout(a: App, id: nat): (r: (App, seq<Effect>))
    ensures id !in a.sentenceTimer.pending ==> r == (a, [])
    ensures id in a.sentenceTimer.pending && a.accumulated != "" ==>
      r.1 == [RequestResponse(a.accumulated)] && r.0.accumulated == ""
    ensures a.accumulated == "" ==> r.1 == [] && r.0.accumulated == ""
    ensures Valid(a) ==> Valid(r.0)
  {
    if id !in a.sentenceTimer.pending then (a, [])
    else
      FiredWasOnly(a.sentenceTimer, id);
      var a1 := a.(sentenceTimer := Timers.Fire(a.sentenceTimer, id));
      if a1.accumulated != "" then
        TryRequestResponse(a1.(status := Status(Processing, "Translating...")))
      else (a1, [])
  }

  /** `stopListening()`. */
  function OnStopListening(a: App): (r: (App, seq<Effect>))
    ensures r.0.accumulated == "" && !r.0.listening && r.0.status == Status(Ready, "Ready")
    ensures Timers.Valid(a.sentenceTimer) ==> !Timers.Armed(r.0.sentenceTimer)
    ensures r.1 == [StopCapture, Disconnect]
    ensures r.0.player == Playback.ResetTiming(a.player)
    ensures Valid(a) ==> Valid(r.0)
  {
    (a.(listening := false, accumulated := "", sentenceTimer := Timers.Cancel(a.sentenceTimer),
        player := Playback.ResetTiming(a.player), status := Status(Ready, "Ready")),
     [StopCapture, Disconnect])
  }

  /** The subtitle-feeding effect hands a translation over: subtitles are on,
      no translation is streaming, and the log has an entry past the last one
      handed over. */
  predicate HandsOver(a: App) {
    a.subtitleMode && a.currentTranslation == "" &&
    |a.translatedText| > 0 && |a.translatedText| - 1 > a.pacer.lastProcessed
  }

  /** The subtitle-feeding effect: once a translation is complete and not yet
      handed over, chunk it into the pacer and start the pacer, unless voice
      mode must wait for the audio to start playing. Only the latest entry of
      the translation log is handed over. */
  function FeedSubtitles(a: App): (r: App)
    ensures !HandsOver(a) ==> r == a
    ensures Subtitle.Valid(a.pacer) ==> Subtitle.Valid(r.pacer)
    ensures r == a.(pacer := r.pacer)
  {
    if !HandsOver(a) then a
    else
      a.(pacer := HandOver(a))
  }

  /** The pacer after the latest translation is handed over. */
  function HandOver(a: App): Subtitle.Pacer
    requires HandsOver(a)
  {
    var latest := |a.translatedText| - 1;
    var p1 := Subtitle.AddTranslation(a.pacer.(lastProcessed := latest), a.translatedText[latest], a.maxChars);
    Launch(p1, a.voiceMode, a.player.playing)
  }

  /** Starting the pacer after a hand-over: a running pacer is left alone; in
      voice mode the start is deferred until audio plays. */
  function Launch(p: Subtitle.Pacer, voiceMode: bool, playing: bool): Subtitle.Pacer {
    if p.processing then p
    else if voiceMode then
      var p2 := p.(pendingStart := true);
      if playing then Subtitle.StartProcessing(p2).pacer.(pendingStart := false) else p2
    else Subtitle.StartProcessing(p).pacer
  }

  /** Launching keeps the timing basis and the processed mark, and either
      leaves the queue as it was or moves its head on screen. */
  lemma LaunchCases(p: Subtitle.Pacer, voiceMode: bool, playing: bool)
    ensures var r := Launch(p, voiceMode, playing);
      r.lastProcessed == p.lastProcessed && r.timings == p.timings &&
      (r.queue == p.queue ||
       (|p.queue| > 0 && r.current == p.queue[0] && r.queue == p.queue[1..] && r.processing))
    ensures !p.processing && !voiceMode ==> (Launch(p, voiceMode, playing).processing <==> |p.queue| > 0)
    ensures !p.processing && voiceMode && !playing ==>
      Launch(p, voiceMode, playing).pendingStart && !Launch(p, voiceMode, playing).processing
  {
    if !p.processing {
      if voiceMode {
        if playing { Subtitle.StartShowsHead(p.(pendingStart := true)); }
      } else {
        Subtitle.StartShowsHead(p);
      }
    }
  }

  /** When the latest translation is handed over, its chunks join the end of
      the queue (the first may already be on screen), they become the timing
      basis, and the pacer starts: at once outside voice mode, and in voice mode
      only once audio is playing. */
  lemma FeedHandsOver(a: App)
    requires HandsOver(a)
    ensures var r := FeedSubtitles(a);
      var chunks := Chunking.SplitTextIntoChunks(a.translatedText[|a.translatedText| - 1], a.maxChars);
      var queued := a.pacer.queue + chunks;
      r.pacer.lastProcessed == |a.translatedText| - 1 &&
      r.pacer.timings == chunks &&
      (r.pacer.queue == queued ||
       (|queued| > 0 && r.pacer.current == queued[0] && r.pacer.queue == queued[1..] && r.pacer.processing))
    ensures !a.pacer.processing && !a.voiceMode ==>
      (FeedSubtitles(a).pacer.processing <==>
       |a.pacer.queue| + |Chunking.SplitTextIntoChunks(a.translatedText[|a.translatedText| - 1], a.maxChars)| > 0)
    ensures !a.pacer.processing && a.voiceMode && !a.player.playing ==>
      FeedSubtitles(a).pacer.pendingStart && !FeedSubtitles(a).pacer.processing
  {
    var latest := |a.translatedText| - 1;
    assert FeedSubtitles(a).pacer == HandOver(a);
    assert HandOver(a) ==
      Launch(Subtitle.AddTranslation(a.pacer.(lastProcessed := latest), a.translatedText[latest], a.maxChars),
             a.voiceMode, a.player.playing);
    LaunchAdded(a.pacer, latest, a.translatedText[latest], a.maxChars, a.voiceMode, a.player.playing);
  }

  /** `LaunchCases` for a pacer that has just been handed `text`. */
  lemma LaunchAdded(p: Subtitle.Pacer, latest: int, text: string, maxChars: int, voiceMode: bool, playing: bool)
    requires maxChars >= 1
    ensures var r := Launch(Subtitle.AddTranslation(p.(lastProcessed := latest), text, maxChars), voiceMode, playing);
      var chunks := Chunking.SplitTextIntoChunks(text, maxChars);
      var queued := p.queue + chunks;
      r.lastProcessed == latest && r.timings == chunks &&
      (r.queue == queued ||
       (|queued| > 0 && r.current == queued[0] && r.queue == queued[1..] && r.processing))
    ensures var r := Launch(Subtitle.AddTranslation(p.(lastProcessed := latest), text, maxChars), voiceMode, playing);
      var chunks := Chunking.SplitTextIntoChunks(text, maxChars);
      (!p.processing && !voiceMode ==> (r.processing <==> |p.queue| + |chunks| > 0)) &&
      (!p.processing && voiceMode && !playing ==> r.pendingStart && !r.processing)
  {
    LaunchCases(Subtitle.AddTranslation(p.(lastProcessed := latest), text, maxChars), voiceMode, playing);
  }

  /** The remaining branches of `handleServerEvent` and the UI handlers. */
  function Handle(a: App, e: Event): (App, seq<Effect>) {
    match e
    case Transcription(t) => OnTranscription(a, t)
    case SentenceTimeout(id) => OnSentenceTimeout(a, id)
    case TextDelta(delta) => (OnTextDelta(a, delta), [])
    case TextDone => (OnTextDone(a), [])
    case AudioDelta(present, now, bytes) => (OnAudioDelta(a, present, now, bytes), [])
    case AudioDone => (a.(player := Playback.OnAudioDone(a.player), graceTimers := a.graceTimers + 1), [])
    case SpeakingGraceElapsed =>
      if a.graceTimers > 0 then (a.(speakingTTS := false, graceTimers := a.graceTimers - 1), []) else (a, [])
    case ResponseDone => (a.(status := Status(Connected, "Connected")), [])
    case ServerError(message) =>
      (a.(status := Status(Error, if message.Some? && message.value != "" then message.value else "Error")), [])
    case StartRequested => (a.(status := Status(Connecting, "Connecting...")), [])
    case ListeningStarted => (a.(listening := true, status := Status(Connected, "Speak now")), [])
    case StopListening => OnStopListening(a)
    case ClearTranscripts => (a.(originalText := [], translatedText := [], currentTranslation := ""), [])
    case IncreaseFont => (IncreaseFontSize(a), [])
    case DecreaseFont => (DecreaseFontSize(a), [])
    case SetVoiceMode(on) => (a.(voiceMode := on, player := Playback.SetEnabled(a.player, on)), [])
    case SetSubtitleMode(on) =>
      (a.(subtitleMode := on, pacer := if on then a.pacer else Subtitle.Clear(a.pacer)), [])
    case SetMaxChars(width) => (a.(maxChars := width), [])
    case SubtitleTimer(id) => (a.(pacer := Subtitle.TimerFired(a.pacer, id).pacer), [])
  }

  /** One input followed by the subtitle-feeding effect. */
  function Step(a: App, e: Event): (App, seq<Effect>) {
    var r := Handle(a, e);
    (FeedSubtitles(r.0), r.1)
  }

  /** A text or audio-transcript delta is appended to the streaming translation. */
  function OnTextDelta(a: App, delta: string): (r: App)
    ensures r.currentTranslation == a.currentTranslation + delta
    ensures r == a.(currentTranslation := r.currentTranslation)
  {
    if delta != "" then a.(currentTranslation := a.currentTranslation + delta) else a
  }

  /** A finished translation moves from the stream into the log. */
  function OnTextDone(a: App): (r: App)
    ensures a.currentTranslation == "" ==> r == a
    ensures a.currentTranslation != "" ==>
      r.translatedText == a.translatedText + [a.currentTranslation] && r.currentTranslation == ""
    ensures r.accumulated == a.accumulated && r.originalText == a.originalText
  {
    if a.currentTranslation != "" then
      a.(translatedText := a.translatedText + [a.currentTranslation], currentTranslation := "")
    else a
  }

  /** An audio delta in voice mode is played; the speaking flag goes up, and a
      subtitle start deferred until audio plays happens now. A chunk that makes
      no audio buffer throws out of the handler, so only the player's context
      has been opened. */
  function OnAudioDelta(a: App, present: bool, now: real, bytes: nat): (r: App)
    ensures !present || !a.voiceMode ==> r == a
    ensures present && a.voiceMode && Playback.PlayAudioChunk(a.player, now, bytes).1.Threw? ==>
      r == a.(player := a.player.(contextOpen := true))
    ensures present && a.voiceMode && !Playback.PlayAudioChunk(a.player, now, bytes).1.Threw? ==>
      r.speakingTTS && r.player == Playback.PlayAudioChunk(a.player, now, bytes).0
    ensures present && a.voiceMode && !Playback.PlayAudioChunk(a.player, now, bytes).1.Threw? &&
            a.subtitleMode && a.pacer.pendingStart && |a.pacer.queue| > 0 ==>
      !r.pacer.pendingStart && (a.pacer.processing || r.pacer.processing)
    ensures Subtitle.Valid(a.pacer) ==> Subtitle.Valid(r.pacer)
  {
    if !present || !a.voiceMode then a
    else
      var played := Playback.PlayAudioChunk(a.player, now, bytes);
      if played.1.Threw? then a.(player := played.0)
      else
        var a1 := a.(player := played.0, speakingTTS := true);
        if a1.subtitleMode && a1.pacer.pendingStart && |a1.pacer.queue| > 0 then
          a1.(pacer := Subtitle.StartProcessing(a1.pacer.(pendingStart := false)).pacer)
        else a1
  }

  function IncreaseFontSize(a: App): (r: App)
    ensures MinFontSize <= a.fontSize <= MaxFontSize ==> MinFontSize <= r.fontSize <= MaxFontSize
    ensures r.fontSize == if a.fontSize < MaxFontSize then a.fontSize + 1 else a.fontSize
  {
    if a.fontSize < MaxFontSize then a.(fontSize := a.fontSize + 1) else a
  }

  function DecreaseFontSize(a: App): (r: App)
    ensures MinFontSize <= a.fontSize <= MaxFontSize ==> MinFontSize <= r.fontSize <= MaxFontSize
    ensures r.fontSize == if a.fontSize > MinFontSize then a.fontSize - 1 else a.fontSize
  {
    if a.fontSize > MinFontSize then a.(fontSize := a.fontSize - 1) else a
  }

  // ------------------------------------------------------------- invariant

  /** The accumulator's timer discipline: at most one fallback timer is pending,
      and one is pending exactly while text is waiting, so no accepted speech is
      left without a request on its way. Together with the pacer's discipline
      and the font-size bounds. */
  ghost predicate Valid(a: App) {
    Timers.Valid(a.sentenceTimer) &&
    (a.accumulated != "" <==> Timers.Armed(a.sentenceTimer)) &&
    MinFontSize <= a.fontSize <= MaxFontSize &&
    Subtitle.Valid(a.pacer)
  }

  // ------------------------------------------------------------- traces

  function Requests(effs: seq<Effect>): seq<string> {
    if |effs| == 0 then []
    else (if effs[0].RequestResponse? then [effs[0].batch] else []) + Requests(effs[1..])
  }

  datatype Outcome = Outcome(final: App, requests: seq<string>)

  function Run(a: App, evs: seq<Event>): Outcome
    decreases |evs|
  {
    if |evs| == 0 then Outcome(a, [])
    else
      var s := Step(a, evs[0]);
      var rest := Run(s.0, evs[1..]);
      Outcome(rest.final, Requests(s.1) + rest.requests)
  }

  /** The transcripts of a trace that reach the accumulator, trimmed. */
  function AcceptedTranscripts(evs: seq<Event>): seq<string> {
    if |evs| == 0 then [] else AcceptedOf(evs[0]) + AcceptedTranscripts(evs[1..])
  }

  /** The transcript one event adds to the accumulator, if any. */
  function AcceptedOf(e: Event): seq<string> {
    if e.Transcription? && Accepted(e.transcript) then [Trim(e.transcript.value)] else []
  }

  /** Strings joined with single spaces, skipping empty ones. */
  function Joined(xs: seq<string>): string {
    if |xs| == 0 then "" else Glue(xs[0], Joined(xs[1..]))
  }

  predicate NoStop(evs: seq<Event>) {
    forall i :: 0 <= i < |evs| ==> !evs[i].StopListening?
  }

  predicate NoClearTranscripts(evs: seq<Event>) {
    forall i :: 0 <= i < |evs| ==> !evs[i].ClearTranscripts?
  }

  /** The text deltas of a trace, in order. */
  function Deltas(evs: seq<Event>): string {
    if |evs| == 0 then "" else DeltaOf(evs[0]) + Deltas(evs[1..])
  }

  // ------------------------------------------------------------- lemmas

  lemma GlueAssoc(a: string, b: string, c: string)
    ensures Glue(Glue(a, b), c) == Glue(a, Glue(b, c))
  {
  }

  lemma {:induction false} JoinedAppend(xs: seq<string>, ys: seq<string>)
    ensures Joined(xs + ys) == Glue(Joined(xs), Joined(ys))
    decreases |xs|
  {
    if |xs| == 0 {
      assert xs + ys == ys;
    } else {
      assert (xs + ys)[0] == xs[0];
      assert (xs + ys)[1..] == xs[1..] + ys;
      JoinedAppend(xs[1..], ys);
      GlueAssoc(xs[0], Joined(xs[1..]), Joined(ys));
    }
  }

  lemma JoinedSingle(x: string)
    ensures Joined([x]) == x
  {
    assert Joined([x]) == Glue(x, Joined([]));
  }

  /** An accepted transcript is either requested together with the waiting
      text, or joined to it. */
  lemma TranscriptionKeepsSpeech(a: App, t: Option<string>)
    ensures var r := OnTranscription(a, t);
      Glue(Joined(Requests(r.1)), r.0.accumulated) ==
      Glue(a.accumulated, Joined(if Accepted(t) then [Trim(t.value)] else []))
    ensures forall b :: b in Requests(OnTranscription(a, t).1) ==> b != ""
  {
    var r := OnTranscription(a, t);
    if Accepted(t) {
      var tt := Trim(t.value);
      JoinedSingle(tt);
      var joined := a.accumulated + (if a.accumulated != "" then " " else "") + tt;
      assert joined == Glue(a.accumulated, tt);
      if Readiness.ShouldRequestTranslation(joined).should {
        assert Requests(r.1) == [joined];
        JoinedSingle(joined);
      } else {
        assert Requests(r.1) == [];
      }
    } else {
      assert Requests(r.1) == [];
    }
  }

  /** A fallback timeout requests exactly the waiting text, if any. */
  lemma TimeoutKeepsSpeech(a: App, id: nat)
    ensures var r := OnSentenceTimeout(a, id);
      Glue(Joined(Requests(r.1)), r.0.accumulated) == a.accumulated
    ensures forall b :: b in Requests(OnSentenceTimeout(a, id).1) ==> b != ""
  {
    var r := OnSentenceTimeout(a, id);
    if id in a.sentenceTimer.pending && a.accumulated != "" {
      assert Requests(r.1) == [a.accumulated];
      JoinedSingle(a.accumulated);
    } else {
      assert Requests(r.1) == [];
    }
  }

  /** Every other input leaves the accumulator alone and requests nothing. */
  lemma OthersKeepSpeech(a: App, e: Event)
    requires !e.Transcription? && !e.SentenceTimeout? && !e.StopListening?
    ensures Handle(a, e).1 == [] && Handle(a, e).0.accumulated == a.accumulated
  {
  }

  /** Every step but `stopListening` keeps the accumulator's books: the text it
      requests, followed by what is still waiting, is what was waiting followed
      by the transcript it accepted (all joined with single spaces). */
  lemma StepKeepsSpeech(a: App, e: Event)
    requires !e.StopListening?
    ensures var s := Step(a, e);
      Glue(Joined(Requests(s.1)), s.0.accumulated) == Glue(a.accumulated, Joined(AcceptedOf(e)))
    ensures forall b :: b in Requests(Step(a, e).1) ==> b != ""
  {
    var h := Handle(a, e);
    assert Step(a, e).1 == h.1 && Step(a, e).0.accumulated == h.0.accumulated;
    if e.Transcription? {
      assert h == OnTranscription(a, e.transcript);
      TranscriptionKeepsSpeech(a, e.transcript);
    } else if e.SentenceTimeout? {
      assert h == OnSentenceTimeout(a, e.id);
      TimeoutKeepsSpeech(a, e.id);
      assert AcceptedOf(e) == [];
    } else {
      OthersKeepSpeech(a, e);
      assert Requests(h.1) == [];
    }
  }

  lemma NoStopTail(evs: seq<Event>)
    requires |evs| > 0 && NoStop(evs)
    ensures !evs[0].StopListening? && NoStop(evs[1..])
  {
    forall i | 0 <= i < |evs[1..]| ensures !evs[1..][i].StopListening? {
      assert evs[1..][i] == evs[i + 1];
    }
  }

  /** No accepted speech is lost, duplicated or reordered: along any trace that
      does not stop listening, the requested texts followed by the text still
      waiting are exactly the text waiting at the start followed by every
      accepted transcript, joined with single spaces; and no request is empty. */
  lemma {:induction false} NoSpeechLost(a: App, evs: seq<Event>)
    requires NoStop(evs)
    ensures Glue(Joined(Run(a, evs).requests), Run(a, evs).final.accumulated) ==
            Glue(a.accumulated, Joined(AcceptedTranscripts(evs)))
    ensures forall b :: b in Run(a, evs).requests ==> b != ""
    decreases |evs|
  {
    if |evs| > 0 {
      var e := evs[0];
      var s := Step(a, e);
      var rest := Run(s.0, evs[1..]);
      var here, later := AcceptedOf(e), AcceptedTranscripts(evs[1..]);
      assert Run(a, evs) == Outcome(rest.final, Requests(s.1) + rest.requests);
      assert AcceptedTranscripts(evs) == here + later;
      NoStopTail(evs);
      StepKeepsSpeech(a, e);
      NoSpeechLost(s.0, evs[1..]);
      JoinedAppend(Requests(s.1), rest.requests);
      JoinedAppend(here, later);
      GlueChain(Joined(Requests(s.1)), Joined(rest.requests), rest.final.accumulated,
                s.0.accumulated, a.accumulated, Joined(here), Joined(later));
    }
  }

  /** The bookkeeping of one step composed with that of the rest of a trace. */
  lemma GlueChain(r1: string, rr: string, f: string, a1: string, a: string, t1: string, tr: string)
    requires Glue(r1, a1) == Glue(a, t1)
    requires Glue(rr, f) == Glue(a1, tr)
    ensures Glue(Glue(r1, rr), f) == Glue(a, Glue(t1, tr))
  {
    GlueAssoc(r1, rr, f);
    GlueAssoc(r1, a1, tr);
    GlueAssoc(a, t1, tr);
  }

  /** A firing timer that the invariant allows was the only one pending. */
  lemma FiredWasOnly(t: Timers.Slot, id: nat)
    ensures Timers.Valid(t) && id in t.pending ==> !Timers.Armed(Timers.Fire(t, id))
  {
    if Timers.Valid(t) && id in t.pending {
      Timers.AtMostOnePending(t);
      assert t.pending == {id} by {
        forall x | x in t.pending ensures x == id {}
      }
    }
  }

  lemma HandleValid(a: App, e: Event)
    requires Valid(a)
    ensures Valid(Handle(a, e).0)
  {
    match e
    case Transcription(t) =>
    case SentenceTimeout(id) =>
    case StopListening =>
    case AudioDelta(present, now, bytes) =>
    case SetSubtitleMode(on) =>
    case SubtitleTimer(id) =>
    case IncreaseFont =>
    case DecreaseFont =>
    case TextDelta(_) =>
    case TextDone =>
    case AudioDone =>
    case SpeakingGraceElapsed =>
    case ResponseDone =>
    case ServerError(_) =>
    case StartRequested =>
    case ListeningStarted =>
    case ClearTranscripts =>
    case SetVoiceMode(_) =>
    case SetMaxChars(_) =>
  }

  /** One step keeps the invariant. */
  lemma StepValid(a: App, e: Event)
    requires Valid(a)
    ensures Valid(Step(a, e).0)
  {
    HandleValid(a, e);
  }

  /** The invariant holds along every trace: at most one fallback timer, one
      pending exactly while text waits, font size within 0..5, and the pacer's
      discipline. */
  lemma {:induction false} RunValid(a: App, evs: seq<Event>)
    requires Valid(a)
    ensures Valid(Run(a, evs).final)
    ensures |Run(a, evs).final.sentenceTimer.pending| <= 1
    decreases |evs|
  {
    if |evs| == 0 {
      Timers.AtMostOnePending(a.sentenceTimer);
    } else {
      StepValid(a, evs[0]);
      RunValid(Step(a, evs[0]).0, evs[1..]);
    }
  }

  lemma NoClearTail(evs: seq<Event>)
    requires |evs| > 0 && NoClearTranscripts(evs)
    ensures !evs[0].ClearTranscripts? && NoClearTranscripts(evs[1..])
  {
    forall i | 0 <= i < |evs[1..]| ensures !evs[1..][i].ClearTranscripts? {
      assert evs[1..][i] == evs[i + 1];
    }
  }

  /** The text delta one event carries, if any. */
  function DeltaOf(e: Event): string {
    if e.TextDelta? then e.delta else ""
  }

  /** Inputs other than transcripts, deltas and completions leave both logs alone. */
  lemma OthersKeepLogs(a: App, e: Event)
    requires !e.Transcription? && !e.TextDelta? && !e.TextDone? && !e.ClearTranscripts?
    ensures var h := Handle(a, e).0;
      h.translatedText == a.translatedText && h.currentTranslation == a.currentTranslation &&
      h.originalText == a.originalText
  {
    if e.SentenceTimeout? {
      assert Handle(a, e) == OnSentenceTimeout(a, e.id);
    } else if e.StopListening? {
      assert Handle(a, e) == OnStopListening(a);
    } else if e.AudioDelta? {
      assert Handle(a, e).0 == OnAudioDelta(a, e.present, e.now, e.bytes);
    }
  }

  /** Completing a translation moves it into the log without losing a character. */
  lemma TextDoneLogs(a: App)
    ensures var r := OnTextDone(a);
      Concat(r.translatedText) + r.currentTranslation == Concat(a.translatedText) + a.currentTranslation
  {
    if a.currentTranslation != "" {
      ConcatAppend(a.translatedText, [a.currentTranslation]);
      assert Concat([a.currentTranslation]) == a.currentTranslation + Concat([]);
    }
  }

  /** One handler's effect on the two logs. */
  lemma HandleLogs(a: App, e: Event)
    requires !e.ClearTranscripts?
    ensures var h := Handle(a, e).0;
      Concat(h.translatedText) + h.currentTranslation ==
      Concat(a.translatedText) + a.currentTranslation + DeltaOf(e) &&
      h.originalText == a.originalText + AcceptedOf(e)
  {
    if e.TextDone? {
      TextDoneLogs(a);
    } else if e.TextDelta? {
    } else if e.Transcription? {
      assert Handle(a, e).0 == OnTranscription(a, e.transcript).0;
    } else {
      OthersKeepLogs(a, e);
    }
  }

  /** One step's effect on the two logs. */
  lemma StepLogs(a: App, e: Event)
    requires !e.ClearTranscripts?
    ensures var s := Step(a, e).0;
      Concat(s.translatedText) + s.currentTranslation ==
      Concat(a.translatedText) + a.currentTranslation + DeltaOf(e) &&
      s.originalText == a.originalText + AcceptedOf(e)
  {
    var h := Handle(a, e).0;
    HandleLogs(a, e);
    assert Step(a, e).0 == FeedSubtitles(h);
  }

  /** No translation text is lost: along any trace that does not clear the
      transcripts, the logged translations followed by the one streaming are
      what they were followed by every delta received. The original-text log
      grows by exactly the accepted transcripts. */
  lemma {:induction false} LogsKeepEverything(a: App, evs: seq<Event>)
    requires NoClearTranscripts(evs)
    ensures Concat(Run(a, evs).final.translatedText) + Run(a, evs).final.currentTranslation ==
            Concat(a.translatedText) + a.currentTranslation + Deltas(evs)
    ensures Run(a, evs).final.originalText == a.originalText + AcceptedTranscripts(evs)
    decreases |evs|
  {
    if |evs| > 0 {
      var e := evs[0];
      var s := Step(a, e).0;
      var fin := Run(s, evs[1..]).final;
      assert Run(a, evs).final == fin;
      assert Deltas(evs) == DeltaOf(e) + Deltas(evs[1..]);
      assert AcceptedTranscripts(evs) == AcceptedOf(e) + AcceptedTranscripts(evs[1..]);
      NoClearTail(evs);
      StepLogs(a, e);
      LogsKeepEverything(s, evs[1..]);
      StrAssoc(Concat(a.translatedText) + a.currentTranslation, DeltaOf(e), Deltas(evs[1..]));
      SeqAssoc(a.originalText, AcceptedOf(e), AcceptedTranscripts(evs[1..]));
    }
  }

  lemma StrAssoc(x: string, y: string, z: string)
    ensures (x + y) + z == x + (y + z)
  {
  }

  lemma SeqAssoc(x: seq<string>, y: seq<string>, z: seq<string>)
    ensures (x + y) + z == x + (y + z)
  {
  }

  /** `stopListening` leaves nothing waiting and no fallback timer pending. */
  lemma StopLeavesNothingPending(a: App)
    requires Valid(a)
    ensures var r := Step(a, StopListening).0;
      r.accumulated == "" && !Timers.Armed(r.sentenceTimer) && !r.listening && Valid(r)
  {
    StepValid(a, StopListening);
  }
}
