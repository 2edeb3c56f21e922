/** The voice-activity detector and pre-buffer of `renderer/hooks/useAudioCapture.js`.
    Each animation frame classifies the input level as loud or quiet (the level
    computation is not modelled) and advances a speaking/silence automaton over
    millisecond timestamps; a long enough utterance followed by 600 ms of quiet
    commits the server's audio buffer. Audio frames are sent while speaking and
    held in a two-slot pre-buffer while silent. */
module Capture {
  import opened Common

  const SilenceDurationMs := 600
  const MinSpeechDurationMs := 600
  const PreBufferSize := 2
  const DefaultRecentSpeechMs := 3000

  /** An audio frame as posted to the server (its base64 text). */
  type Chunk = string

  /** The hook's refs. `active` also stands for the analyser being present: the
      analyser exists exactly while a capture is running. */
  datatype Capture = Capture(
    active: bool,
    captureId: nat,
    speaking: bool,
    silenceStart: Option<int>,
    speechStart: Option<int>,
    lastSpeechEnd: int,
    hasAudioToCommit: bool,
    preBuffer: seq<Chunk>)

  const Initial := Capture(false, 0, false, None, None, 0, false, [])

  /** JavaScript truthiness of a nullable timestamp: `null` and `0` are falsy. */
  predicate Truthy(t: Option<int>) {
    t.Some? && t.value != 0
  }

  /** A nullable timestamp in arithmetic: `null` counts as 0. */
  function Num(t: Option<int>): int {
    t.GetOr(0)
  }

  /** What the capture hands to its callbacks, in order. */
  datatype Output = Sent(chunk: Chunk) | Commit

  /** `startCapture()` up to its first `await`: a new capture session id, active. */
  function StartCapture(c: Capture): (r: Capture)
    ensures r.active && r.captureId == c.captureId + 1
    ensures r == c.(active := true, captureId := c.captureId + 1)
  {
    c.(active := true, captureId := c.captureId + 1)
  }

  /** `stopCapture()`: the automaton and the pre-buffer reset; the session id and
      the time speech last ended are kept. */
  function StopCapture(c: Capture): (r: Capture)
    ensures !r.active && !r.speaking && r.silenceStart == None && r.speechStart == None
    ensures !r.hasAudioToCommit && r.preBuffer == []
    ensures r.captureId == c.captureId && r.lastSpeechEnd == c.lastSpeechEnd
  {
    Capture(false, c.captureId, false, None, None, c.lastSpeechEnd, false, [])
  }

  /** The worklet's 'audio' message handler of capture session `session`. A
      message from a stale session, or arriving after the capture stopped, is
      dropped. While speaking, the pre-buffer is flushed ahead of the live
      chunk; while silent, the chunk is buffered and the oldest dropped beyond
      two. */
  function OnAudioFrame(c: Capture, session: nat, chunk: Chunk): (r: (Capture, seq<Output>))
    ensures !c.active || session != c.captureId ==> r == (c, [])
    ensures c.active && session == c.captureId && c.speaking ==>
      r.1 == SentAll(c.preBuffer + [chunk]) && r.0.preBuffer == [] && r.0.hasAudioToCommit
    ensures c.active && session == c.captureId && !c.speaking ==>
      r.1 == [] && r.0.hasAudioToCommit == c.hasAudioToCommit &&
      r.0.preBuffer == (if |c.preBuffer| + 1 > PreBufferSize then (c.preBuffer + [chunk])[1..] else c.preBuffer + [chunk])
    ensures r.0.speaking == c.speaking && r.0.active == c.active && r.0.captureId == c.captureId
  {
    if !c.active || session != c.captureId then (c, [])
    else if c.speaking then
      (c.(preBuffer := [], hasAudioToCommit := true), SentAll(c.preBuffer) + [Sent(chunk)])
    else
      var buffered := c.preBuffer + [chunk];
      (c.(preBuffer := if |buffered| > PreBufferSize then buffered[1..] else buffered), [])
  }

  function SentAll(chunks: seq<Chunk>): (out: seq<Output>)
    ensures |out| == |chunks|
    ensures forall k :: 0 <= k < |out| ==> out[k] == Sent(chunks[k])
  {
    if |chunks| == 0 then [] else [Sent(chunks[0])] + SentAll(chunks[1..])
  }

  /** One silence-detection step of `visualize()` at time `now` with the level
      above (`loud`) or at most the threshold. Returns the new state and whether
      it committed. */
  function Tick(c: Capture, now: int, loud: bool): (r: (Capture, bool))
    ensures !c.active ==> r == (c, false)
    ensures c.active && loud ==>
      r.0.speaking && r.0.silenceStart == None && !r.1 &&
      r.0.speechStart == (if c.speaking then c.speechStart else Some(now))
    ensures c.active && !loud && c.speaking && !Truthy(c.silenceStart) ==>
      r.0 == c.(silenceStart := Some(now)) && !r.1
    ensures c.active && !loud && c.speaking && Truthy(c.silenceStart) && now - c.silenceStart.value > SilenceDurationMs ==>
      !r.0.speaking && r.0.lastSpeechEnd == now && r.0.silenceStart == None && r.0.speechStart == None &&
      (r.1 <==> c.silenceStart.value - Num(c.speechStart) >= MinSpeechDurationMs && c.hasAudioToCommit)
    ensures r.1 ==>
      c.active && !loud && c.speaking && c.hasAudioToCommit && !r.0.hasAudioToCommit &&
      Truthy(c.silenceStart) && now - c.silenceStart.value > SilenceDurationMs &&
      c.silenceStart.value - Num(c.speechStart) >= MinSpeechDurationMs
    ensures !r.1 ==> r.0.hasAudioToCommit == c.hasAudioToCommit
    ensures r.0.preBuffer == c.preBuffer && r.0.active == c.active && r.0.captureId == c.captureId
  {
    if !c.active then (c, false)
    else if loud then
      (c.(speaking := true,
          speechStart := if c.speaking then c.speechStart else Some(now),
          silenceStart := None), false)
    else if !c.speaking then (c, false)
    else if !Truthy(c.silenceStart) then (c.(silenceStart := Some(now)), false)
    else if now - c.silenceStart.value > SilenceDurationMs then
      var duration := c.silenceStart.value - Num(c.speechStart);
      var ended := c.(speaking := false, lastSpeechEnd := now, silenceStart := None, speechStart := None);
      if duration >= MinSpeechDurationMs && c.hasAudioToCommit then
        (ended.(hasAudioToCommit := false), true)
      else (ended, false)
    else (c, false)
  }

  /** `hadRecentSpeech(thresholdMs)` at time `now`. */
  predicate HadRecentSpeech(c: Capture, now: int, thresholdMs: int) {
    if c.speaking then true
    else if c.lastSpeechEnd == 0 then false
    else now - c.lastSpeechEnd < thresholdMs
  }

  // ------------------------------------------------------------- traces

  datatype Event =
    | Frame(session: nat, chunk: Chunk)
    | Animation(now: int, loud: bool)
    | Start
    | Stop

  function Apply(c: Capture, e: Event): (Capture, seq<Output>) {
    match e
    case Frame(s, chunk) => OnAudioFrame(c, s, chunk)
    case Animation(now, loud) =>
      var r := Tick(c, now, loud);
      (r.0, if r.1 then [Commit] else [])
    case Start => (StartCapture(c), [])
    case Stop => (StopCapture(c), [])
  }

  datatype Trace = Trace(final: Capture, out: seq<Output>)

  function Run(c: Capture, evs: seq<Event>): Trace
    decreases |evs|
  {
    if |evs| == 0 then Trace(c, [])
    else
      var s := Apply(c, evs[0]);
      var rest := Run(s.0, evs[1..]);
      Trace(rest.final, s.1 + rest.out)
  }

  /** The commit discipline of an output log, given whether audio was sent since
      the last commit: every commit is preceded by sent audio since the one
      before. */
  predicate Separated(out: seq<Output>, sentSince: bool) {
    if |out| == 0 then true
    else if out[0].Sent? then Separated(out[1..], true)
    else sentSince && Separated(out[1..], false)
  }

  /** Whether audio was sent since the last commit, after the log `out`. */
  function SentSinceAfter(out: seq<Output>, sentSince: bool): bool {
    if |out| == 0 then sentSince
    else if out[0].Sent? then SentSinceAfter(out[1..], true)
    else SentSinceAfter(out[1..], false)
  }

  // ------------------------------------------------------------- lemmas

  lemma {:induction false} SeparatedMonotone(out: seq<Output>, a: bool, b: bool)
    requires Separated(out, a) && (a ==> b)
    ensures Separated(out, b)
  {
  }

  lemma {:induction false} SeparatedAppend(xs: seq<Output>, ys: seq<Output>, h: bool)
    requires Separated(xs, h) && Separated(ys, SentSinceAfter(xs, h))
    ensures Separated(xs + ys, h)
    ensures SentSinceAfter(xs + ys, h) == SentSinceAfter(ys, SentSinceAfter(xs, h))
    decreases |xs|
  {
    if |xs| == 0 {
      assert xs + ys == ys;
    } else {
      assert (xs + ys)[0] == xs[0];
      assert (xs + ys)[1..] == xs[1..] + ys;
      SeparatedAppend(xs[1..], ys, if xs[0].Sent? then true else false);
    }
  }

  lemma {:induction false} SentAllSeparated(chunks: seq<Chunk>, h: bool)
    ensures Separated(SentAll(chunks), h)
    ensures SentSinceAfter(SentAll(chunks), h) == (h || |chunks| > 0)
    decreases |chunks|
  {
    if |chunks| > 0 {
      SentAllSeparated(chunks[1..], true);
    }
  }

  /** One step keeps the commit discipline, and the state's flag never claims
      more sent audio than the log shows. */
  lemma StepSeparated(c: Capture, e: Event)
    ensures Separated(Apply(c, e).1, c.hasAudioToCommit)
    ensures Apply(c, e).0.hasAudioToCommit ==> SentSinceAfter(Apply(c, e).1, c.hasAudioToCommit)
  {
    match e
    case Frame(s, chunk) =>
      if c.active && s == c.captureId && c.speaking {
        SentAllSeparated(c.preBuffer + [chunk], c.hasAudioToCommit);
      }
    case Animation(now, loud) =>
    case Start =>
    case Stop =>
  }

  /** Never two commits without audio sent in between: along any trace, each
      commit is preceded by at least one sent chunk since the previous commit
      (or since the start, when no audio was pending then). */
  lemma {:induction false} CommitsAlternate(c: Capture, evs: seq<Event>)
    ensures Separated(Run(c, evs).out, c.hasAudioToCommit)
    ensures Run(c, evs).final.hasAudioToCommit ==> SentSinceAfter(Run(c, evs).out, c.hasAudioToCommit)
    decreases |evs|
  {
    if |evs| > 0 {
      var s := Apply(c, evs[0]);
      var rest := Run(s.0, evs[1..]);
      StepSeparated(c, evs[0]);
      CommitsAlternate(s.0, evs[1..]);
      var h := SentSinceAfter(s.1, c.hasAudioToCommit);
      SeparatedMonotone(rest.out, s.0.hasAudioToCommit, h);
      SeparatedAppend(s.1, rest.out, c.hasAudioToCommit);
      if rest.final.hasAudioToCommit {
        SentSinceMonotone(rest.out, s.0.hasAudioToCommit, h);
      }
    }
  }

  lemma {:induction false} SentSinceMonotone(out: seq<Output>, a: bool, b: bool)
    requires a ==> b
    ensures SentSinceAfter(out, a) ==> SentSinceAfter(out, b)
    decreases |out|
  {
    if |out| > 0 {
      SentSinceMonotone(out[1..], if out[0].Sent? then true else false, if out[0].Sent? then true else false);
    }
  }

  /** The pre-buffer never holds more than two chunks. */
  lemma {:induction false} PreBufferBounded(c: Capture, evs: seq<Event>)
    requires |c.preBuffer| <= PreBufferSize
    ensures |Run(c, evs).final.preBuffer| <= PreBufferSize
    decreases |evs|
  {
    if |evs| > 0 {
      PreBufferBounded(Apply(c, evs[0]).0, evs[1..]);
    }
  }

  /** Messages from a superseded capture session never reach the server. */
  lemma StaleSessionIgnored(c: Capture, chunk: Chunk)
    ensures OnAudioFrame(StartCapture(c), c.captureId, chunk) == (StartCapture(c), [])
  {
  }

  /** A quiet frame only ends speech after strictly more than 600 ms of silence
      measured from a recorded silence start. */
  lemma SpeechEndNeedsSilence(c: Capture, now: int)
    requires c.active && c.speaking && Truthy(c.silenceStart)
    ensures !Tick(c, now, false).0.speaking <==> now - c.silenceStart.value > SilenceDurationMs
  {
  }

  /** The detector feeds `hadRecentSpeech`: the quiet frame that ends an
      utterance at time `t` starts the recency window, so speech counts as
      recent exactly until the threshold has passed since `t`. */
  lemma SpeechEndStartsRecency(c: Capture, t: int, now: int, thresholdMs: int)
    requires c.active && c.speaking && t != 0
    requires !Tick(c, t, false).0.speaking
    ensures HadRecentSpeech(Tick(c, t, false).0, now, thresholdMs) <==> now - t < thresholdMs
  {
  }

  /** A loud frame of a running capture makes speech recent, whatever the threshold. */
  lemma LoudIsRecent(c: Capture, t: int, now: int, thresholdMs: int)
    requires c.active
    ensures HadRecentSpeech(Tick(c, t, true).0, now, thresholdMs)
  {
  }

  /** Stopping the capture keeps the end of the last utterance, so
      `hadRecentSpeech` still answers from it after a stop. */
  lemma StopKeepsRecency(c: Capture, now: int, thresholdMs: int)
    requires !c.speaking
    ensures HadRecentSpeech(StopCapture(c), now, thresholdMs) == HadRecentSpeech(c, now, thresholdMs)
  {
  }

  /** A quiet frame that does not end the utterance leaves speech recent. */
  lemma QuietWhileSpeakingIsRecent(c: Capture, t: int, now: int, thresholdMs: int)
    requires c.active && c.speaking
    requires Truthy(c.silenceStart) ==> t - c.silenceStart.value <= SilenceDurationMs
    ensures HadRecentSpeech(Tick(c, t, false).0, now, thresholdMs)
  {
  }
}
