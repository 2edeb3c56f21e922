/** The gapless playback scheduler of `renderer/hooks/useRealtimeAudio.js`.
    Each decoded PCM16 chunk (24 kHz, mono) is scheduled to start when the
    previous one ends, or now if playback has fallen behind. Times are the audio
    context's clock in seconds, modelled as exact reals. */
module Playback {

  const SampleRate := 24000

  /** The hook's refs. `contextOpen` stands for `outputAudioContextRef` being set. */
  datatype Player = Player(
    enabled: bool,
    contextOpen: bool,
    playing: bool,
    nextPlayTime: real,
    currentDuration: real,
    pendingDuration: real)

  const Initial := Player(false, false, false, 0.0, 0.0, 0.0)

  /** A chunk handed to the audio graph: when it starts and how long it plays. */
  datatype Scheduled = Scheduled(start: real, duration: real)

  /** `audioBuffer.duration` of a buffer of `samples` frames at 24 kHz. */
  function Duration(samples: nat): (d: real)
    ensures d >= 0.0
    ensures d == 0.0 <==> samples == 0
  {
    samples as real / SampleRate as real
  }

  /** Whether `bytes` decoded PCM16 bytes make a buffer. `new Int16Array(buffer)`
      throws a RangeError on an odd byte count, and `createBuffer` throws a
      NotSupportedError for a buffer of zero frames. */
  predicate Playable(bytes: nat) {
    bytes > 0 && bytes % 2 == 0
  }

  /** The number of 16-bit frames in `bytes` decoded bytes. */
  function Frames(bytes: nat): nat {
    bytes / 2
  }

  /** What `playAudioChunk` did with a chunk. */
  datatype Play =
    | Ignored                      // playback disabled: early return
    | Threw                        // the chunk made no buffer; the call threw
    | Started(chunk: Scheduled)    // the buffer was scheduled

  /** `playAudioChunk(base64)`, with the chunk already decoded to `bytes` bytes
      and `now` the context's `currentTime`. A disabled player ignores the
      chunk. An enabled player opens its context first; a chunk that makes no
      buffer then throws and changes nothing else. */
  function PlayAudioChunk(p: Player, now: real, bytes: nat): (r: (Player, Play))
    ensures !p.enabled <==> r.1.Ignored?
    ensures r.1.Ignored? ==> r.0 == p
    ensures r.1.Threw? <==> p.enabled && !Playable(bytes)
    ensures r.1.Threw? ==> r.0 == p.(contextOpen := true)
    ensures r.1.Started? ==>
      r.1.chunk.start >= now && r.1.chunk.start >= p.nextPlayTime &&
      (r.1.chunk.start == now || r.1.chunk.start == p.nextPlayTime) &&
      r.1.chunk.duration == Duration(Frames(bytes)) && r.1.chunk.duration > 0.0 &&
      r.0.nextPlayTime == End(r.1.chunk) &&
      r.0.nextPlayTime >= now + Duration(Frames(bytes)) &&
      r.0.pendingDuration == p.pendingDuration + Duration(Frames(bytes)) &&
      r.0.playing && r.0.contextOpen && r.0.enabled &&
      r.0.currentDuration == p.currentDuration
  {
    if !p.enabled then (p, Ignored)
    else if !Playable(bytes) then (p.(contextOpen := true), Threw)
    else
      var d := Duration(Frames(bytes));
      var start := if now >= p.nextPlayTime then now else p.nextPlayTime;
      (p.(contextOpen := true, pendingDuration := p.pendingDuration + d,
          nextPlayTime := start + d, playing := true),
       Started(Scheduled(start, d)))
  }

  /** `stopAudio()`: close the context, stop playing, restart the schedule at 0. */
  function StopAudio(p: Player): (r: Player)
    ensures !r.playing && !r.contextOpen && r.nextPlayTime == 0.0
    ensures r.enabled == p.enabled && r.pendingDuration == p.pendingDuration &&
            r.currentDuration == p.currentDuration
  {
    p.(contextOpen := false, playing := false, nextPlayTime := 0.0)
  }

  /** `onAudioDone()`: the response's audio is complete; its total duration
      becomes the current duration and the pending total restarts. */
  function OnAudioDone(p: Player): (r: Player)
    ensures r.currentDuration == p.pendingDuration && r.pendingDuration == 0.0
    ensures r.playing == p.playing && r.nextPlayTime == p.nextPlayTime && r.enabled == p.enabled
  {
    p.(currentDuration := p.pendingDuration, pendingDuration := 0.0)
  }

  /** `resetTiming()`: only the schedule restarts; the context keeps playing. */
  function ResetTiming(p: Player): (r: Player)
    ensures r.nextPlayTime == 0.0 && r == p.(nextPlayTime := 0.0)
  {
    p.(nextPlayTime := 0.0)
  }

  /** `setEnabled(enabled)`; disabling also stops the audio. */
  function SetEnabled(p: Player, enabled: bool): (r: Player)
    ensures r.enabled == enabled
    ensures !enabled ==> r == StopAudio(p).(enabled := false)
    ensures enabled ==> r == p.(enabled := true)
  {
    if enabled then p.(enabled := true) else StopAudio(p.(enabled := false))
  }

  // ------------------------------------------------------------- traces

  /** A chunk arriving at context time `now`, decoding to `bytes` bytes. */
  datatype Arrival = Arrival(now: real, bytes: nat)

  datatype Played = Played(final: Player, schedule: seq<Scheduled>)

  /** Plays a sequence of chunks in arrival order, collecting what was scheduled. */
  function PlayAll(p: Player, chunks: seq<Arrival>): (o: Played)
    decreases |chunks|
  {
    if |chunks| == 0 then Played(p, [])
    else
      var r := PlayAudioChunk(p, chunks[0].now, chunks[0].bytes);
      var rest := PlayAll(r.0, chunks[1..]);
      Played(rest.final, (if r.1.Started? then [r.1.chunk] else []) + rest.schedule)
  }

  function End(s: Scheduled): real {
    s.start + s.duration
  }

  /** Later chunks never start before earlier ones have finished. */
  ghost predicate NoOverlap(sched: seq<Scheduled>) {
    forall i, j :: 0 <= i < j < |sched| ==> End(sched[i]) <= sched[j].start
  }

  /** No scheduled chunk starts before `from`, and none ends after `upTo`. */
  ghost predicate Within(sched: seq<Scheduled>, from: real, upTo: real) {
    forall i :: 0 <= i < |sched| ==> from <= sched[i].start && End(sched[i]) <= upTo
  }

  // ------------------------------------------------------------- lemmas

  /** Chunk scheduling is gapless and overlap-free: every chunk starts no earlier
      than the previous ones end, and all of them end by the final
      `nextPlayTime`. */
  lemma {:induction false} PlayAllNoOverlap(p: Player, chunks: seq<Arrival>)
    requires p.nextPlayTime >= 0.0
    ensures NoOverlap(PlayAll(p, chunks).schedule)
    ensures Within(PlayAll(p, chunks).schedule, p.nextPlayTime, PlayAll(p, chunks).final.nextPlayTime)
    ensures p.nextPlayTime <= PlayAll(p, chunks).final.nextPlayTime
    decreases |chunks|
  {
    if |chunks| > 0 {
      var r := PlayAudioChunk(p, chunks[0].now, chunks[0].bytes);
      var head := if r.1.Started? then [r.1.chunk] else [];
      var rest := PlayAll(r.0, chunks[1..]);
      PlayAllNoOverlap(r.0, chunks[1..]);
      var s := head + rest.schedule;
      assert PlayAll(p, chunks).schedule == s;
      forall i, j | 0 <= i < j < |s| ensures End(s[i]) <= s[j].start {
        if i < |head| {
          assert s[i] == r.1.chunk;
          assert s[j] == rest.schedule[j - |head|];
        } else {
          assert s[i] == rest.schedule[i - |head|] && s[j] == rest.schedule[j - |head|];
        }
      }
      forall i | 0 <= i < |s| ensures p.nextPlayTime <= s[i].start && End(s[i]) <= rest.final.nextPlayTime {
        if i >= |head| {
          assert s[i] == rest.schedule[i - |head|];
        }
      }
    }
  }

  /** The overlap-freedom above holds only between resets of the schedule.
      `resetTiming()` (run when listening stops) restarts the schedule at 0
      while the context keeps playing what it has, so a chunk arriving while an
      earlier one still plays starts at once, on top of it; without the reset
      it would have waited for the earlier chunk to end. */
  lemma ResetTimingAllowsOverlap(p: Player, now1: real, now2: real, b1: nat, b2: nat)
    requires p.enabled && Playable(b1) && Playable(b2)
    requires 0.0 <= p.nextPlayTime <= now1 <= now2 < now1 + Duration(Frames(b1))
    ensures var r1 := PlayAudioChunk(p, now1, b1);
      var r2 := PlayAudioChunk(ResetTiming(r1.0), now2, b2);
      r1.1.Started? && r2.1.Started? &&
      r2.1.chunk.start == now2 && r2.1.chunk.start < End(r1.1.chunk)
    ensures var r1 := PlayAudioChunk(p, now1, b1);
      PlayAudioChunk(r1.0, now2, b2).1.chunk.start == End(r1.1.chunk)
  {
  }

  /** While enabled, playback stays on once started; only `stopAudio` (directly
      or through `setEnabled(false)`) turns it off. */
  lemma {:induction false} PlayingPersists(p: Player, chunks: seq<Arrival>)
    requires p.playing
    ensures PlayAll(p, chunks).final.playing
    decreases |chunks|
  {
    if |chunks| > 0 {
      PlayingPersists(PlayAudioChunk(p, chunks[0].now, chunks[0].bytes).0, chunks[1..]);
    }
  }

  function TotalDuration(chunks: seq<Arrival>): real {
    if |chunks| == 0 then 0.0
    else (if Playable(chunks[0].bytes) then Duration(Frames(chunks[0].bytes)) else 0.0) + TotalDuration(chunks[1..])
  }

  /** While enabled, the pending duration grows by exactly the total duration
      of the chunks that made a buffer. */
  lemma {:induction false} PendingAccumulates(p: Player, chunks: seq<Arrival>)
    requires p.enabled
    ensures PlayAll(p, chunks).final.pendingDuration == p.pendingDuration + TotalDuration(chunks)
    ensures PlayAll(p, chunks).final.enabled
    decreases |chunks|
  {
    if |chunks| > 0 {
      var r := PlayAudioChunk(p, chunks[0].now, chunks[0].bytes);
      assert r.0.enabled;
      PendingAccumulates(r.0, chunks[1..]);
      assert PlayAll(p, chunks).final == PlayAll(r.0, chunks[1..]).final;
      if Playable(chunks[0].bytes) {
        assert r.0.pendingDuration == p.pendingDuration + Duration(Frames(chunks[0].bytes));
      } else {
        assert r.0.pendingDuration == p.pendingDuration;
        assert TotalDuration(chunks) == TotalDuration(chunks[1..]);
      }
    }
  }

  /** A disabled player schedules nothing and changes no state. */
  lemma {:induction false} DisabledIsInert(p: Player, chunks: seq<Arrival>)
    requires !p.enabled
    ensures PlayAll(p, chunks) == Played(p, [])
    decreases |chunks|
  {
    if |chunks| > 0 {
      DisabledIsInert(p, chunks[1..]);
    }
  }
}
