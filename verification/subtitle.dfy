/** The subtitle pacer of `renderer/hooks/useSubtitle.js`: a FIFO queue of chunks
    shown one at a time, each for a display time derived from its length, driven
    by a self-rescheduling one-shot timer. */
module Subtitle {
  import opened Common
  import opened JsText
  import Timers
  import Config
  import Chunking

  /** The hook's refs: the queue, the chunk on screen, the processing flag, the
      timer slot, the chunks of the latest translation (`chunkTimingsRef`, kept
      as the chunks themselves; their ratios are recomputed where used), the last
      processed translation index and the pending-start flag. */
  datatype Pacer = Pacer(
    queue: seq<string>,
    current: string,
    processing: bool,
    timer: Timers.Slot,
    timings: seq<string>,
    lastProcessed: int,
    pendingStart: bool)

  const Initial := Pacer([], "", false, Timers.Idle, [], -1, false)

  /** The outcome of a pacer step: the new state and, when a chunk was put on
      screen, the display time the timer was armed with. */
  datatype Step = Step(pacer: Pacer, delay: Option<real>)

  // ------------------------------------------------------------- display time

  /** `timings.reduce((sum, t) => sum + t.chunk.length, 0)`. */
  function TotalChars(ts: seq<string>): nat {
    if |ts| == 0 then 0 else |ts[0]| + TotalChars(ts[1..])
  }

  /** `timings.reduce((sum, t) => sum + t.chunk.split(/\s+/).length * MS_PER_WORD, 0)`. */
  function TotalWordTime(ts: seq<string>): nat {
    if |ts| == 0 then 0 else |SplitWs(ts[0])| * Config.MsPerWord + TotalWordTime(ts[1..])
  }

  function Max(a: real, b: real): real {
    if a >= b then a else b
  }

  /** `Math.min(MAX, Math.max(MIN, x))`. */
  function Clamp(x: real): (r: real)
    ensures Config.MinSubtitleDisplayMs as real <= r <= Config.MaxSubtitleDisplayMs as real
    ensures Config.MinSubtitleDisplayMs as real <= x <= Config.MaxSubtitleDisplayMs as real ==> r == x
  {
    if x > Config.MaxSubtitleDisplayMs as real then Config.MaxSubtitleDisplayMs as real
    else Max(Config.MinSubtitleDisplayMs as real, x)
  }

  /** The unclamped time a chunk asks for on its own: 280 ms per word for text
      with whitespace, 135 ms per code unit otherwise. */
  function BaseTime(chunk: string): nat {
    if HasSpace(chunk) then |SplitWs(chunk)| * Config.MsPerWord
    else |chunk| * Config.MsPerCjkChar
  }

  /** A chunk's share, by length, of a translation's total duration:
      `duration * (len / totalChars)`. */
  function Share(len: nat, totalChars: nat, duration: real): real
    requires totalChars > 0
  {
    (len as real / totalChars as real) * duration
  }

  /** The total duration the proportional branch divides up: the word-based
      total for a chunk with whitespace, 135 ms per code unit otherwise. Each
      chunk picks it by its own `hasSpaces`. */
  function TotalDuration(spaced: bool, timings: seq<string>): real {
    if spaced then TotalWordTime(timings) as real
    else (TotalChars(timings) * Config.MsPerCjkChar) as real
  }

  /** The display time `processQueue` arms the timer with. With more than one
      chunk in the latest translation, the chunk gets its share (by length) of
      the translation's total time instead of its own base time. */
  function DisplayTime(chunk: string, timings: seq<string>): (d: real)
    ensures Config.MinSubtitleDisplayMs as real <= d <= Config.MaxSubtitleDisplayMs as real
    ensures |timings| <= 1 ==> d == Clamp(BaseTime(chunk) as real)
  {
    var total := TotalChars(timings);
    if |timings| > 1 && total > 0 then
      Clamp(Max(Config.MinSubtitleDisplayMs as real, Share(|chunk|, total, TotalDuration(HasSpace(chunk), timings))))
    else Clamp(BaseTime(chunk) as real)
  }

  // ------------------------------------------------------------- invariant

  /** More than one timing entry only ever comes from a long translation, whose
      chunks are all non-empty, so the proportional branch never divides by zero. */
  predicate TimingsOk(ts: seq<string>) {
    |ts| > 1 ==> forall t :: t in ts ==> t != ""
  }

  /** The pacer's timer discipline: the timer ref names the only pending timer,
      and a timer is pending exactly while the pacer is processing. */
  ghost predicate Valid(p: Pacer) {
    Timers.Valid(p.timer) && (p.processing <==> Timers.Armed(p.timer)) && TimingsOk(p.timings)
  }

  // ------------------------------------------------------------- operations

  /** `processQueue()`: show the head of the queue and re-arm the timer with its
      display time, or, on an empty queue, stop processing and reset the
      timings. It runs either from `startProcessing` or from the pacer's own
      timer callback, so no timer is pending when it runs. */
  function ProcessQueue(p: Pacer): (r: Step)
    ensures |p.queue| == 0 ==>
      !r.pacer.processing && r.delay == None && r.pacer.timings == [] &&
      r.pacer.timer.pending == p.timer.pending
    ensures |p.queue| > 0 ==>
      r.pacer.current == p.queue[0] && [p.queue[0]] + r.pacer.queue == p.queue &&
      r.delay == Some(DisplayTime(p.queue[0], p.timings)) &&
      Timers.Armed(r.pacer.timer)
    ensures (Timers.Valid(p.timer) && !Timers.Armed(p.timer) && TimingsOk(p.timings) &&
             (|p.queue| > 0 ==> p.processing)) ==> Valid(r.pacer)
  {
    if |p.queue| == 0 then
      Step(p.(processing := false, timer := Timers.Forget(p.timer), timings := []), None)
    else
      var chunk := p.queue[0];
      assert [chunk] + p.queue[1..] == p.queue;
      Step(p.(queue := p.queue[1..], current := chunk, timer := Timers.Arm(p.timer)),
           Some(DisplayTime(chunk, p.timings)))
  }

  /** `startProcessing()`: a no-op while processing or with nothing queued. */
  function StartProcessing(p: Pacer): (r: Step)
    ensures p.processing || |p.queue| == 0 ==> r == Step(p, None)
    ensures !p.processing && |p.queue| > 0 ==>
      r.pacer.processing && r.pacer.current == p.queue[0] && r.delay.Some?
    ensures Valid(p) ==> Valid(r.pacer)
  {
    if |p.queue| == 0 || p.processing then Step(p, None)
    else ProcessQueue(p.(processing := true))
  }

  /** Starting an idle pacer shows the head of the queue (if any) and keeps
      the timing basis, the processed index and the pending-start flag. */
  lemma StartShowsHead(p: Pacer)
    requires !p.processing
    ensures var r := StartProcessing(p).pacer;
      r.timings == p.timings && r.lastProcessed == p.lastProcessed && r.pendingStart == p.pendingStart &&
      (r.processing <==> |p.queue| > 0) &&
      (|p.queue| > 0 ==> r.current == p.queue[0] && [p.queue[0]] + r.queue == p.queue) &&
      (|p.queue| == 0 ==> r.queue == p.queue)
  {
    if |p.queue| > 0 {
      var q := p.(processing := true);
      assert StartProcessing(p) == ProcessQueue(q);
      assert ProcessQueue(q).pacer == q.(queue := q.queue[1..], current := q.queue[0], timer := Timers.Arm(q.timer));
    }
  }

  /** The pacer's timer `id` fires and runs `processQueue`. A cancelled timer
      never fires, so an id that is not pending changes nothing. */
  function TimerFired(p: Pacer, id: nat): (r: Step)
    ensures id !in p.timer.pending ==> r == Step(p, None)
    ensures Valid(p) ==> Valid(r.pacer)
  {
    if id in p.timer.pending then
      FireOnlyPending(p.timer, id);
      ProcessQueue(p.(timer := Timers.Fire(p.timer, id)))
    else Step(p, None)
  }

  /** `addTranslation(text)`: chunk the text, make its chunks the timing basis
      and append them to the queue. Nothing starts processing here. */
  function AddTranslation(p: Pacer, text: string, maxChars: int): (r: Pacer)
    requires maxChars >= 1
    ensures r.queue == p.queue + Chunking.SplitTextIntoChunks(text, maxChars)
    ensures r.timings == Chunking.SplitTextIntoChunks(text, maxChars)
    ensures r.processing == p.processing && r.timer == p.timer && r.current == p.current
    ensures Valid(p) ==> Valid(r)
  {
    var chunks := Chunking.SplitTextIntoChunks(text, maxChars);
    p.(queue := p.queue + chunks, timings := chunks)
  }

  /** `clear()`, also run when subtitles are disabled: empty the queue and the
      screen, forget the processed index, stop and cancel the timer. The timing
      basis and the pending-start flag are left as they are. */
  function Clear(p: Pacer): (r: Pacer)
    ensures r.queue == [] && r.current == "" && r.lastProcessed == -1 && !r.processing
    ensures r.timings == p.timings && r.pendingStart == p.pendingStart
    ensures Valid(p) ==> Valid(r) && !Timers.Armed(r.timer)
  {
    p.(queue := [], current := "", lastProcessed := -1, processing := false,
       timer := Timers.Cancel(p.timer))
  }

  // ------------------------------------------------------------- traces

  /** What the app can do to the pacer. */
  datatype Event =
    | Add(text: string)
    | Start
    | Fired(id: nat)
    | ClearAll
    | SetPendingStart(on: bool)
    | SetLastProcessed(index: int)

  function Apply(p: Pacer, e: Event, maxChars: int): Step
    requires maxChars >= 1
  {
    match e
    case Add(text) => Step(AddTranslation(p, text, maxChars), None)
    case Start => StartProcessing(p)
    case Fired(id) => TimerFired(p, id)
    case ClearAll => Step(Clear(p), None)
    case SetPendingStart(on) => Step(p.(pendingStart := on), None)
    case SetLastProcessed(i) => Step(p.(lastProcessed := i), None)
  }

  /** The chunk a step put on screen, if any. */
  function Shown(s: Step): seq<string> {
    if s.delay.Some? then [s.pacer.current] else []
  }

  datatype Outcome = Outcome(final: Pacer, shown: seq<string>)

  /** Runs a sequence of events, collecting the chunks put on screen in order. */
  function Run(p: Pacer, evs: seq<Event>, maxChars: int): (o: Outcome)
    requires maxChars >= 1
    decreases |evs|
  {
    if |evs| == 0 then Outcome(p, [])
    else
      var s := Apply(p, evs[0], maxChars);
      var rest := Run(s.pacer, evs[1..], maxChars);
      Outcome(rest.final, Shown(s) + rest.shown)
  }

  /** The chunks the `Add` events of a trace enqueue, in order. */
  function Added(evs: seq<Event>, maxChars: int): seq<string>
    requires maxChars >= 1
  {
    if |evs| == 0 then []
    else Enqueued(evs[0], maxChars) + Added(evs[1..], maxChars)
  }

  /** The chunks one event enqueues. */
  function Enqueued(e: Event, maxChars: int): seq<string>
    requires maxChars >= 1
  {
    if e.Add? then Chunking.SplitTextIntoChunks(e.text, maxChars) else []
  }

  predicate NoClear(evs: seq<Event>) {
    forall i :: 0 <= i < |evs| ==> !evs[i].ClearAll?
  }

  // ------------------------------------------------------------- lemmas

  /** One step of the FIFO discipline: what a step shows plus what it leaves
      queued is what was queued plus what it enqueued. */
  lemma StepFifo(p: Pacer, e: Event, maxChars: int)
    requires maxChars >= 1 && !e.ClearAll?
    ensures Shown(Apply(p, e, maxChars)) + Apply(p, e, maxChars).pacer.queue ==
            p.queue + Enqueued(e, maxChars)
  {
    match e
    case Add(text) =>
      assert Apply(p, e, maxChars) == Step(AddTranslation(p, text, maxChars), None);
    case Start =>
      if |p.queue| > 0 && !p.processing {
        assert Apply(p, e, maxChars) == ProcessQueue(p.(processing := true));
        ProcessQueueFifo(p.(processing := true));
      }
    case Fired(id) =>
      if id in p.timer.pending {
        assert Apply(p, e, maxChars) == ProcessQueue(p.(timer := Timers.Fire(p.timer, id)));
        ProcessQueueFifo(p.(timer := Timers.Fire(p.timer, id)));
      }
    case SetPendingStart(on) =>
    case SetLastProcessed(i) =>
  }

  /** Processing the queue moves its head, and only its head, on screen. */
  lemma ProcessQueueFifo(p: Pacer)
    ensures Shown(ProcessQueue(p)) + ProcessQueue(p).pacer.queue == p.queue
  {
    if |p.queue| == 0 {
      assert ProcessQueue(p).delay == None;
    }
  }

  /** Subtitles are shown in exactly the order their chunks were enqueued: along
      any trace without a `clear`, the chunks shown followed by those still
      queued are the chunks initially queued followed by every chunk added. */
  lemma {:induction false} Fifo(p: Pacer, evs: seq<Event>, maxChars: int)
    requires maxChars >= 1 && NoClear(evs)
    ensures Run(p, evs, maxChars).shown + Run(p, evs, maxChars).final.queue ==
            p.queue + Added(evs, maxChars)
    decreases |evs|
  {
    if |evs| > 0 {
      var s := Apply(p, evs[0], maxChars);
      var rest := Run(s.pacer, evs[1..], maxChars);
      assert Run(p, evs, maxChars) == Outcome(rest.final, Shown(s) + rest.shown);
      assert Added(evs, maxChars) == Enqueued(evs[0], maxChars) + Added(evs[1..], maxChars);
      NoClearTail(evs);
      StepFifo(p, evs[0], maxChars);
      Fifo(s.pacer, evs[1..], maxChars);
      SeqAssoc(Shown(s), rest.shown, rest.final.queue);
      SeqAssoc(Shown(s), s.pacer.queue, Added(evs[1..], maxChars));
      SeqAssoc(p.queue, Enqueued(evs[0], maxChars), Added(evs[1..], maxChars));
    }
  }

  lemma SeqAssoc(a: seq<string>, b: seq<string>, c: seq<string>)
    ensures (a + b) + c == a + (b + c)
  {
  }

  /** The timer discipline holds along every trace: never more than one pacer
      timer pending, and one pending exactly while processing. */
  lemma {:induction false} RunKeepsValid(p: Pacer, evs: seq<Event>, maxChars: int)
    requires maxChars >= 1 && Valid(p)
    ensures Valid(Run(p, evs, maxChars).final)
    ensures |Run(p, evs, maxChars).final.timer.pending| <= 1
    decreases |evs|
  {
    if |evs| == 0 {
      Timers.AtMostOnePending(p.timer);
    } else {
      var s := Apply(p, evs[0], maxChars);
      assert Valid(s.pacer);
      RunKeepsValid(s.pacer, evs[1..], maxChars);
    }
  }

  /** Every chunk put on screen stays there between the minimum and maximum
      display time. */
  lemma StepDelayBounded(p: Pacer, e: Event, maxChars: int)
    requires maxChars >= 1
    ensures var s := Apply(p, e, maxChars);
      s.delay.Some? ==> Config.MinSubtitleDisplayMs as real <= s.delay.value <= Config.MaxSubtitleDisplayMs as real
  {
  }

  /** For a chunk without whitespace the proportional share coincides with the
      chunk's own 135 ms per code unit: the override only matters for text with
      whitespace. */
  lemma CjkShareIsBaseTime(chunk: string, timings: seq<string>)
    requires !HasSpace(chunk) && |timings| > 1 && TotalChars(timings) > 0
    ensures DisplayTime(chunk, timings) == Clamp((|chunk| * Config.MsPerCjkChar) as real)
  {
    var t := TotalChars(timings);
    ShareOfPerUnit(|chunk|, t, Config.MsPerCjkChar);
    var x := (|chunk| * Config.MsPerCjkChar) as real;
    assert Max(Config.MinSubtitleDisplayMs as real, x) == x || x < Config.MinSubtitleDisplayMs as real;
  }

  /** A length share of `total * k` is `len * k`. */
  lemma ShareOfPerUnit(len: nat, total: nat, k: nat)
    requires total > 0
    ensures Share(len, total, (total * k) as real) == (len * k) as real
  {
    var l, t, kk := len as real, total as real, k as real;
    assert (total * k) as real == t * kk;
    assert (len * k) as real == l * kk;
    assert (l / t) * (t * kk) == l * kk;
  }

  /** Clamping never reverses an order. */
  lemma ClampMonotone(x: real, y: real)
    requires x <= y
    ensures Clamp(x) <= Clamp(y)
  {
  }

  /** With more than one timing entry, a chunk with whitespace is timed by its
      length alone: two such chunks of equal length get the same display time,
      however many words each holds, so its own word-based time is not used. */
  lemma SpacedShareIgnoresWords(a: string, b: string, timings: seq<string>)
    requires HasSpace(a) && HasSpace(b) && |a| == |b|
    requires |timings| > 1 && TotalChars(timings) > 0
    ensures DisplayTime(a, timings) == DisplayTime(b, timings)
  {
  }

  /** With more than one timing entry, a longer chunk of the same kind (both
      with whitespace, or both without) is never shown for a shorter time. */
  lemma ShareMonotone(a: string, b: string, timings: seq<string>)
    requires HasSpace(a) == HasSpace(b) && |a| <= |b|
    requires |timings| > 1 && TotalChars(timings) > 0
    ensures DisplayTime(a, timings) <= DisplayTime(b, timings)
  {
    var t, d := TotalChars(timings), TotalDuration(HasSpace(a), timings);
    ShareGrows(|a|, |b|, t, d);
    var lo := Config.MinSubtitleDisplayMs as real;
    ClampMonotone(Max(lo, Share(|a|, t, d)), Max(lo, Share(|b|, t, d)));
  }

  lemma ShareGrows(x: nat, y: nat, total: nat, duration: real)
    requires x <= y && total > 0 && duration >= 0.0
    ensures Share(x, total, duration) <= Share(y, total, duration)
  {
    var t := total as real;
    assert x as real / t <= y as real / t;
  }

  /** The unclamped share of the word-based total that a chunk with
      whitespace asks for. */
  function RawShare(chunk: string, timings: seq<string>): real
    requires TotalChars(timings) > 0
  {
    Share(|chunk|, TotalChars(timings), TotalWordTime(timings) as real)
  }

  /** The display times of a list of chunks, added up. */
  function SumDisplay(cs: seq<string>, timings: seq<string>): real {
    if |cs| == 0 then 0.0 else DisplayTime(cs[0], timings) + SumDisplay(cs[1..], timings)
  }

  /** A chunk with whitespace whose raw share needs no clamping is shown for
      exactly that share. */
  lemma SpacedShareUnclamped(chunk: string, timings: seq<string>)
    requires HasSpace(chunk) && |timings| > 1 && TotalChars(timings) > 0
    requires Config.MinSubtitleDisplayMs as real <= RawShare(chunk, timings) <= Config.MaxSubtitleDisplayMs as real
    ensures DisplayTime(chunk, timings) == RawShare(chunk, timings)
  {
  }

  /** Shares of one duration add up by length. */
  lemma ShareAdd(x: nat, y: nat, total: nat, duration: real)
    requires total > 0
    ensures Share(x, total, duration) + Share(y, total, duration) == Share(x + y, total, duration)
  {
    var t := total as real;
    assert x as real / t + y as real / t == (x + y) as real / t;
  }

  /** The whole is the whole duration. */
  lemma ShareWhole(total: nat, duration: real)
    requires total > 0
    ensures Share(total, total, duration) == duration
  {
    assert total as real / total as real == 1.0;
  }

  /** Under the hypotheses of `SharesCoverDuration`, the display times of any
      chunks of the translation add up to their share of its total. */
  lemma {:induction false} SumDisplayShares(cs: seq<string>, timings: seq<string>)
    requires |timings| > 1 && TotalChars(timings) > 0
    requires forall c :: c in cs ==> HasSpace(c)
    requires forall c :: c in cs ==>
      Config.MinSubtitleDisplayMs as real <= RawShare(c, timings) <= Config.MaxSubtitleDisplayMs as real
    ensures SumDisplay(cs, timings) == Share(TotalChars(cs), TotalChars(timings), TotalWordTime(timings) as real)
    decreases |cs|
  {
    var t, w := TotalChars(timings), TotalWordTime(timings) as real;
    if |cs| == 0 {
      assert Share(0, t, w) == 0.0;
    } else {
      assert cs[0] in cs;
      SpacedShareUnclamped(cs[0], timings);
      forall c | c in cs[1..] ensures c in cs {}
      SumDisplayShares(cs[1..], timings);
      ShareAdd(|cs[0]|, TotalChars(cs[1..]), t, w);
    }
  }

  /** When every chunk of a translation has whitespace and no chunk's share
      needs clamping, the chunks of that translation are on screen for exactly
      its word-based total time, 280 ms per word. */
  lemma SharesCoverDuration(timings: seq<string>)
    requires |timings| > 1 && TotalChars(timings) > 0
    requires forall c :: c in timings ==> HasSpace(c)
    requires forall c :: c in timings ==>
      Config.MinSubtitleDisplayMs as real <= RawShare(c, timings) <= Config.MaxSubtitleDisplayMs as real
    ensures SumDisplay(timings, timings) == TotalWordTime(timings) as real
  {
    SumDisplayShares(timings, timings);
    ShareWhole(TotalChars(timings), TotalWordTime(timings) as real);
  }

  /** Under the timer invariant the firing timer was the only one pending. */
  lemma FireOnlyPending(t: Timers.Slot, id: nat)
    ensures Timers.Valid(t) && id in t.pending ==> !Timers.Armed(Timers.Fire(t, id))
  {
    if Timers.Valid(t) && id in t.pending {
      Timers.AtMostOnePending(t);
      assert t.pending == {id} by {
        forall x | x in t.pending ensures x == id {}
      }
    }
  }

  lemma NoClearTail(evs: seq<Event>)
    requires |evs| > 0 && NoClear(evs)
    ensures !evs[0].ClearAll? && NoClear(evs[1..])
  {
    forall i | 0 <= i < |evs[1..]| ensures !evs[1..][i].ClearAll? {
      assert evs[1..][i] == evs[i + 1];
    }
  }

  /** Under the invariant the proportional branch is taken whenever there is
      more than one timing entry. */
  lemma {:induction false} NonEmptyTimingsHaveChars(ts: seq<string>)
    requires |ts| > 0 && forall t :: t in ts ==> t != ""
    ensures TotalChars(ts) > 0
  {
    assert ts[0] in ts;
  }
}
