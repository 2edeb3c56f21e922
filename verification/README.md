# sim-interpretation: the text-and-timing core in Dafny

This project models the logic of a live speech-interpretation desktop app, written in JavaScript.
The app streams microphone audio to a realtime speech model and shows the translations as subtitles.
It can also play the translation back as synthesised speech.
The model covers every part of the app that decides something, with one module per concern:

- `Config`: the subtitle timing constants, the font-size tables and the transcript hallucination filter (`renderer/constants/config.js`).
- `Voices`: the two voice lookup tables and their fallbacks (`renderer/constants/voices.js`).
- `JsText`: the JavaScript string semantics the app relies on. This covers the `\s` character class, `trim()`, `split(/\s+/)` and `includes`. A string is a sequence of Dafny `char`s, which are Unicode scalar values. For text inside the Basic Multilingual Plane this coincides with JavaScript's UTF-16 code units, and lengths agree.
- `Readiness`: the rule that decides when buffered speech is sent for translation (`renderer/App.jsx`).
- `Chunking`: `splitTextIntoChunks`, which packs a translation into screen-width subtitle chunks (`renderer/hooks/useSubtitle.js`).
- `Subtitle`: the subtitle pacer. This is a FIFO queue with a processing guard and clamped display times, driven by its own timer (`renderer/hooks/useSubtitle.js`).
- `App`: the sentence accumulator with its 2000 ms fallback timer, and the translation logs. It also covers the font-size buttons and the effect that feeds finished translations to the pacer (`renderer/App.jsx`).
- `Connection`: the WebSocket session lifecycle (`renderer/hooks/useWebSocket.js`). This covers connect, open, error, close, the connection timeout, auto-reconnect, the keep-alive ping, session refresh, disconnect and send.
- `Capture`: the voice-activity detector that decides when to commit audio. It also covers the two-chunk pre-buffer and the capture-session guard (`renderer/hooks/useAudioCapture.js`).
- `Playback`: the gapless playback scheduler of synthesised audio (`renderer/hooks/useRealtimeAudio.js`).
- `Framing`: the audio worklet that packs samples into 2400-sample frames (`renderer/audio-processor.js`).
- `Timers`: one `setTimeout`/`setInterval` reference together with the set of timer callbacks the browser still holds. Every timer of the app is such a slot.

Browser callbacks become explicit input events:
- timer firings;
- socket open, error and close;
- worklet messages;
- animation frames;
- server events.

Each component is therefore a pure transition function. `App`, `Subtitle`, `Capture` and `Connection` each have a `Run` over event sequences; `Playback` has `PlayAll` over a sequence of chunk arrivals, and `Framing` is one `process` call over a block of input.
The current time is a parameter of the events that read the clock.
`Date.now()` values are integers; the audio clock and durations are `real`.

Invariants are proved over all traces of the component they concern:
- at most one fallback timer is pending (`App.RunValid`);
- along any trace without a stop, the batches that `tryRequestResponse` takes from the buffer, followed by the text still waiting, are the accepted transcripts in order, joined with single spaces, and no batch is empty (`App.NoSpeechLost`);
- subtitles leave the queue in the order they entered it (`Subtitle.Fifo`);
- the voice detector never commits twice without audio sent in between (`Capture.CommitsAlternate`);
- over any sequence of chunk arrivals with no `resetTiming` or `stopAudio` in between, scheduled audio never overlaps (`Playback.PlayAllNoOverlap`); a reset while audio still plays lets the next chunk start on top of it (`Playback.ResetTimingAllowsOverlap`);
- with the corrected `disconnect`, every socket that still has its handlers and is not closed is the current one, and a reconnect is pending only while the current socket is closed, and never more than one (`Connection.SessionsStayValid`). A retired socket may still be closing, but its events no longer reach the hook.

## Model

| member | source | states |
|---|---|---|
| Timers.Arm | renderer/hooks/useWebSocket.js:200-205 | Arming stores the new id as the reference and adds one pending callback. On a slot with nothing pending, exactly one is then pending. |
| Timers.Cancel | renderer/App.jsx:185-188 | Clearing the referenced timer forgets the reference and leaves a valid slot with nothing pending. |
| Timers.Fire | renderer/App.jsx:202-208 | A firing callback leaves the pending set and keeps the reference; validity is preserved. |
| Timers.Forget | renderer/hooks/useSubtitle.js:83 | Nulling the reference without clearing keeps the pending set. |
| Timers.AtMostOnePending | renderer/App.jsx:185-208 | A valid slot has at most one pending callback. |
| Timers.ArmWithoutCancelLeaks | renderer/hooks/useWebSocket.js:141-145 | Re-arming a slot that still has a pending callback leaves two pending: the old interval leaks. |
| JsText.Trim | renderer/App.jsx:169 | `trim()` is empty exactly for whitespace-only text. Otherwise it neither starts nor ends with whitespace. |
| JsText.SplitWs | renderer/App.jsx:111 | `split(/\s+/)` always yields at least one word. |
| JsText.SplitWsRoundTrip | renderer/hooks/useSubtitle.js:23 | The words of `split(/\s+/)` contain no whitespace, and together they are the text with its whitespace removed. |
| JsText.RemoveSpaces | renderer/hooks/useSubtitle.js:20-23 | Removing whitespace never lengthens a string. |
| JsText.ContainsIff | renderer/constants/config.js:58 | `includes` holds iff the pattern occurs at some index. |
| Config.GetFontSizeClasses | renderer/constants/config.js:8-19 | For 0..5 the result is the entry of each table at that index. Outside that range every class is undefined. |
| Config.ListIncludesIff | renderer/constants/config.js:57 | `Array.includes` on the exact list is list membership. |
| Config.SomeContainedIff | renderer/constants/config.js:58 | `some(h => text.includes(h))` holds iff some listed tag occurs in the text. |
| Config.Characterisation | renderer/constants/config.js:54-60 | `isHallucination` holds iff one of four rules holds: text too short, a marker opener, an exact listed phrase, or a contained tag. |
| Config.NoOpenerNoTag | renderer/constants/config.js:47-51 | Text with no '[' and no '(' contains no listed tag. |
| Config.ListedPhraseRejected | renderer/constants/config.js:22-44 | "Thank you" is rejected. |
| Config.LowerCasePhraseAccepted | renderer/constants/config.js:57 | The exact match is case-sensitive, so "thank you" passes the filter. |
| Config.MarkerRejected | renderer/constants/config.js:56 | Text starting with '♪', '[' or '(' is rejected, whatever follows. |
| Config.TagRejected | renderer/constants/config.js:58 | Text containing "[Music]" anywhere is rejected. |
| Voices.Find | renderer/constants/voices.js:22 | `find` by code returns a listed option with that code. It returns none only when no option has the code. |
| Voices.GetVoice | renderer/constants/voices.js:2-22 | The result is always a listed option. It has the requested code when one is listed, and is `voiceOptions[4]` otherwise. |
| Voices.GetRealtimeVoice | renderer/constants/voices.js:12-25 | For a code that is not the name of an inherited `Object.prototype` property, the result is one of the six realtime voices, and 'alloy' for a code the table does not list. |
| Voices.RealtimeMapping | renderer/constants/voices.js:12-19 | fable→sage, onyx→ash and nova→coral; alloy, echo and shimmer map to themselves. |
| Voices.EveryOptionMapped | renderer/constants/voices.js:2-19 | Every selectable voice has a realtime mapping. |
| Voices.DefaultIsNova | renderer/constants/voices.js:22 | An unlisted code falls back to Nova. |
| Readiness.ShouldRequestTranslation | renderer/App.jsx:87-131 | The decision is positive iff the text is non-empty and either contains sentence punctuation or is long enough. The reason is given iff the decision is positive. |
| Readiness.EndsImpliesContains | renderer/App.jsx:87-97 | Ending with sentence punctuation implies containing it. |
| Readiness.TrimmedWordsNonEmpty | renderer/App.jsx:110-111 | Splitting trimmed text yields no empty word, so the word count counts real words. |
| Readiness.SentenceBoundaryReady | renderer/App.jsx:118-125 | A sentence ending with a period is sent, with the end-punctuation reason. |
| Chunking.HardSlices | renderer/hooks/useSubtitle.js:35-37 | Hard-slicing an oversize word yields non-empty slices of at most maxChars that reassemble the word. |
| Chunking.KeepNonBlank | renderer/hooks/useSubtitle.js:76 | The filter keeps only non-blank chunks, all taken from its input. |
| Chunking.SplitTextIntoChunks | renderer/hooks/useSubtitle.js:16-77 | Text that fits is returned as the single chunk `[text]`. Otherwise every chunk is non-blank and at most maxChars long. Text without whitespace is reassembled exactly. Removing whitespace from the chunks gives the text with whitespace removed. |
| Chunking.PartsRoundTrip | renderer/hooks/useSubtitle.js:48-49 | The capturing split on CJK punctuation, after the empty-part filter, yields non-empty parts that reassemble the text. |
| Chunking.PackWordsBound | renderer/hooks/useSubtitle.js:26-45 | Greedy word packing emits only chunks of 1..maxChars code units. |
| Chunking.PackPartsBound | renderer/hooks/useSubtitle.js:52-73 | Greedy part packing, including the kept last slice of an oversize part, emits only chunks of 1..maxChars code units. |
| Chunking.PackWordsKeepsText | renderer/hooks/useSubtitle.js:26-45 | Word packing keeps every non-space character in order. |
| Chunking.PackPartsConcat | renderer/hooks/useSubtitle.js:52-73 | Part packing reassembles its input exactly. |
| Chunking.KeepNonBlankKeepsText | renderer/hooks/useSubtitle.js:76 | Dropping blank chunks loses no non-space character. |
| Chunking.KeepNonBlankKeepsAll | renderer/hooks/useSubtitle.js:76 | On space-free non-empty chunks the filter removes nothing. |
| Chunking.SpaceFreeChunks | renderer/hooks/useSubtitle.js:46-74 | Chunks that reassemble space-free text are space-free. |
| Chunking.WordBranchKeepsText | renderer/hooks/useSubtitle.js:22-76 | The whitespace branch, filter included, keeps the text's non-space characters in order. |
| Chunking.PartsBranchRoundTrip | renderer/hooks/useSubtitle.js:46-76 | The no-whitespace branch, filter included, reassembles the text exactly. |
| Subtitle.Clamp | renderer/hooks/useSubtitle.js:112 | The clamped time lies in [300, 3000] ms and equals the input when that input is already in range. |
| Subtitle.DisplayTime | renderer/hooks/useSubtitle.js:92-112 | Every display time lies in [300, 3000] ms. Without a multi-chunk timing basis it is the clamped base time: 280 ms per word, or 135 ms per code unit for text without whitespace. |
| Subtitle.ProcessQueue | renderer/hooks/useSubtitle.js:80-115 | An empty queue stops processing and resets the timings. Otherwise the head is shown, the rest stays queued in order, the display time is computed and the timer is armed. |
| Subtitle.StartProcessing | renderer/hooks/useSubtitle.js:118-122 | A no-op while processing or with an empty queue. Otherwise processing starts and the head is shown. |
| Subtitle.StartShowsHead | renderer/hooks/useSubtitle.js:118-122 | Starting an idle pacer processes iff something is queued and pops exactly the head. It keeps the timings, the processed index and the pending-start flag. |
| Subtitle.TimerFired | renderer/hooks/useSubtitle.js:114 | A cancelled timer never fires: a non-pending id changes nothing. The pacer invariant is kept. |
| Subtitle.AddTranslation | renderer/hooks/useSubtitle.js:125-138 | The new chunks are appended after the unchanged queue and become the timing basis. Processing is not started. |
| Subtitle.Clear | renderer/hooks/useSubtitle.js:141-151 | Empties the queue and the screen, resets the index to -1, stops processing and leaves no timer pending. |
| Subtitle.StepFifo | renderer/hooks/useSubtitle.js:80-138 | One event moves chunks from the queue to the screen without reordering. |
| Subtitle.Fifo | renderer/hooks/useSubtitle.js:80-138 | Along any trace without a clear, the chunks shown and then the chunks still queued are the initial queue followed by every added translation's chunks. |
| Subtitle.RunKeepsValid | renderer/hooks/useSubtitle.js:80-151 | Along any trace the pacer keeps its invariant, with at most one timer pending. |
| Subtitle.StepDelayBounded | renderer/hooks/useSubtitle.js:112 | Every scheduled display time lies in [300, 3000] ms. |
| Subtitle.CjkShareIsBaseTime | renderer/hooks/useSubtitle.js:103-110 | For a chunk without whitespace, the proportional override equals the chunk's own 135 ms per code unit. |
| Subtitle.SpacedShareIgnoresWords | renderer/hooks/useSubtitle.js:103-110 | With more than one chunk in the timing basis, two chunks with whitespace of the same length get the same display time, whatever their word counts: the word-based base time is overridden. |
| Subtitle.ShareMonotone | renderer/hooks/useSubtitle.js:103-112 | With more than one chunk in the timing basis, a longer chunk of the same kind is never shown for a shorter time. |
| Subtitle.SpacedShareUnclamped | renderer/hooks/useSubtitle.js:103-112 | A chunk with whitespace whose length share of the word-based total lies in [300, 3000] ms is shown for exactly that share. |
| Subtitle.SharesCoverDuration | renderer/hooks/useSubtitle.js:103-112 | When every chunk of a translation has whitespace and no share needs clamping, the display times of its chunks add up to exactly its word-based total, 280 ms per word. |
| Subtitle.FireOnlyPending | renderer/hooks/useSubtitle.js:114 | After its only pending callback fires, the timer is no longer armed. |
| Subtitle.NonEmptyTimingsHaveChars | renderer/hooks/useSubtitle.js:104-105 | Non-empty chunks have a positive character total, so the ratio never divides by zero. |
| Playback.Duration | renderer/hooks/useRealtimeAudio.js:48 | A buffer's duration at 24 kHz is non-negative. |
| Playback.PlayAudioChunk | renderer/hooks/useRealtimeAudio.js:31-69 | Disabled: nothing changes. Enabled, with an empty or odd-length chunk: the context is opened and the call throws, changing nothing else. Enabled otherwise: the chunk starts at max(currentTime, nextPlayTime), nextPlayTime becomes start plus a positive duration (so at least now plus duration), the pending duration grows by the duration, and playing is on. |
| Playback.StopAudio | renderer/hooks/useRealtimeAudio.js:71-78 | The context is closed, playing is off and nextPlayTime is 0. The durations and the enabled flag are kept. |
| Playback.OnAudioDone | renderer/hooks/useRealtimeAudio.js:80-83 | The pending duration becomes the current one and pending is zeroed. |
| Playback.ResetTiming | renderer/hooks/useRealtimeAudio.js:85-87 | Only nextPlayTime changes, and it becomes 0. |
| Playback.ResetTimingAllowsOverlap | renderer/hooks/useRealtimeAudio.js:59-87 | After a reset, a chunk arriving while the previous one still plays starts at once and overlaps it; without the reset it would start when the previous one ends. |
| Playback.SetEnabled | renderer/hooks/useRealtimeAudio.js:89-94 | Enabling only sets the flag. Disabling also stops the audio. |
| Playback.PlayAllNoOverlap | renderer/hooks/useRealtimeAudio.js:59-62 | Over any sequence of chunk arrivals without a reset in between, the scheduled intervals never overlap. They lie between the old and the new nextPlayTime, which never decreases. |
| Playback.PlayingPersists | renderer/hooks/useRealtimeAudio.js:64-66 | Once playing, playing more chunks never stops it. |
| Playback.PendingAccumulates | renderer/hooks/useRealtimeAudio.js:44-52 | The pending duration grows by exactly the durations of the chunks that made a buffer; a throwing chunk adds nothing. |
| Playback.DisabledIsInert | renderer/hooks/useRealtimeAudio.js:32 | A disabled player ignores every chunk. |
| Framing.AsMessages | renderer/audio-processor.js:32 | Each full frame is posted as one 'audio' message, in order. |
| Framing.Process | renderer/audio-processor.js:9-42 | `process` always returns true and keeps fewer than 2400 samples buffered. On a non-empty input it posts one 'level' message, then only full 2400-sample frames. The frames followed by the new buffer are the old buffer followed by the input, in order. |
| Framing.FlattenSnoc | renderer/audio-processor.js:26-36 | Posting one more frame extends the posted samples by that frame. |
| Capture.StartCapture | renderer/hooks/useAudioCapture.js:47-48 | A new capture session gets the next id and is active. |
| Capture.StopCapture | renderer/hooks/useAudioCapture.js:125-132 | Stopping resets speaking, the silence and speech starts, the pending commit and the pre-buffer. It keeps the session id and the time speech last ended. |
| Capture.OnAudioFrame | renderer/hooks/useAudioCapture.js:92-114 | A frame of an inactive or stale session is ignored. While speaking, the buffered chunks go out in order before the live one and the pre-buffer empties. While silent, the chunk is buffered and the oldest is dropped beyond two. |
| Capture.SentAll | renderer/hooks/useAudioCapture.js:99-105 | Sending a list of chunks emits them one by one, in order. |
| Capture.Tick | renderer/hooks/useAudioCapture.js:173-194 | A loud frame keeps or starts speech, recording the start only on the transition, and clears the silence start. The first quiet frame while speaking records the silence start. Speech ends only after more than 600 ms of silence. A commit fires iff the speech lasted at least 600 ms and audio was sent; the commit then clears the sent flag. |
| Capture.SeparatedMonotone | renderer/hooks/useAudioCapture.js:188-191 | A commit-separated output stays separated when more audio counts as already sent. |
| Capture.SeparatedAppend | renderer/hooks/useAudioCapture.js:188-191 | Two separated outputs compose. |
| Capture.SentAllSeparated | renderer/hooks/useAudioCapture.js:99-105 | Sending chunks never commits, and it counts as sent audio iff there was at least one chunk. |
| Capture.StepSeparated | renderer/hooks/useAudioCapture.js:92-194 | One event never emits a commit that lacks sent audio since the previous commit. |
| Capture.CommitsAlternate | renderer/hooks/useAudioCapture.js:92-194 | Along any trace, two commits always have sent audio between them. A pending commit means audio has been sent since the last one. |
| Capture.SentSinceMonotone | renderer/hooks/useAudioCapture.js:104 | Whether audio was sent since the last commit is monotone in the starting flag. |
| Capture.PreBufferBounded | renderer/hooks/useAudioCapture.js:106-111 | Along any trace the pre-buffer never holds more than two chunks. |
| Capture.StaleSessionIgnored | renderer/hooks/useAudioCapture.js:93 | After a restart, a frame tagged with the previous capture id is ignored. |
| Capture.SpeechEndNeedsSilence | renderer/hooks/useAudioCapture.js:182 | A quiet frame ends speech iff the silence has lasted more than 600 ms. |
| Capture.SpeechEndStartsRecency | renderer/hooks/useAudioCapture.js:182-187 | The quiet frame that ends an utterance at a non-zero time t starts the recency window: afterwards `hadRecentSpeech(th)` holds iff now - t < th. |
| Capture.LoudIsRecent | renderer/hooks/useAudioCapture.js:173-178 | After a loud frame of a running capture, `hadRecentSpeech` holds for every threshold. |
| Capture.QuietWhileSpeakingIsRecent | renderer/hooks/useAudioCapture.js:179-182 | A quiet frame that comes within 600 ms of the recorded silence start keeps speech recent. |
| Capture.StopKeepsRecency | renderer/hooks/useAudioCapture.js:125-132 | Stopping a capture that is not speaking keeps the end of the last utterance, so `hadRecentSpeech` answers as before. |
| Connection.SessionConfigFor | renderer/hooks/useWebSocket.js:112-133 | The language is langA for 'a-to-b', langB for 'b-to-a', and absent otherwise. 'text' is always a modality. 'audio', a voice and an output format are present iff voice mode is on, and the voice is a realtime voice. |
| Connection.Settle | renderer/hooks/useWebSocket.js:30 | A promise settles once; later settlements are ignored. |
| Connection.Reject | renderer/hooks/useWebSocket.js:202-204 | Rejecting a pending reconnect attempt reports 'Reconnect failed'; otherwise the status is kept. |
| Connection.Retire | renderer/hooks/useWebSocket.js:52-61 | The previous socket is detached and closed and forgotten. Every other socket is unchanged. |
| Connection.Connect | renderer/hooks/useWebSocket.js:29-77 | Without a key: report 'API Key missing' and open nothing. With a key: store it, clear the three flags, cancel a pending reconnect, retire the old socket, and open a new attached socket with its timeout running. |
| Connection.OnOpen | renderer/hooks/useWebSocket.js:79-166 | An open socket that is still attached clears its timeout, resolves, reports 'Connected' and sends the session configuration. It starts the ping interval without clearing the old one and restarts the refresh interval. |
| Connection.OnError | renderer/hooks/useWebSocket.js:173-181 | An error before any open rejects the attempt and marks it rejected. A later error only clears the timeout. |
| Connection.OnClose | renderer/hooks/useWebSocket.js:183-209 | With handlers attached: clear both intervals, then arm a reconnect and report 'Reconnecting...' iff not intentional, not rejected and a key is stored; otherwise report 'Disconnected'. |
| Connection.OnTimeout | renderer/hooks/useWebSocket.js:63-72 | The timeout detaches and closes its own socket and rejects the promise with 'Connection timeout'. |
| Connection.OnReconnectTimer | renderer/hooks/useWebSocket.js:200-205 | A pending reconnect fires `connect` with the stored key; a cancelled one does nothing. |
| Connection.OnPing | renderer/hooks/useWebSocket.js:141-145 | The keep-alive goes out only on an open socket and touches nothing else. |
| Connection.OnRefresh | renderer/hooks/useWebSocket.js:152-163 | The refresh interval changes the state iff the socket is open, a key is stored, the session is at least 30 minutes old and idle for at least 10 s. The change is closing the current socket. |
| Connection.DisconnectAsWritten | renderer/hooks/useWebSocket.js:215-235 | Disconnect marks the close intentional, drops the key, cancels all three timers and forgets the socket, but leaves every socket's handlers attached. |
| Connection.Disconnect | renderer/hooks/useWebSocket.js:215-235 | The corrected disconnect does the same and also detaches the closed socket's handlers. |
| Connection.Send | renderer/hooks/useWebSocket.js:237-243 | `send` transmits on the current socket and returns true iff it is open. Otherwise it changes nothing and returns false. |
| Connection.SendAudio | renderer/hooks/useWebSocket.js:245-248 | Sending audio always records the activity time, and transmits iff the socket is open. |
| Connection.CommitAudio | renderer/hooks/useWebSocket.js:250-252 | A commit is sent iff the socket is open. |
| Connection.RequestResponse | renderer/hooks/useWebSocket.js:254-256 | A response request is sent iff the socket is open. |
| Connection.AtMostOneReconnect | renderer/hooks/useWebSocket.js:198-205 | In a valid state at most one reconnect is pending. |
| Connection.ConnectKeepsValid | renderer/hooks/useWebSocket.js:29-77 | `connect` preserves the session invariant. |
| Connection.OpenKeepsValid | renderer/hooks/useWebSocket.js:79-166 | `onopen` preserves the session invariant. |
| Connection.ErrorKeepsValid | renderer/hooks/useWebSocket.js:173-181 | `onerror` preserves the session invariant. |
| Connection.CloseKeepsValid | renderer/hooks/useWebSocket.js:183-209 | `onclose` preserves the session invariant. |
| Connection.TimeoutKeepsValid | renderer/hooks/useWebSocket.js:63-72 | The connection timeout preserves the session invariant. |
| Connection.ReconnectKeepsValid | renderer/hooks/useWebSocket.js:200-205 | The reconnect timer preserves the session invariant. |
| Connection.RefreshKeepsValid | renderer/hooks/useWebSocket.js:152-163 | The refresh interval preserves the session invariant. |
| Connection.DisconnectKeepsValid | renderer/hooks/useWebSocket.js:215-235 | The corrected disconnect preserves the session invariant. |
| Connection.StepKeepsValid | renderer/hooks/useWebSocket.js:29-256 | Every event preserves the session invariant. |
| Connection.RunKeepsValid | renderer/hooks/useWebSocket.js:29-256 | Every trace from a valid state ends in a valid state. |
| Connection.SessionsStayValid | renderer/hooks/useWebSocket.js:29-235 | From the initial state, every trace keeps at most one reconnect pending. An attached live socket is always the current one, and a pending reconnect only exists while the current socket is closed. |
| Connection.StaleSocketIgnored | renderer/hooks/useWebSocket.js:52-61 | Once the invariant holds, an error or close of a socket other than the current one changes nothing but that socket's state. |
| Connection.StopLeavesHandlers | renderer/hooks/useWebSocket.js:215-235 | After connect, open and disconnect, the closed socket still has its handlers attached. |
| Connection.RestartOpens | renderer/hooks/useWebSocket.js:29-166 | A new connect and open after that yields an open current session with both intervals armed. |
| Connection.LateClose | renderer/hooks/useWebSocket.js:183-208 | The old socket's close then clears the new session's intervals and arms a reconnect. |
| Connection.LateCloseAfterRestart | renderer/hooks/useWebSocket.js:183-208 | The two steps combined. |
| Connection.StaleCloseReconnects | renderer/hooks/useWebSocket.js:183-235 | After connect, open, disconnect, connect, open and the first socket's late close, a reconnect is pending while the new session is open. Its ping and refresh are gone and the session invariant is broken. |
| Connection.StaleReconnectReplacesSession | renderer/hooks/useWebSocket.js:200-205 | The spurious reconnect then tears down the healthy session and opens a third socket. |
| Connection.QuietStep | renderer/hooks/useWebSocket.js:198 | Without a stored key and with nothing pending, no event other than connect arms a reconnect. |
| Connection.DisconnectSilences | renderer/hooks/useWebSocket.js:215-235 | After disconnect, no trace without a new connect ever arms a reconnect. |
| Connection.StaysQuiet | renderer/hooks/useWebSocket.js:198 | A quiet state stays quiet along any trace without connect. |
| Connection.ErrorBeforeOpenBlocksReconnect | renderer/hooks/useWebSocket.js:173-208 | An error before the first open makes the following close report 'Disconnected' without touching the reconnect timer. |
| Connection.AudioDefersRefresh | renderer/hooks/useWebSocket.js:245-248 | Audio sent less than 10 s ago blocks a session refresh. |
| Connection.RefreshLeadsToReconnect | renderer/hooks/useWebSocket.js:158-205 | A due refresh of an open session closes it, and the close arms exactly one reconnect with 'Reconnecting...'. |
| App.Glue | renderer/App.jsx:178-180 | The single-space join is empty iff both parts are empty. |
| App.GlueAssoc | renderer/App.jsx:178-180 | The single-space join is associative, so joining transcript by transcript equals joining them all. |
| App.TryRequestResponse | renderer/App.jsx:133-150 | An empty buffer does nothing. Otherwise the whole buffer is taken as one batch with exactly one response request, the buffer is cleared and the fallback timer is cancelled. |
| App.OnTranscription | renderer/App.jsx:166-215 | A rejected transcript changes nothing. An accepted one is trimmed, logged and joined to the buffer. A ready buffer is requested at once with 'Translating...'; otherwise it waits with the fallback timer armed and 'Listening...'. |
| App.OnSentenceTimeout | renderer/App.jsx:202-208 | A cancelled timer does nothing. A firing timer requests a non-empty buffer; an empty buffer yields no request. |
| App.OnStopListening | renderer/App.jsx:317-330 | Stopping empties the buffer, leaves no fallback timer pending, stops listening and reports 'Ready'. It stops capture, disconnects and resets playback timing. |
| App.FeedSubtitles | renderer/App.jsx:407-429 | The effect does nothing unless subtitle mode is on, no translation is streaming and a new translation exists. It changes only the pacer and keeps its invariant. |
| App.FeedHandsOver | renderer/App.jsx:411-428 | A new translation is marked processed and its chunks join the queue as the timing basis. The pacer starts at once outside voice mode, and waits for playing audio in voice mode. |
| App.OnTextDelta | renderer/App.jsx:217-223 | A delta is appended to the streaming translation and nothing else changes. |
| App.OnTextDone | renderer/App.jsx:225-233 | An empty streaming translation changes nothing. A non-empty one is appended to the translated log and reset. |
| App.OnAudioDelta | renderer/App.jsx:235-249 | Outside voice mode nothing changes. In voice mode a chunk that throws leaves everything but the opened audio context alone. Otherwise the chunk is played and the speaking flag is set, and a subtitle start deferred until audio plays starts now. |
| App.IncreaseFontSize | renderer/App.jsx:343-345 | The size grows by one below 5 and otherwise stays, so it stays in [0, 5]. |
| App.DecreaseFontSize | renderer/App.jsx:347-349 | The size shrinks by one above 0 and otherwise stays, so it stays in [0, 5]. |
| App.JoinedAppend | renderer/App.jsx:178-180 | Joining two lists of texts is joining their joins. |
| App.TranscriptionKeepsSpeech | renderer/App.jsx:166-209 | One transcription keeps the speech: the batches taken then the buffer equal the old buffer then the accepted transcript. No batch is empty. |
| App.TimeoutKeepsSpeech | renderer/App.jsx:202-208 | The fallback timer moves the buffer into a batch without losing or adding text. |
| App.OthersKeepSpeech | renderer/App.jsx:217-266 | No other server event touches the buffer or issues a request. |
| App.StepKeepsSpeech | renderer/App.jsx:166-266 | Every event except stop keeps the speech, and takes no empty batch. |
| App.NoSpeechLost | renderer/App.jsx:133-215 | Along any trace without stop, the batches taken by `tryRequestResponse` followed by the waiting text equal the initial buffer followed by every accepted transcript, joined with single spaces. No batch is ever empty. |
| App.FiredWasOnly | renderer/App.jsx:202-208 | After the only pending fallback timer fires, none is armed. |
| App.HandleValid | renderer/App.jsx:166-266 | Every handler keeps at most one fallback timer pending and the pacer valid. |
| App.StepValid | renderer/App.jsx:166-266 | Every event followed by the subtitle effect keeps the invariant. |
| App.RunValid | renderer/App.jsx:185-208 | Along any trace at most one fallback timer is pending. |
| App.OthersKeepLogs | renderer/App.jsx:235-266 | Audio, timeout, stop and status events leave both logs and the streaming translation alone. |
| App.TextDoneLogs | renderer/App.jsx:225-233 | "Done" moves the streaming translation into the log without changing their concatenation. |
| App.HandleLogs | renderer/App.jsx:166-266 | One handler appends its delta to the translation text and its accepted transcript to the original log. |
| App.StepLogs | renderer/App.jsx:166-266 | The same holds for a whole step, subtitle effect included. |
| App.LogsKeepEverything | renderer/App.jsx:172-233 | Along any trace without a clear, the logged translations followed by the streaming one are the received deltas in order. The original log grows by exactly the accepted transcripts. |
| App.StopLeavesNothingPending | renderer/App.jsx:317-330 | After stop, the buffer is empty, no fallback timer is pending and listening is off. |

## Left out

- Text outside the Basic Multilingual Plane is not modelled. A character such as an emoji is one `char` here but two UTF-16 code units in JavaScript, so `length` differs. This affects the 4-unit minimum of the hallucination filter, the chunk widths and the 135 ms per code unit. The model agrees with the source only on text without surrogate pairs.
- A response request carries no text. `requestResponse()` sends only `response.create`, and the text of a batch is only logged, so the batch in the app's `RequestResponse` effect is bookkeeping.
- Sending can fail. The app issues its request effects whether or not the socket is open, and `send` drops a message on a socket that is not open (`Connection.Send`). The two models are not composed, so `App.NoSpeechLost` speaks of the batches taken from the buffer, not of delivered requests.
- `stopListening` discards the waiting text, which is why `App.NoSpeechLost` holds only on traces without a stop.
- Voices.GetRealtimeVoice: a code that names an inherited `Object.prototype` property (`toString`, `constructor`, `__proto__`, ...) is not modelled. `realtimeVoiceMap[code] || 'alloy'` then yields that function or object instead of 'alloy', and `JSON.stringify` drops the voice from `session.update`. The codes the app passes come only from `voiceOptions` or the default 'nova'.
- Playback.PlayAllNoOverlap: overlap-freedom is promised only between resets. `stopListening` calls `resetTiming` while the context keeps playing, so the next chunk can overlap audio already scheduled (`Playback.ResetTimingAllowsOverlap`). The source does the same.
- Browser I/O is not modelled:
  - the WebSocket, AudioContext, AudioWorklet, `getUserMedia`, `setTimeout`/`setInterval` and `requestAnimationFrame`;
  - instead, every callback they deliver is an event of the component's `Run`.
- The delays are not modelled (5000 ms connection timeout, 1500 ms reconnect, 30 s ping, 60 s refresh, 2000 ms sentence fallback, subtitle display time). Timer firings are events, so any interleaving is allowed.
- Floating point is not modelled (PCM16 conversion, the RMS level, the analyser's amplitude). The detector receives "level above 0.06" as a boolean, and display times and audio times are exact `real`s.
- Base64 decoding is not modelled: an audio chunk is its decoded byte count. A `delta` that `atob` rejects is not modelled either.
- The instruction prompt, the custom instruction and the JSON serialisation of messages are opaque text sent to a remote model. Messages are a datatype, and the ping's empty `session.update` is `KeepAlive`.
- `renderer/utils/sentenceCheck.js` is not part of this model: it is a network call.
- React rendering, settings, device lists and the `maxChars` layout computation in the subtitle component are not modelled. `maxChars` is a parameter of at least 1. For `maxChars <= 0` the slicing loops of `splitTextIntoChunks` (`i += maxChars`, useSubtitle.js lines 35 and 59) would never end. The app never gets there: it starts at 50 and the subtitle component reports at least 10.
- Chunking.SplitTextIntoChunks: an `undefined` or `null` text is not modelled; the model takes a string, where a falsy text is the empty string.
- The `undefined` entries that `getFontSizeClasses` returns outside 0..5 are `None`.
- The 500 ms delay before the speaking flag drops after 'response.audio.done' is a counted grace event. React's batching of `setIsSpeakingTTS` is not modelled.
- `clearTranscripts` is an event of the app model, but its subtitle interaction is not analysed. It does not reset the pacer's processed index, so until the log grows past the old index, new translations are not shown as subtitles. The lemmas about the logs assume no clear.
- The `onDisconnect` callback of the socket hook is not modelled: the app never passes one.
- The source has no in-flight guard for responses ("allow parallel responses"), and the model has none either. Nothing filters repeated transcripts.
- Connection.OnTimeout: a retired socket's timeout still fires and rejects that socket's promise. For a reconnect attempt this reports 'Reconnect failed' although a newer session may be live. This is modelled as written; the session invariant does not cover the status text.
- Connection.OnOpen: a connect over an open socket leaves the old ping interval running, because `onopen` overwrites the reference without clearing it. The session invariant requires the intervals only while the current socket is open. `Timers.ArmWithoutCancelLeaks` states the leak.
- The promise that `connect` returns is modelled per socket as pending, resolved or rejected; what callers do with it is left out, except the reconnect's 'Reconnect failed'.

## Findings

| source | as written | input that shows it | evidently intended | confidence | as-written member | corrected member |
|---|---|---|---|---|---|---|
| renderer/hooks/useWebSocket.js:215-235 | `disconnect()` closes and forgets the socket but leaves its `onclose` handler attached. The close arrives later, after a new `connect()` may have reset the intentional-close flag. | connect, open, disconnect, connect, open, then the first socket's close event. The old handler clears the new session's ping and refresh intervals, reports 'Reconnecting...' and arms a reconnect. That reconnect later closes the healthy session and opens a third socket. | Detach the handlers before closing, as `connect` does for the same reason (lines 52-61). A close of a forgotten socket then has no effect. | not executed | Connection.StaleCloseReconnects | Connection.SessionsStayValid |
