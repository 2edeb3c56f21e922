/** The connection lifecycle of `renderer/hooks/useWebSocket.js`: the stored key,
    the `isIntentionalClose`, `hasRejected` and `connectedOnce` flags, the
    reconnect timer and the ping and session-refresh intervals, together with
    every socket the hook has ever created. Browser callbacks (`onopen`,
    `onerror`, `onclose`) and timer firings are explicit input events; a socket
    whose handlers were set to `null` still changes its `readyState` but no
    longer runs any code of the hook. */
module Connection {
  import opened Common
  import Timers
  import Voices

  /** A session older than 30 minutes may be refreshed ... */
  const SessionMaxAgeMs := 30 * 60 * 1000
  /** ... once the user has been quiet for 10 seconds. */
  const IdleThresholdMs := 10 * 1000

  /** `WebSocket.readyState`: CONNECTING (here `Opening`), OPEN, CLOSING, CLOSED. */
  datatype ReadyState = Opening | Open | Closing | Closed

  /** Who called `connect`: the application, or the reconnect timer (whose
      `.catch` reports 'Reconnect failed'). */
  datatype Origin = ByUser | ByReconnect

  /** The promise `connect` returned for this socket. */
  datatype Outcome = Pending | Resolved | Rejected(reason: string)

  /** One `new WebSocket(...)`: its ready state, whether the hook's handlers are
      still attached, whether its 5000 ms connection timeout is pending, and the
      promise of the `connect` call that made it. */
  datatype Socket = Socket(state: ReadyState, attached: bool, timeoutPending: bool, origin: Origin, outcome: Outcome)

  /** The hook's props that shape the session. */
  datatype Settings = Settings(langA: string, langB: string, direction: string, voiceType: string, voiceMode: bool)

  /** The `session.update` payload, without the instruction prompt. */
  datatype SessionConfig = SessionConfig(
    modalities: seq<string>,
    inputAudioFormat: string,
    transcriptionModel: string,
    language: Option<string>,
    temperature: real,
    maxOutputTokens: nat,
    voice: Option<string>,
    outputAudioFormat: Option<string>)

  /** The client messages: `session.update` (with a config, or the empty
      keep-alive), `input_audio_buffer.append`, `input_audio_buffer.commit` and
      `response.create`. */
  datatype Message = SessionUpdate(config: SessionConfig) | KeepAlive | AudioAppend(audio: string) | AudioCommit | ResponseCreate

  /** A message transmitted on socket `socket`. */
  datatype Sent = Sent(socket: nat, msg: Message)

  datatype Conn = Conn(
    settings: Settings,
    sockets: seq<Socket>,
    current: Option<nat>,        // wsRef
    key: Option<string>,         // apiKeyRef
    intentional: bool,           // isIntentionalCloseRef
    rejected: bool,              // hasRejectedRef
    connectedOnce: bool,         // connectedOnceRef
    reconnect: Timers.Slot,      // reconnectTimeoutRef
    ping: Timers.Slot,           // pingIntervalRef
    refresh: Timers.Slot,        // sessionRefreshIntervalRef
    sessionStart: int,
    lastActivity: int,
    status: Status,              // the last onStatusChange report
    outbox: seq<Sent>)

  function Initial(settings: Settings, now: int): Conn {
    Conn(settings, [], None, None, false, false, false, Timers.Idle, Timers.Idle, Timers.Idle,
         now, now, Status(Ready, "Ready"), [])
  }

  /** JavaScript truthiness of the key: neither null nor "". */
  predicate HasKey(key: Option<string>) {
    key.Some? && key.value != ""
  }

  /** `wsRef.current?.readyState === WebSocket.OPEN`, also `isConnected()`. */
  predicate IsOpen(c: Conn) {
    c.current.Some? && c.current.value < |c.sockets| && c.sockets[c.current.value].state == Open
  }

  /** The session configuration sent once a socket opens: the transcription
      language is the source language of a fixed direction, and voice mode adds
      the audio modality, a realtime voice and its output format. */
  function SessionConfigFor(s: Settings): (r: SessionConfig)
    ensures s.direction == "a-to-b" ==> r.language == Some(s.langA)
    ensures s.direction == "b-to-a" ==> r.language == Some(s.langB)
    ensures s.direction != "a-to-b" && s.direction != "b-to-a" ==> r.language.None?
    ensures "text" in r.modalities
    ensures ("audio" in r.modalities) <==> s.voiceMode
    ensures r.voice.Some? <==> s.voiceMode
    ensures r.outputAudioFormat.Some? <==> s.voiceMode
    ensures r.voice.Some? ==> r.voice.value in Voices.RealtimeVoices
    ensures r.inputAudioFormat == "pcm16" && r.maxOutputTokens == 500
  {
    var language :=
      if s.direction == "a-to-b" then Some(s.langA)
      else if s.direction == "b-to-a" then Some(s.langB)
      else None;
    SessionConfig(
      if s.voiceMode then ["text", "audio"] else ["text"],
      "pcm16", "gpt-4o-transcribe", language, 0.6, 500,
      if s.voiceMode then Some(Voices.GetRealtimeVoice(s.voiceType)) else None,
      if s.voiceMode then Some("pcm16") else None)
  }

  /** `ws.close()`: a connecting or open socket starts closing. */
  function CloseSocket(s: Socket): Socket {
    if s.state == Opening || s.state == Open then s.(state := Closing) else s
  }

  /** Settling a promise: the first settlement wins. */
  function Settle(s: Socket, o: Outcome): (r: Socket)
    ensures s.outcome == Pending ==> r.outcome == o
    ensures s.outcome != Pending ==> r.outcome == s.outcome
    ensures r == s.(outcome := r.outcome)
  {
    if s.outcome == Pending then s.(outcome := o) else s
  }

  /** `reject(...)` on socket `i`'s promise; for an automatic reconnect the
      `.catch` then reports the failure. */
  function Reject(c: Conn, i: nat, reason: string): (r: Conn)
    requires i < |c.sockets|
    ensures r.sockets == c.sockets[i := Settle(c.sockets[i], Rejected(reason))]
    ensures c.sockets[i].outcome == Pending && c.sockets[i].origin == ByReconnect ==>
      r.status == Status(Error, "Reconnect failed")
    ensures !(c.sockets[i].outcome == Pending && c.sockets[i].origin == ByReconnect) ==> r.status == c.status
    ensures r == c.(sockets := r.sockets, status := r.status)
  {
    var s := c.sockets[i];
    var c1 := c.(sockets := c.sockets[i := Settle(s, Rejected(reason))]);
    if s.outcome == Pending && s.origin == ByReconnect then c1.(status := Status(Error, "Reconnect failed")) else c1
  }

  /** The socket in `wsRef` loses its handlers, is closed and is forgotten. */
  function Retire(c: Conn): (r: Conn)
    ensures r.current == None && |r.sockets| == |c.sockets|
    ensures forall j :: 0 <= j < |c.sockets| && c.current != Some(j) ==> r.sockets[j] == c.sockets[j]
    ensures c.current.Some? && c.current.value < |c.sockets| ==>
      !r.sockets[c.current.value].attached &&
      r.sockets[c.current.value].state != Opening && r.sockets[c.current.value].state != Open &&
      (c.sockets[c.current.value].state == Closed ==> r.sockets[c.current.value].state == Closed)
    ensures r == c.(sockets := r.sockets, current := None)
  {
    if c.current.Some? && c.current.value < |c.sockets| then
      var j := c.current.value;
      c.(sockets := c.sockets[j := CloseSocket(c.sockets[j]).(attached := false)], current := None)
    else c.(current := None)
  }

  /** `connect(apiKey)`: without a key, report 'API Key missing' and open
      nothing. Otherwise store the key, clear the three flags, cancel a pending
      reconnect, retire the previous socket and open a new one, with its
      handlers attached and its connection timeout running. */
  function Connect(c: Conn, key: Option<string>, origin: Origin): (r: Conn)
    ensures !HasKey(key) ==>
      r == c.(status := r.status) &&
      r.status == (if origin == ByReconnect then Status(Error, "Reconnect failed") else Status(Error, "API Key missing"))
    ensures HasKey(key) ==>
      r.key == key && !r.intentional && !r.rejected && !r.connectedOnce &&
      r.reconnect == Timers.Cancel(c.reconnect) &&
      |r.sockets| == |c.sockets| + 1 && r.current == Some(|c.sockets|) &&
      r.sockets[|c.sockets|] == Socket(Opening, true, true, origin, Pending) &&
      (c.current.Some? && c.current.value < |c.sockets| ==> !r.sockets[c.current.value].attached) &&
      (forall j :: 0 <= j < |c.sockets| && c.current != Some(j) ==> r.sockets[j] == c.sockets[j])
    ensures HasKey(key) ==>
      r.ping == c.ping && r.refresh == c.refresh && r.status == c.status && r.outbox == c.outbox
  {
    if !HasKey(key) then
      c.(status := if origin == ByReconnect then Status(Error, "Reconnect failed") else Status(Error, "API Key missing"))
    else
      var c1 := Retire(c.(key := key, intentional := false, rejected := false, connectedOnce := false,
                          reconnect := Timers.Cancel(c.reconnect)));
      c1.(sockets := c1.sockets + [Socket(Opening, true, true, origin, Pending)], current := Some(|c1.sockets|))
  }

  /** `onopen`: clear the timeout, note the success, report 'Connected', send the
      session configuration on this socket, start the ping interval (the old
      ref is overwritten, not cleared) and restart the refresh interval. */
  function OnOpen(c: Conn, i: nat, now: int): (r: Conn)
    ensures i >= |c.sockets| || c.sockets[i].state != Opening ==> r == c
    ensures i < |c.sockets| && c.sockets[i].state == Opening ==>
      |r.sockets| == |c.sockets| && r.sockets[i].state == Open &&
      (forall j :: 0 <= j < |c.sockets| && j != i ==> r.sockets[j] == c.sockets[j])
    ensures i < |c.sockets| && c.sockets[i].state == Opening && !c.sockets[i].attached ==>
      r == c.(sockets := c.sockets[i := c.sockets[i].(state := Open)])
    ensures i < |c.sockets| && c.sockets[i].state == Opening && c.sockets[i].attached ==>
      r.connectedOnce && r.status == Status(Connected, "Connected") && r.sessionStart == now &&
      r.outbox == c.outbox + [Sent(i, SessionUpdate(SessionConfigFor(c.settings)))] &&
      r.ping == Timers.Arm(c.ping) && r.refresh == Timers.Arm(Timers.Cancel(c.refresh)) &&
      !r.sockets[i].timeoutPending && r.sockets[i].attached &&
      (c.sockets[i].outcome == Pending ==> r.sockets[i].outcome == Resolved) &&
      r.current == c.current && r.key == c.key && r.reconnect == c.reconnect &&
      r.intentional == c.intentional && r.rejected == c.rejected
  {
    if i >= |c.sockets| || c.sockets[i].state != Opening then c
    else
      var s := c.sockets[i].(state := Open);
      if !s.attached then c.(sockets := c.sockets[i := s])
      else
        c.(sockets := c.sockets[i := Settle(s.(timeoutPending := false), Resolved)],
           connectedOnce := true,
           status := Status(Connected, "Connected"),
           outbox := c.outbox + [Sent(i, SessionUpdate(SessionConfigFor(c.settings)))],
           ping := Timers.Arm(c.ping),
           sessionStart := now,
           refresh := Timers.Arm(Timers.Cancel(c.refresh)))
  }

  /** `onerror`: clear the timeout; an error before any open rejects the attempt
      (so the close that follows cannot reconnect); a later error does nothing
      more. */
  function OnError(c: Conn, i: nat): (r: Conn)
    ensures i >= |c.sockets| || !c.sockets[i].attached || c.sockets[i].state == Closed ==> r == c
    ensures i < |c.sockets| && c.sockets[i].attached && c.sockets[i].state != Closed ==>
      |r.sockets| == |c.sockets| && r.sockets[i].state == c.sockets[i].state && r.sockets[i].attached &&
      !r.sockets[i].timeoutPending &&
      (forall j :: 0 <= j < |c.sockets| && j != i ==> r.sockets[j] == c.sockets[j]) &&
      r.current == c.current && r.reconnect == c.reconnect && r.ping == c.ping && r.refresh == c.refresh &&
      r.intentional == c.intentional && r.key == c.key
    ensures i < |c.sockets| && c.sockets[i].attached && c.sockets[i].state != Closed && !c.connectedOnce ==>
      r.rejected && (r.status == Status(Error, "Connection error") || r.status == Status(Error, "Reconnect failed")) &&
      (c.sockets[i].outcome == Pending ==> r.sockets[i].outcome == Rejected("Connection error"))
    ensures i < |c.sockets| && c.sockets[i].attached && c.sockets[i].state != Closed && c.connectedOnce ==>
      r == c.(sockets := c.sockets[i := c.sockets[i].(timeoutPending := false)])
  {
    if i >= |c.sockets| || !c.sockets[i].attached || c.sockets[i].state == Closed then c
    else
      var c1 := c.(sockets := c.sockets[i := c.sockets[i].(timeoutPending := false)]);
      if c.connectedOnce then c1
      else Reject(c1.(rejected := true, status := Status(Error, "Connection error")), i, "Connection error")
  }

  /** The reconnect decision of `onclose`: not closed on purpose, not rejected,
      and a key to reconnect with. */
  predicate ShouldReconnect(c: Conn) {
    !c.intentional && !c.rejected && HasKey(c.key)
  }

  /** `onclose`: the socket is closed; with handlers attached, clear the timeout
      and both intervals, then either schedule a reconnect and report
      'Reconnecting...' or report 'Disconnected'. */
  function OnClose(c: Conn, i: nat): (r: Conn)
    ensures i >= |c.sockets| || c.sockets[i].state == Closed ==> r == c
    ensures i < |c.sockets| && c.sockets[i].state != Closed ==>
      |r.sockets| == |c.sockets| && r.sockets[i].state == Closed && r.sockets[i].attached == c.sockets[i].attached &&
      (forall j :: 0 <= j < |c.sockets| && j != i ==> r.sockets[j] == c.sockets[j]) &&
      r.current == c.current && r.key == c.key && r.intentional == c.intentional && r.rejected == c.rejected
    ensures i < |c.sockets| && c.sockets[i].state != Closed && !c.sockets[i].attached ==>
      r == c.(sockets := c.sockets[i := c.sockets[i].(state := Closed)])
    ensures i < |c.sockets| && c.sockets[i].state != Closed && c.sockets[i].attached ==>
      r.ping == Timers.Cancel(c.ping) && r.refresh == Timers.Cancel(c.refresh) && !r.sockets[i].timeoutPending &&
      (Timers.Armed(r.reconnect) <==> ShouldReconnect(c) || Timers.Armed(c.reconnect)) &&
      (ShouldReconnect(c) ==> r.reconnect == Timers.Arm(c.reconnect) && r.status == Status(Connecting, "Reconnecting...")) &&
      (!ShouldReconnect(c) ==> r.reconnect == c.reconnect && r.status == Status(Error, "Disconnected"))
  {
    if i >= |c.sockets| || c.sockets[i].state == Closed then c
    else
      var s := c.sockets[i].(state := Closed);
      if !s.attached then c.(sockets := c.sockets[i := s])
      else
        var c1 := c.(sockets := c.sockets[i := s.(timeoutPending := false)],
                     ping := Timers.Cancel(c.ping), refresh := Timers.Cancel(c.refresh));
        if ShouldReconnect(c1) then
          c1.(status := Status(Connecting, "Reconnecting..."), reconnect := Timers.Arm(c.reconnect))
        else c1.(status := Status(Error, "Disconnected"))
  }

  /** The 5000 ms connection timeout of socket `i`: detach its handlers, close
      it and reject its promise. The timeout belongs to the socket, so it still
      fires after the socket has been retired. */
  function OnTimeout(c: Conn, i: nat): (r: Conn)
    ensures i >= |c.sockets| || !c.sockets[i].timeoutPending ==> r == c
    ensures i < |c.sockets| && c.sockets[i].timeoutPending ==>
      |r.sockets| == |c.sockets| && !r.sockets[i].attached && !r.sockets[i].timeoutPending &&
      r.sockets[i].state != Opening && r.sockets[i].state != Open &&
      (c.sockets[i].state == Closed ==> r.sockets[i].state == Closed) &&
      (c.sockets[i].outcome == Pending ==> r.sockets[i].outcome == Rejected("Connection timeout")) &&
      (forall j :: 0 <= j < |c.sockets| && j != i ==> r.sockets[j] == c.sockets[j]) &&
      r == c.(sockets := r.sockets, status := r.status)
  {
    if i >= |c.sockets| || !c.sockets[i].timeoutPending then c
    else
      var s := CloseSocket(c.sockets[i]).(attached := false, timeoutPending := false);
      Reject(c.(sockets := c.sockets[i := s]), i, "Connection timeout")
  }

  /** The reconnect timer fires: `connect` again with the stored key. */
  function OnReconnectTimer(c: Conn, id: nat): (r: Conn)
    ensures id !in c.reconnect.pending ==> r == c
    ensures id in c.reconnect.pending ==>
      r == Connect(c.(reconnect := Timers.Fire(c.reconnect, id)), c.key, ByReconnect)
  {
    if id !in c.reconnect.pending then c
    else Connect(c.(reconnect := Timers.Fire(c.reconnect, id)), c.key, ByReconnect)
  }

  /** The 30 s ping interval: a keep-alive goes out only on an open socket. */
  function OnPing(c: Conn, id: nat): (r: Conn)
    ensures id in c.ping.pending && IsOpen(c) ==> r.outbox == c.outbox + [Sent(c.current.value, KeepAlive)]
    ensures !(id in c.ping.pending && IsOpen(c)) ==> r == c
    ensures r == c.(outbox := r.outbox)
  {
    if id in c.ping.pending && IsOpen(c) then c.(outbox := c.outbox + [Sent(c.current.value, KeepAlive)]) else c
  }

  /** The refresh rule: the session is old enough and the user has been idle long enough. */
  predicate RefreshDue(age: int, idle: int) {
    age >= SessionMaxAgeMs && idle >= IdleThresholdMs
  }

  /** The 60 s refresh interval: close an open session that is due, so that
      `onclose` reconnects it. */
  function OnRefresh(c: Conn, id: nat, now: int): (r: Conn)
    ensures (r != c) <==>
      (id in c.refresh.pending && IsOpen(c) && HasKey(c.key) &&
       RefreshDue(now - c.sessionStart, now - c.lastActivity))
    ensures r != c ==>
      r == c.(sockets := c.sockets[c.current.value := c.sockets[c.current.value].(state := Closing)])
  {
    if id in c.refresh.pending && IsOpen(c) && HasKey(c.key) && RefreshDue(now - c.sessionStart, now - c.lastActivity) then
      var j := c.current.value;
      c.(sockets := c.sockets[j := c.sockets[j].(state := Closing)])
    else c
  }

  /** `disconnect()` as written: mark the close intentional, forget the key,
      cancel every timer, close the socket and forget it, but leave its handlers
      attached. */
  function DisconnectAsWritten(c: Conn): (r: Conn)
    ensures r.intentional && r.key.None? && r.current.None?
    ensures r.reconnect == Timers.Cancel(c.reconnect) && r.ping == Timers.Cancel(c.ping) &&
            r.refresh == Timers.Cancel(c.refresh)
    ensures |r.sockets| == |c.sockets|
    ensures forall j :: 0 <= j < |c.sockets| ==> r.sockets[j].attached == c.sockets[j].attached
  {
    var c1 := c.(intentional := true, key := None, reconnect := Timers.Cancel(c.reconnect),
                 ping := Timers.Cancel(c.ping), refresh := Timers.Cancel(c.refresh));
    if c1.current.Some? && c1.current.value < |c1.sockets| then
      var j := c1.current.value;
      c1.(sockets := c1.sockets[j := CloseSocket(c1.sockets[j])], current := None)
    else c1.(current := None)
  }

  /** `disconnect()` as intended: the same, but the socket's handlers are
      removed before it is closed, as `connect` already does. */
  function Disconnect(c: Conn): (r: Conn)
    ensures r.intentional && r.key.None? && r.current.None?
    ensures r.reconnect == Timers.Cancel(c.reconnect) && r.ping == Timers.Cancel(c.ping) &&
            r.refresh == Timers.Cancel(c.refresh)
    ensures |r.sockets| == |c.sockets|
    ensures forall j :: 0 <= j < |c.sockets| ==> !r.sockets[j].attached || (c.current != Some(j) && c.sockets[j].attached)
  {
    Retire(c.(intentional := true, key := None, reconnect := Timers.Cancel(c.reconnect),
              ping := Timers.Cancel(c.ping), refresh := Timers.Cancel(c.refresh)))
  }

  /** `send(data)`: transmit on the current socket only when it is open. */
  function Send(c: Conn, m: Message): (r: (Conn, bool))
    ensures r.1 <==> IsOpen(c)
    ensures r.1 ==> r.0 == c.(outbox := c.outbox + [Sent(c.current.value, m)])
    ensures !r.1 ==> r.0 == c
  {
    if IsOpen(c) then (c.(outbox := c.outbox + [Sent(c.current.value, m)]), true) else (c, false)
  }

  /** `sendAudio`: record the activity time, then send the chunk. */
  function SendAudio(c: Conn, audio: string, now: int): (r: (Conn, bool))
    ensures r.0.lastActivity == now
    ensures r.1 <==> IsOpen(c)
    ensures r.1 ==> r.0.outbox == c.outbox + [Sent(c.current.value, AudioAppend(audio))]
    ensures !r.1 ==> r.0 == c.(lastActivity := now)
  {
    Send(c.(lastActivity := now), AudioAppend(audio))
  }

  function CommitAudio(c: Conn): (r: (Conn, bool))
    ensures r == Send(c, AudioCommit)
    ensures r.1 <==> IsOpen(c)
  {
    Send(c, AudioCommit)
  }

  function RequestResponse(c: Conn): (r: (Conn, bool))
    ensures r == Send(c, ResponseCreate)
    ensures r.1 <==> IsOpen(c)
  {
    Send(c, ResponseCreate)
  }

  /** The inputs: calls from the application and callbacks from the browser. */
  datatype Event =
    | ConnectCall(key: Option<string>)
    | DisconnectCall
    | OpenEvent(socket: nat, now: int)
    | ErrorEvent(socket: nat)
    | CloseEvent(socket: nat)
    | TimeoutFired(socket: nat)
    | ReconnectFired(id: nat)
    | PingFired(id: nat)
    | RefreshFired(id: nat, now: int)
    | AudioCall(audio: string, now: int)
    | CommitCall
    | ResponseCall

  /** One input, with the corrected `disconnect`. */
  function Step(c: Conn, e: Event): Conn {
    match e
    case ConnectCall(key) => Connect(c, key, ByUser)
    case DisconnectCall => Disconnect(c)
    case OpenEvent(i, now) => OnOpen(c, i, now)
    case ErrorEvent(i) => OnError(c, i)
    case CloseEvent(i) => OnClose(c, i)
    case TimeoutFired(i) => OnTimeout(c, i)
    case ReconnectFired(id) => OnReconnectTimer(c, id)
    case PingFired(id) => OnPing(c, id)
    case RefreshFired(id, now) => OnRefresh(c, id, now)
    case AudioCall(audio, now) => SendAudio(c, audio, now).0
    case CommitCall => CommitAudio(c).0
    case ResponseCall => RequestResponse(c).0
  }

  /** One input, with `disconnect` as written. */
  function StepAsWritten(c: Conn, e: Event): Conn {
    if e.DisconnectCall? then DisconnectAsWritten(c) else Step(c, e)
  }

  function Run(c: Conn, evs: seq<Event>): Conn
    decreases |evs|
  {
    if evs == [] then c else Run(Step(c, evs[0]), evs[1..])
  }

  function RunAsWritten(c: Conn, evs: seq<Event>): Conn
    decreases |evs|
  {
    if evs == [] then c else RunAsWritten(StepAsWritten(c, evs[0]), evs[1..])
  }

  /** The socket in `wsRef`, when there is one. */
  function Current(c: Conn): Socket
    requires c.current.Some? && c.current.value < |c.sockets|
  {
    c.sockets[c.current.value]
  }

  /** The lifecycle invariant: only the socket in `wsRef` can still run the
      hook's handlers; a reconnect is pending only once that socket has closed
      (hence at most one is pending); and an open current session has its ping
      and refresh intervals running. */
  ghost predicate Valid(c: Conn) {
    Timers.Valid(c.reconnect) && Timers.Valid(c.refresh) &&
    (c.current.Some? ==> c.current.value < |c.sockets|) &&
    (forall i :: 0 <= i < |c.sockets| && c.sockets[i].attached && c.sockets[i].state != Closed ==> c.current == Some(i)) &&
    (Timers.Armed(c.reconnect) ==> c.current.Some? && c.current.value < |c.sockets| && Current(c).state == Closed) &&
    (IsOpen(c) && Current(c).attached ==> Timers.Armed(c.ping) && Timers.Armed(c.refresh))
  }

  /** Under `Valid`, at most one reconnect is ever pending. */
  lemma AtMostOneReconnect(c: Conn)
    requires Valid(c)
    ensures |c.reconnect.pending| <= 1
  {
    Timers.AtMostOnePending(c.reconnect);
  }

  lemma ConnectKeepsValid(c: Conn, key: Option<string>, origin: Origin)
    requires Valid(c)
    ensures Valid(Connect(c, key, origin))
  {
    var r := Connect(c, key, origin);
    if HasKey(key) {
      assert r.reconnect.pending == {};
      forall i | 0 <= i < |c.sockets|
        ensures !(r.sockets[i].attached && r.sockets[i].state != Closed)
      {
        if c.current != Some(i) {
          assert r.sockets[i] == c.sockets[i];
        }
      }
    }
  }

  lemma OpenKeepsValid(c: Conn, i: nat, now: int)
    requires Valid(c)
    ensures Valid(OnOpen(c, i, now))
  {
    var r := OnOpen(c, i, now);
    if i < |c.sockets| && c.sockets[i].state == Opening {
      forall j | 0 <= j < |r.sockets| && r.sockets[j].attached && r.sockets[j].state != Closed
        ensures r.current == Some(j)
      {
        assert c.sockets[j].attached && c.sockets[j].state != Closed;
      }
      if c.sockets[i].attached {
        assert c.current == Some(i);
        Timers.AtMostOnePending(c.refresh);
      } else if IsOpen(r) && Current(r).attached {
        assert c.current.value != i;
      }
    }
  }

  lemma ErrorKeepsValid(c: Conn, i: nat)
    requires Valid(c)
    ensures Valid(OnError(c, i))
  {
    var r := OnError(c, i);
    if i < |c.sockets| && c.sockets[i].attached && c.sockets[i].state != Closed {
      forall j | 0 <= j < |r.sockets| && r.sockets[j].attached && r.sockets[j].state != Closed
        ensures r.current == Some(j)
      {
        assert c.sockets[j].attached && c.sockets[j].state != Closed;
      }
    }
  }

  lemma CloseKeepsValid(c: Conn, i: nat)
    requires Valid(c)
    ensures Valid(OnClose(c, i))
  {
    var r := OnClose(c, i);
    if i < |c.sockets| && c.sockets[i].state != Closed {
      forall j | 0 <= j < |r.sockets| && r.sockets[j].attached && r.sockets[j].state != Closed
        ensures r.current == Some(j)
      {
        assert c.sockets[j].attached && c.sockets[j].state != Closed;
      }
      if c.sockets[i].attached {
        assert c.current == Some(i);
        assert !Timers.Armed(c.reconnect);
      }
    }
  }

  lemma TimeoutKeepsValid(c: Conn, i: nat)
    requires Valid(c)
    ensures Valid(OnTimeout(c, i))
  {
    var r := OnTimeout(c, i);
    if i < |c.sockets| && c.sockets[i].timeoutPending {
      forall j | 0 <= j < |r.sockets| && r.sockets[j].attached && r.sockets[j].state != Closed
        ensures r.current == Some(j)
      {
        assert c.sockets[j].attached && c.sockets[j].state != Closed;
      }
    }
  }

  lemma ReconnectKeepsValid(c: Conn, id: nat)
    requires Valid(c)
    ensures Valid(OnReconnectTimer(c, id))
  {
    if id in c.reconnect.pending {
      AtMostOneReconnect(c);
      assert c.reconnect.pending == {id};
      var c1 := c.(reconnect := Timers.Fire(c.reconnect, id));
      assert c1.reconnect.pending == {};
      ConnectKeepsValid(c1, c.key, ByReconnect);
    }
  }

  lemma RefreshKeepsValid(c: Conn, id: nat, now: int)
    requires Valid(c)
    ensures Valid(OnRefresh(c, id, now))
  {
    var r := OnRefresh(c, id, now);
    if r != c {
      forall j | 0 <= j < |r.sockets| && r.sockets[j].attached && r.sockets[j].state != Closed
        ensures r.current == Some(j)
      {
        assert c.sockets[j].attached && c.sockets[j].state != Closed;
      }
    }
  }

  lemma DisconnectKeepsValid(c: Conn)
    requires Valid(c)
    ensures Valid(Disconnect(c))
  {
    var r := Disconnect(c);
    forall j | 0 <= j < |r.sockets|
      ensures !(r.sockets[j].attached && r.sockets[j].state != Closed)
    {
      if c.current != Some(j) {
        assert r.sockets[j] == c.sockets[j];
      }
    }
  }

  /** Every input keeps the lifecycle invariant (with the corrected `disconnect`). */
  lemma StepKeepsValid(c: Conn, e: Event)
    requires Valid(c)
    ensures Valid(Step(c, e))
  {
    match e
    case ConnectCall(key) => ConnectKeepsValid(c, key, ByUser);
    case DisconnectCall => DisconnectKeepsValid(c);
    case OpenEvent(i, now) => OpenKeepsValid(c, i, now);
    case ErrorEvent(i) => ErrorKeepsValid(c, i);
    case CloseEvent(i) => CloseKeepsValid(c, i);
    case TimeoutFired(i) => TimeoutKeepsValid(c, i);
    case ReconnectFired(id) => ReconnectKeepsValid(c, id);
    case PingFired(id) =>
    case RefreshFired(id, now) => RefreshKeepsValid(c, id, now);
    case AudioCall(audio, now) =>
    case CommitCall =>
    case ResponseCall =>
  }

  lemma {:induction false} RunKeepsValid(c: Conn, evs: seq<Event>)
    requires Valid(c)
    ensures Valid(Run(c, evs))
    decreases |evs|
  {
    if evs != [] {
      StepKeepsValid(c, evs[0]);
      RunKeepsValid(Step(c, evs[0]), evs[1..]);
    }
  }

  /** From start-up, whatever the inputs, at most one reconnect is pending, it
      is pending only once the current socket has closed, and an open session
      keeps its ping and refresh intervals. */
  lemma SessionsStayValid(settings: Settings, now: int, evs: seq<Event>)
    ensures Valid(Run(Initial(settings, now), evs))
    ensures |Run(Initial(settings, now), evs).reconnect.pending| <= 1
  {
    RunKeepsValid(Initial(settings, now), evs);
    AtMostOneReconnect(Run(Initial(settings, now), evs));
  }

  /** Under the invariant, a socket that is no longer in `wsRef` cannot touch the
      hook's state: its error changes nothing and its close only marks it closed. */
  lemma StaleSocketIgnored(c: Conn, i: nat)
    requires Valid(c) && i < |c.sockets| && c.current != Some(i)
    ensures Step(c, ErrorEvent(i)) == c
    ensures Step(c, CloseEvent(i)) ==
      (if c.sockets[i].state == Closed then c else c.(sockets := c.sockets[i := c.sockets[i].(state := Closed)]))
  {
    assert !c.sockets[i].attached || c.sockets[i].state == Closed;
  }

  /** Unfolding one input of a trace. */
  lemma RunAsWrittenCons(c: Conn, e: Event, rest: seq<Event>)
    ensures RunAsWritten(c, [e] + rest) == RunAsWritten(StepAsWritten(c, e), rest)
  {
    assert ([e] + rest)[0] == e && ([e] + rest)[1..] == rest;
  }

  /** Stop: connect, open, then `disconnect` as written. The old socket is
      closing but keeps its handlers. */
  lemma StopLeavesHandlers(settings: Settings, t: int)
    ensures RunAsWritten(Initial(settings, t), [ConnectCall(Some("k")), OpenEvent(0, t), DisconnectCall]) ==
      Initial(settings, t).(
        sockets := [Socket(Closing, true, false, ByUser, Resolved)],
        intentional := true, connectedOnce := true,
        ping := Timers.Slot(None, {}, 1), refresh := Timers.Slot(None, {}, 1),
        status := Status(Connected, "Connected"),
        outbox := [Sent(0, SessionUpdate(SessionConfigFor(settings)))])
  {
    var c0 := Initial(settings, t);
    var c1 := StepAsWritten(c0, ConnectCall(Some("k")));
    var c2 := StepAsWritten(c1, OpenEvent(0, t));
    var c3 := StepAsWritten(c2, DisconnectCall);
    RunAsWrittenCons(c0, ConnectCall(Some("k")), [OpenEvent(0, t), DisconnectCall]);
    RunAsWrittenCons(c1, OpenEvent(0, t), [DisconnectCall]);
    RunAsWrittenCons(c2, DisconnectCall, []);
    assert c1.sockets == [Socket(Opening, true, true, ByUser, Pending)] && c1.current == Some(0);
    assert c2.sockets == [Socket(Open, true, false, ByUser, Resolved)];
  }

  /** Start again and the new socket opens. */
  lemma RestartOpens(c3: Conn, t: int)
    requires c3.sockets == [Socket(Closing, true, false, ByUser, Resolved)] && c3.current.None?
    requires c3.reconnect == Timers.Idle && c3.ping.pending == {} && c3.refresh.pending == {}
    ensures var c := RunAsWritten(c3, [ConnectCall(Some("k")), OpenEvent(1, t)]);
      c.sockets == c3.sockets + [Socket(Open, true, false, ByUser, Resolved)] && c.current == Some(1) &&
      c.key == Some("k") && !c.intentional && !c.rejected && c.reconnect == Timers.Idle &&
      c.ping == Timers.Slot(Some(c3.ping.next), {c3.ping.next}, c3.ping.next + 1) &&
      c.refresh == Timers.Slot(Some(c3.refresh.next), {c3.refresh.next}, c3.refresh.next + 1)
  {
    var c4 := StepAsWritten(c3, ConnectCall(Some("k")));
    RunAsWrittenCons(c3, ConnectCall(Some("k")), [OpenEvent(1, t)]);
    RunAsWrittenCons(c4, OpenEvent(1, t), []);
    assert c4.sockets == c3.sockets + [Socket(Opening, true, true, ByUser, Pending)];
    assert c4.ping == c3.ping && c4.refresh == c3.refresh && c4.current == Some(1);
    assert Timers.Cancel(c3.refresh).pending == {};
  }

  /** The close event of a socket that kept its handlers, arriving while a
      newer session is open. */
  lemma LateClose(c: Conn)
    requires |c.sockets| == 2 && c.sockets[0] == Socket(Closing, true, false, ByUser, Resolved)
    requires c.current == Some(1) && c.sockets[1].state == Open && c.sockets[1].attached
    requires c.key == Some("k") && !c.intentional && !c.rejected && c.reconnect == Timers.Idle
    requires c.ping.ref.Some? && c.ping.pending == {c.ping.ref.value}
    requires c.refresh.ref.Some? && c.refresh.pending == {c.refresh.ref.value}
    ensures var r := StepAsWritten(c, CloseEvent(0));
      r.current == Some(1) && |r.sockets| == 2 && r.sockets[1] == c.sockets[1] &&
      r.key == Some("k") && r.reconnect.pending == {0} && r.status == Status(Connecting, "Reconnecting...") &&
      !Timers.Armed(r.ping) && !Timers.Armed(r.refresh)
  {
    assert StepAsWritten(c, CloseEvent(0)) == OnClose(c, 0);
    assert ShouldReconnect(c);
  }

  /** ... and only then the old socket's close event arrives. */
  lemma LateCloseAfterRestart(c3: Conn, t: int)
    requires c3.sockets == [Socket(Closing, true, false, ByUser, Resolved)] && c3.current.None?
    requires c3.reconnect == Timers.Idle && c3.ping.pending == {} && c3.refresh.pending == {}
    ensures var c := RunAsWritten(c3, [ConnectCall(Some("k")), OpenEvent(1, t), CloseEvent(0)]);
      c.current == Some(1) && |c.sockets| == 2 && c.sockets[1].state == Open && c.sockets[1].attached &&
      c.key == Some("k") && c.reconnect.pending == {0} && c.status == Status(Connecting, "Reconnecting...") &&
      !Timers.Armed(c.ping) && !Timers.Armed(c.refresh)
  {
    var a := [ConnectCall(Some("k")), OpenEvent(1, t)];
    RestartOpens(c3, t);
    var c5 := RunAsWritten(c3, a);
    LateClose(c5);
    RunAsWritten2(c3, a, [CloseEvent(0)]);
    RunAsWrittenCons(c5, CloseEvent(0), []);
    assert a + [CloseEvent(0)] == [ConnectCall(Some("k")), OpenEvent(1, t), CloseEvent(0)];
  }

  /** With `disconnect` as written, stopping and starting again before the old
      socket's close event arrives lets that late close schedule a reconnect
      while the new session is open, and stops the new session's ping and
      refresh intervals. */
  lemma StaleCloseReconnects(settings: Settings, t: int)
    ensures var c := RunAsWritten(Initial(settings, t),
      [ConnectCall(Some("k")), OpenEvent(0, t), DisconnectCall, ConnectCall(Some("k")), OpenEvent(1, t), CloseEvent(0)]);
      c.current == Some(1) && |c.sockets| == 2 && c.sockets[1].state == Open && c.sockets[1].attached &&
      c.key == Some("k") && c.reconnect.pending == {0} && c.status == Status(Connecting, "Reconnecting...") &&
      !Timers.Armed(c.ping) && !Timers.Armed(c.refresh) && !Valid(c)
  {
    var a := [ConnectCall(Some("k")), OpenEvent(0, t), DisconnectCall];
    var b := [ConnectCall(Some("k")), OpenEvent(1, t), CloseEvent(0)];
    StopLeavesHandlers(settings, t);
    LateCloseAfterRestart(RunAsWritten(Initial(settings, t), a), t);
    RunAsWritten2(Initial(settings, t), a, b);
    assert a + b == [ConnectCall(Some("k")), OpenEvent(0, t), DisconnectCall, ConnectCall(Some("k")), OpenEvent(1, t), CloseEvent(0)];
  }

  /** ... and when that spurious reconnect fires it tears down the healthy new
      session and opens a third socket. */
  lemma StaleReconnectReplacesSession(settings: Settings, t: int)
    ensures var c := RunAsWritten(Initial(settings, t),
      [ConnectCall(Some("k")), OpenEvent(0, t), DisconnectCall, ConnectCall(Some("k")), OpenEvent(1, t), CloseEvent(0),
       ReconnectFired(0)]);
      c.current == Some(2) && |c.sockets| == 3 && c.sockets[1].state == Closing && !c.sockets[1].attached
  {
    var evs := [ConnectCall(Some("k")), OpenEvent(0, t), DisconnectCall, ConnectCall(Some("k")), OpenEvent(1, t), CloseEvent(0)];
    StaleCloseReconnects(settings, t);
    var c6 := RunAsWritten(Initial(settings, t), evs);
    RunAsWritten2(Initial(settings, t), evs, [ReconnectFired(0)]);
    RunAsWrittenCons(c6, ReconnectFired(0), []);
    assert evs + [ReconnectFired(0)] ==
      [ConnectCall(Some("k")), OpenEvent(0, t), DisconnectCall, ConnectCall(Some("k")), OpenEvent(1, t), CloseEvent(0),
       ReconnectFired(0)];
  }

  /** Running two traces one after the other. */
  lemma {:induction false} RunAsWritten2(c: Conn, a: seq<Event>, b: seq<Event>)
    ensures RunAsWritten(c, a + b) == RunAsWritten(RunAsWritten(c, a), b)
    decreases |a|
  {
    if a != [] {
      assert (a + b)[0] == a[0] && (a + b)[1..] == a[1..] + b;
      RunAsWritten2(StepAsWritten(c, a[0]), a[1..], b);
    } else {
      assert a + b == b;
    }
  }

  /** After `disconnect`: the close is intentional, there is no key and no reconnect. */
  predicate Quiet(c: Conn) {
    c.intentional && c.key.None? && c.reconnect.pending == {}
  }

  lemma QuietStep(c: Conn, e: Event)
    requires Quiet(c) && !e.ConnectCall?
    ensures Quiet(StepAsWritten(c, e))
  {
    if e.CloseEvent? {
      assert !ShouldReconnect(c);
    }
  }

  /** `disconnect` (as written) silences the hook: until the next `connect`,
      no close, error, timeout or timer can schedule a reconnect. */
  lemma {:induction false} DisconnectSilences(c: Conn, evs: seq<Event>)
    requires Timers.Valid(c.reconnect)
    requires forall k :: 0 <= k < |evs| ==> !evs[k].ConnectCall?
    ensures Quiet(RunAsWritten(DisconnectAsWritten(c), evs))
    ensures !Timers.Armed(RunAsWritten(DisconnectAsWritten(c), evs).reconnect)
  {
    StaysQuiet(DisconnectAsWritten(c), evs);
  }

  lemma {:induction false} StaysQuiet(c: Conn, evs: seq<Event>)
    requires Quiet(c)
    requires forall k :: 0 <= k < |evs| ==> !evs[k].ConnectCall?
    ensures Quiet(RunAsWritten(c, evs))
    decreases |evs|
  {
    if evs != [] {
      QuietStep(c, evs[0]);
      StaysQuiet(StepAsWritten(c, evs[0]), evs[1..]);
    }
  }

  /** An error before the first successful open marks the attempt rejected, so
      the close that follows leaves the reconnect timer alone and reports
      'Disconnected'. */
  lemma ErrorBeforeOpenBlocksReconnect(c: Conn, i: nat)
    requires i < |c.sockets| && c.sockets[i].attached && c.sockets[i].state != Closed && !c.connectedOnce
    ensures var c2 := Step(Step(c, ErrorEvent(i)), CloseEvent(i));
      c2.rejected && c2.reconnect == c.reconnect && c2.status == Status(Error, "Disconnected")
  {
    var c1 := Step(c, ErrorEvent(i));
    assert c1.rejected && c1.sockets[i].attached && c1.sockets[i].state != Closed;
    assert !ShouldReconnect(c1);
  }

  /** Sending audio postpones a session refresh for the idle threshold. */
  lemma AudioDefersRefresh(c: Conn, audio: string, t: int, id: nat, now: int)
    requires now - t < IdleThresholdMs
    ensures var c1 := SendAudio(c, audio, t).0; OnRefresh(c1, id, now) == c1
  {
  }

  /** A refresh of an open, due session closes its socket, and the close then
      schedules the reconnect that opens a fresh session. */
  lemma RefreshLeadsToReconnect(c: Conn, id: nat, now: int)
    requires Valid(c) && IsOpen(c) && Current(c).attached && id in c.refresh.pending
    requires HasKey(c.key) && !c.intentional && !c.rejected
    requires RefreshDue(now - c.sessionStart, now - c.lastActivity)
    ensures var c2 := Step(Step(c, RefreshFired(id, now)), CloseEvent(c.current.value));
      Timers.Armed(c2.reconnect) && c2.status == Status(Connecting, "Reconnecting...") &&
      c2.sockets[c.current.value].state == Closed && |c2.reconnect.pending| == 1
  {
    var c1 := Step(c, RefreshFired(id, now));
    assert c1.sockets[c.current.value].state == Closing && c1.sockets[c.current.value].attached;
    assert !Timers.Armed(c.reconnect);
    assert ShouldReconnect(c1);
  }
}
