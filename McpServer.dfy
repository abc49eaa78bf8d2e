/**
 * The tool server (src/mcp/server.ts): a second, independent session
 * registry with its own capture engine, driven by named tool calls.
 *
 * A tool call names a tool and carries loosely typed arguments; every
 * argument may be missing, and a missing value is written out as
 * `undefined` where a message mentions it. Tool results are single text
 * items; no captured data is stored.
 */
module McpServer {
  import opened Types
  import opened Text
  import opened Browser
  import opened Nyra

  /** One declared input property of a tool; `choices` is empty when any value is allowed. */
  datatype Property = Property(name: string, kind: string, choices: seq<string>)

  /** One entry of the tool list. */
  datatype ToolSpec = ToolSpec(name: string, description: string, properties: seq<Property>, required: seq<string>)

  /** The six tools the server dispatches to. */
  datatype Tool = StartSession | StopSession | PlaybackStatus | FrameCapture | SubtitleRead | ContentAnalysis

  const AllTools: seq<Tool> := [StartSession, StopSession, PlaybackStatus, FrameCapture, SubtitleRead, ContentAnalysis]

  function ToolName(t: Tool): string
  {
    match t
    case StartSession => "start_movie_session"
    case StopSession => "stop_movie_session"
    case PlaybackStatus => "get_playback_state"
    case FrameCapture => "capture_frame"
    case SubtitleRead => "get_subtitles"
    case ContentAnalysis => "analyze_content"
  }

  /** The names of a list of properties, in order. */
  function PropertyNames(ps: seq<Property>): (names: seq<string>)
    ensures |names| == |ps| && forall i :: 0 <= i < |ps| ==> names[i] == ps[i].name
  {
    if ps == [] then [] else [ps[0].name] + PropertyNames(ps[1..])
  }

  /** Every required argument of a tool is one of its declared properties. */
  predicate RequiredDeclared(t: ToolSpec)
  {
    forall r :: r in t.required ==> r in PropertyNames(t.properties)
  }

  /** The declared `sessionId` argument of the session-scoped tools. */
  const SessionProperty: Property := Property("sessionId", "string", [])

  /** The declared optional `timestamp` argument. */
  const TimestampProperty: Property := Property("timestamp", "number", [])

  /** The announced description of one tool. */
  function SpecOf(t: Tool): (spec: ToolSpec)
    ensures spec.name == ToolName(t)
    ensures RequiredDeclared(spec)
  {
    match t
    case StartSession =>
      ToolSpec(ToolName(t), "Startet eine neue Film-Session für Datenextraktion",
        [Property("movieId", "string", []), Property("title", "string", []),
         Property("duration", "number", []), Property("url", "string", [])],
        ["movieId", "title", "url"])
    case StopSession =>
      ToolSpec(ToolName(t), "Beendet eine aktive Film-Session", [SessionProperty], ["sessionId"])
    case PlaybackStatus =>
      ToolSpec(ToolName(t), "Holt den aktuellen Playback-Status", [SessionProperty], ["sessionId"])
    case FrameCapture =>
      ToolSpec(ToolName(t), "Erfasst einen Screenshot vom aktuellen Frame", [SessionProperty, TimestampProperty], ["sessionId"])
    case SubtitleRead =>
      ToolSpec(ToolName(t), "Holt aktuelle Untertitel", [SessionProperty, TimestampProperty], ["sessionId"])
    case ContentAnalysis =>
      ToolSpec(ToolName(t), "Analysiert extrahierte Inhalte für Nyra",
        [SessionProperty, Property("contentType", "string", ["frame", "subtitle", "audio"])],
        ["sessionId", "contentType"])
  }

  /** The tool list the server announces, in its fixed order. */
  function ToolList(): (tools: seq<ToolSpec>)
    ensures |tools| == |AllTools|
    ensures forall i :: 0 <= i < |tools| ==> tools[i] == SpecOf(AllTools[i]) && tools[i].name == ToolName(AllTools[i])
    ensures forall i :: 0 <= i < |tools| ==> RequiredDeclared(tools[i])
  {
    seq(|AllTools|, i requires 0 <= i < |AllTools| => SpecOf(AllTools[i]))
  }

  /** The tool a call name selects; any other name selects none. */
  function ToolFor(name: string): (t: Option<Tool>)
    ensures t.Some? ==> ToolName(t.value) == name
  {
    if name == "start_movie_session" then Some(StartSession)
    else if name == "stop_movie_session" then Some(StopSession)
    else if name == "get_playback_state" then Some(PlaybackStatus)
    else if name == "capture_frame" then Some(FrameCapture)
    else if name == "get_subtitles" then Some(SubtitleRead)
    else if name == "analyze_content" then Some(ContentAnalysis)
    else None
  }

  /** The position of a tool in the announced order. */
  function IndexOf(t: Tool): (i: nat)
    ensures i < |AllTools| && AllTools[i] == t
  {
    match t
    case StartSession => 0
    case StopSession => 1
    case PlaybackStatus => 2
    case FrameCapture => 3
    case SubtitleRead => 4
    case ContentAnalysis => 5
  }

  /** Dispatching on a tool's own name selects that tool. */
  lemma DispatchInvertsToolName(t: Tool)
    ensures ToolFor(ToolName(t)) == Some(t)
  {
  }

  /**
   * The announced tool list and the dispatch agree: a name is dispatched
   * exactly when it is announced, and each announced name reaches the tool
   * at its position.
   */
  lemma ToolListMatchesDispatch(name: string)
    ensures ToolFor(name).Some? <==> exists i :: 0 <= i < |ToolList()| && ToolList()[i].name == name
    ensures forall i :: 0 <= i < |ToolList()| ==> ToolFor(ToolList()[i].name) == Some(AllTools[i])
  {
    var tools := ToolList();
    forall i | 0 <= i < |tools| ensures ToolFor(tools[i].name) == Some(AllTools[i]) {
      DispatchInvertsToolName(AllTools[i]);
    }
    if ToolFor(name).Some? {
      var i := IndexOf(ToolFor(name).value);
      assert tools[i].name == name;
    }
  }

  /** The analysis tool announces exactly the content kinds the analysis distinguishes. */
  lemma AnalysisChoicesAreKnownKinds()
    ensures ToolList()[IndexOf(ContentAnalysis)].name == "analyze_content"
    ensures var choices := ToolList()[IndexOf(ContentAnalysis)].properties[1].choices;
      forall c :: c in choices <==> IsKnownContentType(c)
  {
  }

  /** The arguments of a tool call; any of them may be missing. */
  datatype ToolArgs = ToolArgs(
    movieId: Option<string>,
    title: Option<string>,
    duration: Option<real>,
    url: Option<string>,
    sessionId: Option<string>,
    contentType: Option<string>)

  /** The record this server keeps per session. */
  datatype McpSession = McpSession(
    movieId: Option<string>,
    title: Option<string>,
    duration: Option<real>,
    url: Option<string>,
    startTime: int,
    isActive: bool,
    endTime: Option<int>)

  /** A stored session is active exactly while it has no end time. */
  predicate SessionInvariant(s: McpSession)
  {
    s.isActive <==> s.endTime.None?
  }

  /** The error of every session-scoped tool given an unknown session id. */
  function NotFoundError(sessionId: Option<string>): string
  {
    "Session " + Render(sessionId) + " nicht gefunden"
  }

  /** A single text content item, the only kind of result a tool call gives. */
  datatype ToolResult = TextResult(text: string)

  /** How a handler outcome is reported: its text, or the error message after `Error: `. */
  function AsToolResult(outcome: Result<string>): (r: ToolResult)
    ensures outcome.Success? ==> r.text == outcome.value
    ensures outcome.Failure? ==> StartsWith(r.text, "Error: ") && r.text[|"Error: "|..] == outcome.error
  {
    match outcome
    case Success(text) => TextResult(text)
    case Failure(e) => TextResult("Error: " + e)
  }

  /** An unknown tool name is reported as `Error: Unknown tool: <name>`. */
  lemma UnknownToolText(name: string)
    ensures AsToolResult(Failure("Unknown tool: " + name)) == TextResult("Error: Unknown tool: " + name)
  {
    assert "Error: " + ("Unknown tool: " + name) == "Error: Unknown tool: " + name;
  }

  /** Everything the browser, the clock and the memory service answer during one tool call. */
  datatype ToolEnv = ToolEnv(
    now: int,
    connect: Result<BrowserRef>,
    launch: Result<BrowserRef>,
    newPage: Result<PageRef>,
    loaded: Outcome,
    cookiePage: CookiePage,
    closed: Outcome,
    playback: Result<Option<VideoElement>>,
    stringify: PlaybackState -> string,
    video: Probe,
    screenshot: Result<string>,
    subtitleNodes: Result<seq<Option<string>>>,
    sendResponse: Result<bool>)

  class MovieMcpServer {
    var sessions: map<string, McpSession>
    const engine: CaptureEngine

    ghost predicate Valid()
      reads this
    {
      forall id :: id in sessions ==> SessionInvariant(sessions[id])
    }

    constructor ()
      ensures sessions == map[] && Valid()
      ensures fresh(engine) && engine.browser.None? && engine.page.None?
    {
      sessions := map[];
      engine := new CaptureEngine();
    }

    /** The stored session a call's `sessionId` argument names, if any. */
    function Lookup(sessionId: Option<string>): (s: Option<McpSession>)
      reads this
      ensures s.Some? <==> sessionId.Some? && sessionId.value in sessions
      ensures s.Some? ==> s.value == sessions[sessionId.value]
    {
      if sessionId.Some? && sessionId.value in sessions then Some(sessions[sessionId.value]) else None
    }

    /**
     * start_movie_session: initialise the browser and navigate, and only
     * then file an active session under `session_<now>`.
     */
    method StartMovieSession(args: ToolArgs, env: ToolEnv) returns (outcome: Result<string>)
      requires Valid()
      modifies this, engine
      ensures Valid()
      ensures outcome.Success? <==> Acquire(env.connect, env.launch).Success? && env.newPage.Success? && env.loaded.Pass?
      ensures outcome.Success? ==>
        var id := "session_" + IntToString(env.now);
        && sessions == old(sessions)[id := McpSession(args.movieId, args.title, args.duration, args.url, env.now, true, None)]
        && outcome.value == "Film-Session gestartet: " + Render(args.title) + " (ID: " + id + ")"
      ensures outcome.Failure? ==> sessions == old(sessions)
      ensures InitHandles(old(engine.browser), old(engine.page), env.connect, env.launch, env.newPage, engine.browser, engine.page)
      ensures outcome.Success? ==> engine.IsInitialized()
    {
      var sessionId := "session_" + IntToString(env.now);
      var init := engine.Initialize(env.connect, env.launch, env.newPage);
      if init.Fail? {
        return Failure(init.error);
      }
      var nav, _ := engine.NavigateToUrl(Render(args.url), env.loaded, env.cookiePage);
      if nav.Fail? {
        return Failure(nav.error);
      }
      sessions := sessions[sessionId := McpSession(args.movieId, args.title, args.duration, args.url, env.now, true, None)];
      outcome := Success("Film-Session gestartet: " + Render(args.title) + " (ID: " + sessionId + ")");
    }

    /**
     * stop_movie_session: mark the session ended and release the browser,
     * keeping the entry, so stopping it again succeeds again.
     */
    method StopMovieSession(args: ToolArgs, env: ToolEnv) returns (outcome: Result<string>)
      requires Valid()
      modifies this, engine
      ensures Valid()
      ensures old(Lookup(args.sessionId)).None? ==>
        outcome == Failure(NotFoundError(args.sessionId)) && sessions == old(sessions) && unchanged(engine)
      ensures old(Lookup(args.sessionId)).Some? ==>
        var id, s := args.sessionId.value, old(sessions)[args.sessionId.value];
        && outcome == Success("Film-Session beendet: " + Render(s.title))
        && sessions == old(sessions)[id := s.(isActive := false, endTime := Some(env.now))]
        && id in sessions
      ensures !(old(engine.browser).Some? && env.closed.Pass?) ==>
        engine.browser == old(engine.browser) && engine.page == old(engine.page)
      ensures old(Lookup(args.sessionId)).Some? && old(engine.browser).Some? && env.closed.Pass? ==>
        engine.browser.None? && engine.page.None?
    {
      var session := Lookup(args.sessionId);
      if session.None? {
        return Failure(NotFoundError(args.sessionId));
      }
      var ended := session.value.(isActive := false, endTime := Some(env.now));
      sessions := sessions[args.sessionId.value := ended];
      var _ := engine.Cleanup(env.closed);
      outcome := Success("Film-Session beendet: " + Render(ended.title));
    }

    /** What get_playback_state reports: not found, the reading's error, or the reading as JSON text. */
    predicate PlaybackReported(args: ToolArgs, env: ToolEnv, outcome: Result<string>)
      reads this, engine
    {
      && (Lookup(args.sessionId).None? ==> outcome == Failure(NotFoundError(args.sessionId)))
      && (Lookup(args.sessionId).Some? ==>
            var state := engine.GetPlaybackState(env.playback, env.now);
            && (state.Failure? ==> outcome == Failure(state.error))
            && (state.Success? ==> outcome == Success("Playback-Status: " + env.stringify(state.value))))
    }

    /** get_playback_state: the reading of the video element, as JSON text. */
    method GetPlaybackState(args: ToolArgs, env: ToolEnv) returns (outcome: Result<string>)
      ensures PlaybackReported(args, env, outcome)
    {
      if Lookup(args.sessionId).None? {
        return Failure(NotFoundError(args.sessionId));
      }
      var state := engine.GetPlaybackState(env.playback, env.now);
      if state.Failure? {
        return Failure(state.error);
      }
      outcome := Success("Playback-Status: " + env.stringify(state.value));
    }

    /** What capture_frame reports: not found, the capture's error, or the new frame's id. */
    predicate FrameReported(args: ToolArgs, env: ToolEnv, outcome: Result<string>)
      reads this, engine
    {
      && (Lookup(args.sessionId).None? ==> outcome == Failure(NotFoundError(args.sessionId)))
      && (Lookup(args.sessionId).Some? ==>
            var frame := engine.CaptureFrame(env.video, env.screenshot, env.now);
            && (frame.Failure? ==> outcome == Failure(frame.error))
            && (frame.Success? ==> outcome == Success("Frame erfasst: " + frame.value.id)))
    }

    /** capture_frame: capture a frame and report its id; the frame is not kept. */
    method CaptureFrame(args: ToolArgs, env: ToolEnv) returns (outcome: Result<string>)
      ensures FrameReported(args, env, outcome)
    {
      if Lookup(args.sessionId).None? {
        return Failure(NotFoundError(args.sessionId));
      }
      var frame := engine.CaptureFrame(env.video, env.screenshot, env.now);
      if frame.Failure? {
        return Failure(frame.error);
      }
      outcome := Success("Frame erfasst: " + frame.value.id);
    }

    /** What get_subtitles reports: not found, no page, or the number of subtitles extracted. */
    predicate SubtitlesReported(args: ToolArgs, env: ToolEnv, outcome: Result<string>)
      reads this, engine
    {
      && (Lookup(args.sessionId).None? ==> outcome == Failure(NotFoundError(args.sessionId)))
      && (Lookup(args.sessionId).Some? && engine.page.None? ==> outcome == Failure(NotInitialized))
      && (Lookup(args.sessionId).Some? && engine.page.Some? ==>
            outcome == Success("Untertitel extrahiert: " + IntToString(|SubtitlesOf(env.subtitleNodes, env.now)|) + " Untertitel gefunden"))
    }

    /** get_subtitles: read the subtitles and report how many were found; they are not kept. */
    method GetSubtitles(args: ToolArgs, env: ToolEnv) returns (outcome: Result<string>)
      ensures SubtitlesReported(args, env, outcome)
    {
      if Lookup(args.sessionId).None? {
        return Failure(NotFoundError(args.sessionId));
      }
      var subtitleData := engine.GetSubtitles(env.subtitleNodes, env.now);
      if subtitleData.Failure? {
        return Failure(subtitleData.error);
      }
      outcome := Success("Untertitel extrahiert: " + IntToString(|subtitleData.value|) + " Untertitel gefunden");
    }

    /** What analyze_content reports: not found, or the kind of the memory the analysis yields. */
    predicate AnalysisReported(args: ToolArgs, env: ToolEnv, outcome: Result<string>)
      reads this
    {
      && (Lookup(args.sessionId).None? ==> outcome == Failure(NotFoundError(args.sessionId)))
      && (Lookup(args.sessionId).Some? ==>
            var memory := ContentMemory(args.sessionId.value, Render(args.contentType), env.now);
            outcome == Success("Content-Analyse abgeschlossen: " + KindName(memory.kind)))
    }

    /** analyze_content: analyse content for the session and report the memory kind; it is not kept. */
    method AnalyzeContent(args: ToolArgs, env: ToolEnv) returns (outcome: Result<string>)
      ensures AnalysisReported(args, env, outcome)
    {
      if Lookup(args.sessionId).None? {
        return Failure(NotFoundError(args.sessionId));
      }
      var (memory, _) := Nyra.AnalyzeContent(args.sessionId.value, Render(args.contentType), env.now, env.sendResponse);
      outcome := Success("Content-Analyse abgeschlossen: " + KindName(memory.kind));
    }

    /**
     * A tool call: dispatch by name to the handler; whatever the handler
     * throws, and an unknown name, comes back as a text result
     * `Error: <message>` and never escapes.
     */
    method CallTool(name: string, args: ToolArgs, env: ToolEnv) returns (result: ToolResult, outcome: Result<string>)
      requires Valid()
      modifies this, engine
      ensures Valid()
      ensures result == AsToolResult(outcome)
      ensures ToolFor(name).None? ==>
        outcome == Failure("Unknown tool: " + name) && result == TextResult("Error: Unknown tool: " + name)
      ensures ToolFor(name).None? || ToolFor(name).value in {PlaybackStatus, FrameCapture, SubtitleRead, ContentAnalysis} ==>
        sessions == old(sessions) && unchanged(engine)
      ensures ToolFor(name).Some? && ToolFor(name).value != StartSession && old(Lookup(args.sessionId)).None? ==>
        && outcome == Failure(NotFoundError(args.sessionId))
        && result == TextResult("Error: " + NotFoundError(args.sessionId))
        && sessions == old(sessions)
        && unchanged(engine)
      ensures ToolFor(name) == Some(StartSession) ==>
        && (outcome.Success? <==> Acquire(env.connect, env.launch).Success? && env.newPage.Success? && env.loaded.Pass?)
        && (outcome.Success? ==>
              var id := "session_" + IntToString(env.now);
              && sessions == old(sessions)[id := McpSession(args.movieId, args.title, args.duration, args.url, env.now, true, None)]
              && outcome.value == "Film-Session gestartet: " + Render(args.title) + " (ID: " + id + ")")
        && (outcome.Failure? ==> sessions == old(sessions))
        && InitHandles(old(engine.browser), old(engine.page), env.connect, env.launch, env.newPage, engine.browser, engine.page)
        && (outcome.Success? ==> engine.IsInitialized())
      ensures ToolFor(name) == Some(StopSession) && !(old(engine.browser).Some? && env.closed.Pass?) ==>
        engine.browser == old(engine.browser) && engine.page == old(engine.page)
      ensures ToolFor(name) == Some(StopSession) && old(Lookup(args.sessionId)).Some? && old(engine.browser).Some? && env.closed.Pass? ==>
        engine.browser.None? && engine.page.None?
      ensures ToolFor(name) == Some(StopSession) && old(Lookup(args.sessionId)).Some? ==>
        var id, s := args.sessionId.value, old(sessions)[args.sessionId.value];
        && outcome == Success("Film-Session beendet: " + Render(s.title))
        && sessions == old(sessions)[id := s.(isActive := false, endTime := Some(env.now))]
        && id in sessions && !sessions[id].isActive && sessions[id].endTime == Some(env.now)
      ensures ToolFor(name) == Some(PlaybackStatus) ==> PlaybackReported(args, env, outcome)
      ensures ToolFor(name) == Some(FrameCapture) ==> FrameReported(args, env, outcome)
      ensures ToolFor(name) == Some(SubtitleRead) ==> SubtitlesReported(args, env, outcome)
      ensures ToolFor(name) == Some(ContentAnalysis) ==> AnalysisReported(args, env, outcome)
    {
      var tool := ToolFor(name);
      if tool.None? {
        outcome := Failure("Unknown tool: " + name);
        UnknownToolText(name);
      } else {
        match tool.value
        case StartSession => outcome := StartMovieSession(args, env);
        case StopSession => outcome := StopMovieSession(args, env);
        case PlaybackStatus => outcome := GetPlaybackState(args, env);
        case FrameCapture => outcome := CaptureFrame(args, env);
        case SubtitleRead => outcome := GetSubtitles(args, env);
        case ContentAnalysis => outcome := AnalyzeContent(args, env);
      }
      result := AsToolResult(outcome);
    }
  }
}
