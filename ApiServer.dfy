/**
 * The request/response server (src/api/server.ts): a registry of movie
 * sessions keyed by session id, with one route handler per operation.
 *
 * Each handler's outcome is its reply: 200 with a payload, 404 for an
 * unknown session, or 500 with the message of the error that was thrown.
 * The capture engine is the server's own CaptureEngine; what the browser and
 * the memory service answer is passed in.
 */
module ApiServer {
  import opened Types
  import opened Text
  import opened Browser
  import opened Nyra

  /** The outcome of one route handler. */
  datatype Reply<+T> = Ok(payload: T) | NotFound | ServerError(error: string)

  /** The HTTP status code a reply is sent with. */
  function Status<T>(r: Reply<T>): (code: int)
    ensures code == 200 <==> r.Ok?
    ensures code == 404 <==> r.NotFound?
    ensures code == 500 <==> r.ServerError?
  {
    match r
    case Ok(_) => 200
    case NotFound => 404
    case ServerError(_) => 500
  }

  /** The error text of every 404 reply. */
  const SessionNotFound: string := "Session nicht gefunden"

  /** The payload of a successful session creation. */
  datatype Created = Created(sessionId: string, session: MovieSession, message: string)

  /** The id a session created at time `now` gets. */
  function SessionId(now: int): string
  {
    "session_" + IntToString(now)
  }

  /** Session ids made at different times differ. */
  lemma SessionIdInjective(now1: int, now2: int)
    ensures SessionId(now1) == SessionId(now2) ==> now1 == now2
  {
    var p := "session_";
    if SessionId(now1) == SessionId(now2) {
      assert IntToString(now1) == SessionId(now1)[|p|..];
      assert IntToString(now2) == SessionId(now2)[|p|..];
      IntToStringInjective(now1, now2);
    }
  }

  /** The record of a freshly created session: active, with four empty histories. */
  function NewSession(sessionId: string, movieId: Option<string>, now: int): (s: MovieSession)
    ensures s.id == sessionId && s.movieId == movieId && s.startTime == now
    ensures s.isActive && s.endTime.None?
    ensures s.data == SessionData([], [], [], [])
  {
    MovieSession(sessionId, movieId, now, None, true, SessionData([], [], [], []))
  }

  /** The session with one more frame at the end of its frame history. */
  function WithFrame(s: MovieSession, f: FrameData): (t: MovieSession)
    ensures t.data.frames == s.data.frames + [f]
    ensures t.data.subtitles == s.data.subtitles && t.data.audio == s.data.audio && t.data.memories == s.data.memories
    ensures t.(data := s.data) == s
  {
    s.(data := s.data.(frames := s.data.frames + [f]))
  }

  /** The session with a list of subtitles appended, in order, to its subtitle history. */
  function WithSubtitles(s: MovieSession, subs: seq<SubtitleData>): (t: MovieSession)
    ensures t.data.subtitles == s.data.subtitles + subs
    ensures t.data.frames == s.data.frames && t.data.audio == s.data.audio && t.data.memories == s.data.memories
    ensures t.(data := s.data) == s
    ensures subs == [] ==> t == s
  {
    s.(data := s.data.(subtitles := s.data.subtitles + subs))
  }

  /** The session with one more memory at the end of its memory history. */
  function WithMemory(s: MovieSession, m: NyraMemory): (t: MovieSession)
    ensures t.data.memories == s.data.memories + [m]
    ensures t.data.frames == s.data.frames && t.data.subtitles == s.data.subtitles && t.data.audio == s.data.audio
    ensures t.(data := s.data) == s
  {
    s.(data := s.data.(memories := s.data.memories + [m]))
  }

  /**
   * What every stored session satisfies: it is filed under its own id, is
   * active (ending a session removes it), has no audio, and holds only
   * records the capture engine and the analysis bridge can produce.
   */
  predicate SessionInvariant(key: string, s: MovieSession)
  {
    && s.id == key && s.isActive && s.endTime.None? && s.data.audio == []
    && (forall f :: f in s.data.frames ==>
          f.movieId == "unknown" && f.width == NominalWidth && f.height == NominalHeight)
    && (forall t :: t in s.data.subtitles ==>
          t.text != "" && t.language == "de" && t.startTime == 0 && t.endTime == 0)
    && (forall m :: m in s.data.memories ==> m.movieId == key && IsConfidence(m.confidence))
  }

  /** Appending a memory made for the session keeps the session invariant. */
  lemma MemoryKeepsInvariant(key: string, s: MovieSession, m: NyraMemory)
    requires SessionInvariant(key, s)
    requires m.movieId == key && IsConfidence(m.confidence)
    ensures SessionInvariant(key, WithMemory(s, m))
  {
    var t := WithMemory(s, m);
    forall x | x in t.data.memories ensures x.movieId == key && IsConfidence(x.confidence) {
      if x !in s.data.memories { assert x == m; }
    }
  }

  class ApiServer {
    var sessions: map<string, MovieSession>
    const engine: CaptureEngine

    ghost predicate Valid()
      reads this
    {
      forall key :: key in sessions ==> SessionInvariant(key, sessions[key])
    }

    constructor ()
      ensures sessions == map[] && Valid()
      ensures fresh(engine) && engine.browser.None? && engine.page.None?
    {
      sessions := map[];
      engine := new CaptureEngine();
    }

    /**
     * POST /api/sessions: initialise the browser, navigate to the url, and
     * only then file the new session under `session_<now>` (replacing any
     * session with that id). On any failure the registry is unchanged.
     * The body's fields may be missing; a missing title reads `undefined`.
     */
    method CreateSession(movieId: Option<string>, title: Option<string>, url: Option<string>, now: int,
                         connect: Result<BrowserRef>, launch: Result<BrowserRef>, newPage: Result<PageRef>,
                         loaded: Outcome, cookiePage: CookiePage)
      returns (reply: Reply<Created>)
      requires Valid()
      modifies this, engine
      ensures Valid()
      ensures !reply.NotFound?
      ensures reply.Ok? <==> Acquire(connect, launch).Success? && newPage.Success? && loaded.Pass?
      ensures reply.Ok? ==>
        var id := SessionId(now);
        && reply.payload == Created(id, NewSession(id, movieId, now), "Film-Session gestartet: " + Render(title))
        && sessions == old(sessions)[id := NewSession(id, movieId, now)]
      ensures !reply.Ok? ==> sessions == old(sessions)
      ensures InitHandles(old(engine.browser), old(engine.page), connect, launch, newPage, engine.browser, engine.page)
      ensures reply.Ok? ==> engine.IsInitialized()
    {
      var sessionId := SessionId(now);
      var session := NewSession(sessionId, movieId, now);
      var init := engine.Initialize(connect, launch, newPage);
      if init.Fail? {
        return ServerError(init.error);
      }
      var nav, _ := engine.NavigateToUrl(Render(url), loaded, cookiePage);
      if nav.Fail? {
        return ServerError(nav.error);
      }
      sessions := sessions[sessionId := session];
      reply := Ok(Created(sessionId, session, "Film-Session gestartet: " + Render(title)));
    }

    /**
     * DELETE /api/sessions/:id: 404 for an unknown id; otherwise mark the
     * session ended, release the browser (which never fails) and remove the
     * entry. `ended` is the record as it was when removed.
     */
    method DeleteSession(sessionId: string, now: int, closed: Outcome)
      returns (reply: Reply<string>, ended: Option<MovieSession>)
      requires Valid()
      modifies this, engine
      ensures Valid()
      ensures reply.NotFound? <==> sessionId !in old(sessions)
      ensures reply.NotFound? ==> sessions == old(sessions) && ended.None? && unchanged(engine)
      ensures !reply.NotFound? ==>
        && reply == Ok("Session beendet")
        && sessions == old(sessions) - {sessionId}
        && sessionId !in sessions
        && ended == Some(old(sessions)[sessionId].(isActive := false, endTime := Some(now)))
      ensures !reply.NotFound? && old(engine.browser).Some? && closed.Pass? ==>
        engine.browser.None? && engine.page.None?
      ensures !(old(engine.browser).Some? && closed.Pass?) ==>
        engine.browser == old(engine.browser) && engine.page == old(engine.page)
    {
      if sessionId !in sessions {
        return NotFound, None;
      }
      var session := sessions[sessionId].(isActive := false, endTime := Some(now));
      var _ := engine.Cleanup(closed);
      sessions := sessions - {sessionId};
      reply, ended := Ok("Session beendet"), Some(session);
    }

    /** GET /api/sessions/:id/playback: a fresh reading of the video element. */
    method Playback(sessionId: string, evaluated: Result<Option<VideoElement>>, at: int)
      returns (reply: Reply<PlaybackState>)
      ensures reply.NotFound? <==> sessionId !in sessions
      ensures sessionId in sessions && engine.page.None? ==> reply == ServerError(NotInitialized)
      ensures sessionId in sessions && engine.page.Some? ==>
        reply.Ok? && reply.payload == engine.GetPlaybackState(evaluated, at).value
    {
      if sessionId !in sessions {
        return NotFound;
      }
      var state := engine.GetPlaybackState(evaluated, at);
      if state.Failure? {
        return ServerError(state.error);
      }
      reply := Ok(state.value);
    }

    /**
     * POST /api/sessions/:id/frames: capture one frame and append it to the
     * session's frame history; nothing is stored when the capture fails.
     */
    method CaptureFrame(sessionId: string, video: Probe, screenshot: Result<string>, now: int)
      returns (reply: Reply<FrameData>)
      requires Valid()
      modifies this
      ensures Valid()
      ensures reply.NotFound? <==> sessionId !in old(sessions)
      ensures reply.Ok? <==> sessionId in old(sessions) && engine.CaptureFrame(video, screenshot, now).Success?
      ensures reply.Ok? ==>
        && reply.payload == engine.CaptureFrame(video, screenshot, now).value
        && sessions == old(sessions)[sessionId := WithFrame(old(sessions)[sessionId], reply.payload)]
      ensures !reply.Ok? ==> sessions == old(sessions)
      ensures reply.ServerError? ==> reply.error == engine.CaptureFrame(video, screenshot, now).error
    {
      if sessionId !in sessions {
        return NotFound;
      }
      var frame := engine.CaptureFrame(video, screenshot, now);
      if frame.Failure? {
        return ServerError(frame.error);
      }
      sessions := sessions[sessionId := WithFrame(sessions[sessionId], frame.value)];
      reply := Ok(frame.value);
    }

    /**
     * GET /api/sessions/:id/subtitles: read the subtitles on the page and
     * append all of them, in order, to the session's subtitle history.
     */
    method Subtitles(sessionId: string, evaluated: Result<seq<Option<string>>>, at: int)
      returns (reply: Reply<seq<SubtitleData>>)
      requires Valid()
      modifies this
      ensures Valid()
      ensures reply.NotFound? <==> sessionId !in old(sessions)
      ensures sessionId in old(sessions) && engine.page.None? ==>
        reply == ServerError(NotInitialized) && sessions == old(sessions)
      ensures sessionId in old(sessions) && engine.page.Some? ==>
        && reply == Ok(SubtitlesOf(evaluated, at))
        && sessions == old(sessions)[sessionId := WithSubtitles(old(sessions)[sessionId], reply.payload)]
      ensures reply.NotFound? ==> sessions == old(sessions)
    {
      if sessionId !in sessions {
        return NotFound;
      }
      var subtitleData := engine.GetSubtitles(evaluated, at);
      if subtitleData.Failure? {
        return ServerError(subtitleData.error);
      }
      if evaluated.Success? {
        ExtractedTextsTrimmed(evaluated.value, at);
      }
      sessions := sessions[sessionId := WithSubtitles(sessions[sessionId], subtitleData.value)];
      reply := Ok(subtitleData.value);
    }

    /**
     * POST /api/sessions/:id/analyze: analyse content of the given kind and
     * append the resulting memory to the session's memory history. The
     * analysis never fails; a missing content type reads `undefined`.
     */
    method Analyze(sessionId: string, contentType: Option<string>, now: int, sendResponse: Result<bool>)
      returns (reply: Reply<NyraMemory>)
      requires Valid()
      modifies this
      ensures Valid()
      ensures reply.NotFound? <==> sessionId !in old(sessions)
      ensures reply.NotFound? ==> sessions == old(sessions)
      ensures !reply.NotFound? ==>
        && reply == Ok(ContentMemory(sessionId, Render(contentType), now))
        && sessions == old(sessions)[sessionId := WithMemory(old(sessions)[sessionId], reply.payload)]
    {
      if sessionId !in sessions {
        return NotFound;
      }
      var (memory, _) := AnalyzeContent(sessionId, Render(contentType), now, sendResponse);
      MemoryKeepsInvariant(sessionId, sessions[sessionId], memory);
      sessions := sessions[sessionId := WithMemory(sessions[sessionId], memory)];
      reply := Ok(memory);
    }

    /** POST /api/sessions/:id/conversation: start the conversation mode for the session. */
    method Conversation(sessionId: string, memories: Result<Option<seq<NyraMemory>>>, startCall: Outcome)
      returns (reply: Reply<string>)
      ensures reply.NotFound? <==> sessionId !in sessions
      ensures sessionId in sessions ==>
        (reply.Ok? <==> startCall.Pass?) &&
        (reply.Ok? ==> reply.payload == "Gesprächsmodus gestartet") &&
        (startCall.Fail? ==> reply == ServerError(startCall.error))
    {
      if sessionId !in sessions {
        return NotFound;
      }
      var (started, _) := StartConversationMode(memories, startCall);
      if started.Fail? {
        return ServerError(started.error);
      }
      reply := Ok("Gesprächsmodus gestartet");
    }

    /** GET /api/sessions/:id/data: the stored session record. */
    function Data(sessionId: string): (reply: Reply<MovieSession>)
      reads this
      ensures reply.Ok? <==> sessionId in sessions
      ensures !reply.ServerError?
      ensures reply.Ok? ==> reply.payload == sessions[sessionId]
    {
      if sessionId in sessions then Ok(sessions[sessionId]) else NotFound
    }
  }
}
