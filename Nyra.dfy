/**
 * The analysis bridge (src/nyra/integration.ts): the fixed mapping from a
 * content kind to a memory kind, confidence and metadata, and the
 * construction of the memory records handed to the memory service.
 *
 * The service calls are stubs in the source; their answers are parameters.
 * Each `now` parameter stands for the clock readings taken during one call.
 */
module Nyra {
  import opened Types
  import opened Text

  /** What performContentAnalysis() returns. */
  datatype Analysis = Analysis(kind: MemoryKind, content: string, confidence: real, metadata: Metadata)

  /** How a memory delivery ended: accepted, answered without success, or an error that was caught. */
  datatype Delivery = Delivered | Rejected | SendError(message: string)

  predicate IsConfidence(c: real)
  {
    0.0 <= c <= 1.0
  }

  predicate IsKnownContentType(contentType: string)
  {
    contentType == "frame" || contentType == "subtitle" || contentType == "audio"
  }

  /**
   * performContentAnalysis(): frame gives a scene, subtitle a quote, audio an
   * emotion, anything else a highlight; each names its analysis type and the
   * time of the analysis in its metadata.
   */
  function PerformContentAnalysis(contentType: string, now: int): (a: Analysis)
    ensures a.kind == Scene <==> contentType == "frame"
    ensures a.kind == Quote <==> contentType == "subtitle"
    ensures a.kind == Emotion <==> contentType == "audio"
    ensures a.kind == Highlight <==> !IsKnownContentType(contentType)
    ensures a.kind != Character
    ensures contentType == "frame" ==> a.confidence == 0.8
    ensures contentType == "subtitle" ==> a.confidence == 0.9
    ensures contentType == "audio" ==> a.confidence == 0.7
    ensures !IsKnownContentType(contentType) ==> a.confidence == 0.5
    ensures IsConfidence(a.confidence)
    ensures "timestamp" in a.metadata && a.metadata["timestamp"] == MetaInt(now)
    ensures "analysisType" in a.metadata
  {
    if contentType == "frame" then
      Analysis(Scene, "Interessante Szene erkannt - visuelle Analyse durchgeführt", 0.8,
        map["analysisType" := MetaText("visual"),
            "features" := MetaList(["faces", "objects", "emotions"]),
            "timestamp" := MetaInt(now)])
    else if contentType == "subtitle" then
      Analysis(Quote, "Wichtiger Dialog erkannt - Textanalyse durchgeführt", 0.9,
        map["analysisType" := MetaText("text"),
            "sentiment" := MetaText("positive"),
            "keywords" := MetaList(["important", "dialogue"]),
            "timestamp" := MetaInt(now)])
    else if contentType == "audio" then
      Analysis(Emotion, "Emotionale Audio-Spur erkannt - Audioanalyse durchgeführt", 0.7,
        map["analysisType" := MetaText("audio"),
            "emotions" := MetaList(["excitement", "tension"]),
            "volume" := MetaText("high"),
            "timestamp" := MetaInt(now)])
    else
      Analysis(Highlight, "Allgemeine Analyse durchgeführt", 0.5,
        map["analysisType" := MetaText("general"),
            "timestamp" := MetaInt(now)])
  }

  /** A delivery reports the endpoint's answer: accepted, refused, or the error it raised. */
  predicate Reports(d: Delivery, response: Result<bool>)
  {
    && (d == Delivered <==> response == Success(true))
    && (d == Rejected <==> response == Success(false))
    && (d.SendError? <==> response.Failure?)
    && (response.Failure? ==> d == SendError(response.error))
  }

  /**
   * sendMemoryToNyra(): reports how the delivery went and never fails;
   * `response` is what the memory endpoint answered (its success flag) or
   * the error it raised.
   */
  function SendMemoryToNyra(memory: NyraMemory, response: Result<bool>): (d: Delivery)
    ensures Reports(d, response)
  {
    match response
    case Failure(e) => SendError(e)
    case Success(ok) => if ok then Delivered else Rejected
  }

  /** The memory a content analysis yields for a session, as built in analyzeContent(). */
  function ContentMemory(sessionId: string, contentType: string, now: int): (m: NyraMemory)
    ensures m.id == "memory_" + IntToString(now)
    ensures var a := PerformContentAnalysis(contentType, now);
      && m.movieId == sessionId
      && m.kind == a.kind && m.content == a.content
      && m.confidence == a.confidence && m.metadata == a.metadata
      && m.timestamp == now && m.createdAt == now
  {
    var a := PerformContentAnalysis(contentType, now);
    NyraMemory("memory_" + IntToString(now), sessionId, a.kind, a.content, now, a.confidence, a.metadata, now)
  }

  /**
   * analyzeContent(): builds the memory, sends it, and returns it. The send
   * never fails, so the call never fails and its memory does not depend on
   * the delivery.
   */
  function AnalyzeContent(sessionId: string, contentType: string, now: int, response: Result<bool>): (r: (NyraMemory, Delivery))
    ensures r.0.id == "memory_" + IntToString(now)
    ensures r.0.movieId == sessionId && r.0.timestamp == now && r.0.createdAt == now
    ensures var a := PerformContentAnalysis(contentType, now);
      r.0.kind == a.kind && r.0.content == a.content && r.0.confidence == a.confidence && r.0.metadata == a.metadata
    ensures Reports(r.1, response)
  {
    var memory := ContentMemory(sessionId, contentType, now);
    (memory, SendMemoryToNyra(memory, response))
  }

  /** Whatever the memory endpoint answers, analyzeContent() returns the same memory. */
  lemma AnalyzeContentIgnoresDelivery(sessionId: string, contentType: string, now: int, r1: Result<bool>, r2: Result<bool>)
    ensures AnalyzeContent(sessionId, contentType, now, r1).0 == AnalyzeContent(sessionId, contentType, now, r2).0
    ensures AnalyzeContent(sessionId, contentType, now, r1).0.movieId == sessionId
  {
  }

  /** A memory id of analyzeContent() determines the clock reading it was made from. */
  lemma ContentMemoryIdEncodesClock(s1: string, c1: string, now1: int, s2: string, c2: string, now2: int)
    ensures ContentMemory(s1, c1, now1).id == ContentMemory(s2, c2, now2).id ==> now1 == now2
  {
    var p := "memory_";
    if ContentMemory(s1, c1, now1).id == ContentMemory(s2, c2, now2).id {
      assert IntToString(now1) == (p + IntToString(now1))[|p|..];
      assert IntToString(now2) == (p + IntToString(now2))[|p|..];
      IntToStringInjective(now1, now2);
    }
  }

  /** The `dimensions` metadata of a frame memory: width, an `x`, height. */
  function Dimensions(width: int, height: int): string
  {
    IntToString(width) + "x" + IntToString(height)
  }

  /** The dimensions text determines the width and the height. */
  lemma DimensionsInjective(w1: int, h1: int, w2: int, h2: int)
    ensures Dimensions(w1, h1) == Dimensions(w2, h2) ==> w1 == w2 && h1 == h2
  {
    if Dimensions(w1, h1) == Dimensions(w2, h2) {
      IntToStringChars(w1);
      IntToStringChars(w2);
      SeparatedInjective(IntToString(w1), IntToString(h1), IntToString(w2), IntToString(h2), 'x');
      IntToStringInjective(w1, w2);
      IntToStringInjective(h1, h2);
    }
  }

  /** The memory analyzeFrame() builds for a frame. */
  function FrameMemory(frame: FrameData, now: int): (m: NyraMemory)
    ensures m.id == "frame_memory_" + IntToString(now) && m.createdAt == now
    ensures m.kind == Scene && IsConfidence(m.confidence)
    ensures m.movieId == frame.movieId && m.timestamp == frame.timestamp
    ensures "dimensions" in m.metadata && m.metadata["dimensions"] == MetaText(Dimensions(frame.width, frame.height))
    ensures "frameId" in m.metadata && m.metadata["frameId"] == MetaText(frame.id)
  {
    NyraMemory(
      "frame_memory_" + IntToString(now), frame.movieId, Scene,
      "Frame-Analyse: Szene bei " + IntToString(frame.timestamp) + "s erkannt",
      frame.timestamp, 0.8,
      map["frameId" := MetaText(frame.id),
          "timestamp" := MetaInt(frame.timestamp),
          "dimensions" := MetaText(Dimensions(frame.width, frame.height)),
          "analysisType" := MetaText("visual")],
      now)
  }

  /** analyzeFrame(): the frame memory, sent and returned; never fails. */
  function AnalyzeFrame(frame: FrameData, now: int, response: Result<bool>): (r: (NyraMemory, Delivery))
    ensures r.0.id == "frame_memory_" + IntToString(now)
    ensures r.0.kind == Scene && r.0.confidence == 0.8
    ensures r.0.movieId == frame.movieId && r.0.timestamp == frame.timestamp
    ensures "dimensions" in r.0.metadata && r.0.metadata["dimensions"] == MetaText(Dimensions(frame.width, frame.height))
    ensures "frameId" in r.0.metadata && r.0.metadata["frameId"] == MetaText(frame.id)
    ensures Reports(r.1, response)
  {
    var memory := FrameMemory(frame, now);
    (memory, SendMemoryToNyra(memory, response))
  }

  /** A frame memory records the frame's size so that it can be read back. */
  lemma FrameMemoryRecordsSize(f1: FrameData, f2: FrameData, now1: int, now2: int)
    ensures FrameMemory(f1, now1).metadata == FrameMemory(f2, now2).metadata ==>
      f1.width == f2.width && f1.height == f2.height && f1.id == f2.id && f1.timestamp == f2.timestamp
  {
    var m1, m2 := FrameMemory(f1, now1).metadata, FrameMemory(f2, now2).metadata;
    if m1 == m2 {
      assert m1["dimensions"] == m2["dimensions"];
      assert m1["timestamp"] == m2["timestamp"];
      DimensionsInjective(f1.width, f1.height, f2.width, f2.height);
    }
  }

  const QuotePrefix: string := "Wichtiger Dialog: \""

  /** The content of a subtitle memory: the text in quotes after a fixed lead-in. */
  function QuoteOf(text: string): string
  {
    QuotePrefix + text + "\""
  }

  /** The quoted text is recoverable from a subtitle memory's content. */
  lemma QuoteRecoversText(text: string)
    ensures var c := QuoteOf(text);
      |c| == |text| + 20 && c[19..|c| - 1] == text
  {
    var c := QuoteOf(text);
    assert |QuotePrefix| == 19;
    assert c[19..|c| - 1] == text by {
      forall k | 0 <= k < |text| ensures c[19 + k] == text[k] { }
    }
  }

  /** The memory analyzeSubtitle() builds for a subtitle. */
  function SubtitleMemory(subtitle: SubtitleData, now: int): (m: NyraMemory)
    ensures m.id == "subtitle_memory_" + IntToString(now) && m.createdAt == now
    ensures m.kind == Quote && IsConfidence(m.confidence)
    ensures m.movieId == subtitle.movieId && m.timestamp == subtitle.startTime
    ensures m.content == QuoteOf(subtitle.text)
    ensures "language" in m.metadata && m.metadata["language"] == MetaText(subtitle.language)
  {
    NyraMemory(
      "subtitle_memory_" + IntToString(now), subtitle.movieId, Quote,
      QuoteOf(subtitle.text),
      subtitle.startTime, 0.9,
      map["subtitleId" := MetaText(subtitle.id),
          "startTime" := MetaInt(subtitle.startTime),
          "endTime" := MetaInt(subtitle.endTime),
          "language" := MetaText(subtitle.language),
          "analysisType" := MetaText("text")],
      now)
  }

  /** analyzeSubtitle(): the subtitle memory, sent and returned; never fails. */
  function AnalyzeSubtitle(subtitle: SubtitleData, now: int, response: Result<bool>): (r: (NyraMemory, Delivery))
    ensures r.0.id == "subtitle_memory_" + IntToString(now)
    ensures r.0.kind == Quote && r.0.confidence == 0.9
    ensures r.0.movieId == subtitle.movieId && r.0.timestamp == subtitle.startTime
    ensures r.0.content == QuoteOf(subtitle.text)
    ensures "language" in r.0.metadata && r.0.metadata["language"] == MetaText(subtitle.language)
    ensures Reports(r.1, response)
  {
    var memory := SubtitleMemory(subtitle, now);
    (memory, SendMemoryToNyra(memory, response))
  }

  /** Every confidence the bridge produces lies in [0, 1]. */
  lemma ConfidencesInRange(sessionId: string, contentType: string, frame: FrameData, subtitle: SubtitleData, now: int)
    ensures IsConfidence(ContentMemory(sessionId, contentType, now).confidence)
    ensures IsConfidence(FrameMemory(frame, now).confidence)
    ensures IsConfidence(SubtitleMemory(subtitle, now).confidence)
  {
  }

  /**
   * getMemoriesForMovie(): the answer's data when it is a memory list, else
   * the empty list; an error also yields the empty list. A `data` that is
   * not a list is outside this typing.
   */
  function GetMemoriesForMovie(response: Result<Option<seq<NyraMemory>>>): (ms: seq<NyraMemory>)
    ensures response.Failure? ==> ms == []
    ensures response.Success? && response.value.None? ==> ms == []
    ensures response.Success? && response.value.Some? ==> ms == response.value.value
  {
    if response.Success? && response.value.Some? then response.value.value else []
  }

  /**
   * startConversationMode(): fetches the memories (which never fails) and
   * then starts the conversation; an error of the start call is passed on.
   * Returns the outcome and the memories posted with the start call.
   */
  function StartConversationMode(memories: Result<Option<seq<NyraMemory>>>, startCall: Outcome): (r: (Outcome, seq<NyraMemory>))
    ensures r.0.Fail? <==> startCall.Fail?
    ensures r.0 == startCall
    ensures r.1 == GetMemoriesForMovie(memories)
  {
    (startCall, GetMemoriesForMovie(memories))
  }

  /**
   * The two error policies differ: a failed fetch is hidden behind an empty
   * list, a failed start is reported.
   */
  lemma ErrorPolicies(fetchError: string, startError: string, memories: Result<Option<seq<NyraMemory>>>)
    ensures GetMemoriesForMovie(Failure(fetchError)) == []
    ensures StartConversationMode(memories, Fail(startError)).0 == Fail(startError)
    ensures StartConversationMode(Failure(fetchError), Pass).0 == Pass
  {
  }
}
