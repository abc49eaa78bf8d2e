/**
 * Failure-carrying wrappers and the records shared by the capture engine,
 * the analysis bridge and the two session registries (src/types/index.ts).
 *
 * JavaScript numbers that the code only ever fills with whole values
 * (millisecond clocks, pixel sizes, subtitle offsets) are `int`; the playback
 * fields and confidences are passed through unchanged and are `real`.
 */
module Types {

  datatype Option<+T> = None | Some(value: T)

  /** A value, or the message of the error that was thrown instead. */
  datatype Result<+T> = Success(value: T) | Failure(error: string)

  /** The outcome of a call that returns nothing but may throw. */
  datatype Outcome = Pass | Fail(error: string)

  /** FrameData: one screenshot of the video element. */
  datatype FrameData = FrameData(
    id: string,
    movieId: string,
    timestamp: int,
    imageData: string,   // base64 payload as returned by the browser
    width: int,
    height: int,
    extractedAt: int)

  /** SubtitleData: one caption text found on the page. */
  datatype SubtitleData = SubtitleData(
    id: string,
    movieId: string,
    startTime: int,
    endTime: int,
    text: string,
    language: string,
    extractedAt: int)

  /** AudioData: declared and stored in a session, but never produced. */
  datatype AudioData = AudioData(
    id: string,
    movieId: string,
    timestamp: int,
    audioData: string,
    sampleRate: int,
    channels: int,
    extractedAt: int)

  /** PlaybackState: a fresh reading of the page's video element. */
  datatype PlaybackState = PlaybackState(
    movieId: string,
    isPlaying: bool,
    currentTime: real,
    duration: real,
    volume: real,
    playbackRate: real,
    timestamp: int)

  /** The closed set of memory kinds (the `type` field of NyraMemory). */
  datatype MemoryKind = Highlight | Quote | Scene | Emotion | Character

  /** The string the source uses for each kind. */
  function KindName(k: MemoryKind): string
  {
    match k
    case Highlight => "highlight"
    case Quote => "quote"
    case Scene => "scene"
    case Emotion => "emotion"
    case Character => "character"
  }

  /** The values the code puts into a free-form metadata record. */
  datatype MetaValue = MetaText(text: string) | MetaInt(number: int) | MetaList(items: seq<string>)

  type Metadata = map<string, MetaValue>

  /** NyraMemory; `kind` is the source's `type` field. */
  datatype NyraMemory = NyraMemory(
    id: string,
    movieId: string,
    kind: MemoryKind,
    content: string,
    timestamp: int,
    confidence: real,
    metadata: Metadata,
    createdAt: int)

  /** How a template literal writes a possibly missing string. */
  function Render(v: Option<string>): string
  {
    if v.Some? then v.value else "undefined"
  }

  /** The four typed histories of a MovieSession. */
  datatype SessionData = SessionData(
    frames: seq<FrameData>,
    subtitles: seq<SubtitleData>,
    audio: seq<AudioData>,
    memories: seq<NyraMemory>)

  /**
   * MovieSession, the record the request/response API keeps per session;
   * `movieId` is whatever the creating request carried, possibly nothing.
   */
  datatype MovieSession = MovieSession(
    id: string,
    movieId: Option<string>,
    startTime: int,
    endTime: Option<int>,
    isActive: bool,
    data: SessionData)
}
