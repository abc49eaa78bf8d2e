/**
 * The capture engine (src/browser/integration.ts, class BrowserMCPIntegration).
 *
 * The browser engine itself is foreign: every answer it gives (a connection,
 * a new page, a navigation, a DOM query, an in-page evaluation, a screenshot,
 * a click) arrives as an argument, and a thrown error is a Failure/Fail or
 * an error-valued probe. What the engine keeps between calls is the pair of
 * handles `browser` and `page`, which the class updates in place.
 */
module Browser {
  import opened Types
  import opened Text

  /** Opaque handles returned by the browser engine. */
  type BrowserRef = nat
  type PageRef = nat
  type ElementRef = nat

  const NotInitialized: string := "Browser nicht initialisiert"
  const VideoNotFound: string := "Video-Element nicht gefunden"

  /** The resolution every frame declares, whatever was captured. */
  const NominalWidth: int := 3840
  const NominalHeight: int := 2160

  /** Structural cookie-consent selectors, in the order they are probed. */
  const CookieSelectors: seq<string> := [
    "button[aria-label*=\"Alle akzeptieren\"]",
    "button[aria-label*=\"Accept all\"]",
    "button:has-text(\"Alle akzeptieren\")",
    "button:has-text(\"Accept all\")",
    "button:has-text(\"Alle zulassen\")",
    "button:has-text(\"Allow all\")",
    "[data-testid*=\"accept\"]",
    "[data-testid*=\"allow\"]",
    ".cookie-accept",
    ".accept-cookies",
    "#accept-cookies",
    "#cookie-accept"
  ]

  /** The phrases the text fallback looks for in a button's text. */
  const AcceptPhrases: seq<string> := [
    "Alle akzeptieren", "Accept all", "Alle zulassen", "Allow all", "Akzeptieren", "Accept"
  ]

  /** The answer to `page.$(selector)`: an element, null, or a thrown error. */
  datatype Probe = Hit(element: ElementRef) | Miss | ProbeError(message: string)

  /** The answer to `button.evaluate(el => el.textContent)`. */
  datatype TextProbe = TextContent(text: string) | NullText | TextError

  /** The live page as cookie-banner handling sees it. */
  datatype CookiePage = CookiePage(
    query: string -> Probe,             // page.$(selector)
    buttons: Option<seq<ElementRef>>,   // page.$$('button'), None when it throws
    textOf: ElementRef -> TextProbe,    // a button's textContent
    clickOk: ElementRef -> bool)        // whether button.click() resolves

  /** Which rule dismissed the banner. */
  datatype Dismissal = BySelector(selector: string) | ByText(text: string)

  /**
   * What cookie-banner handling did: the selectors it probed, the elements it
   * clicked (successfully or not), in order, and the click that succeeded.
   */
  datatype CookieResult = CookieResult(probed: seq<string>, clicks: seq<ElementRef>, dismissal: Option<Dismissal>)

  const NoCookieAction: CookieResult := CookieResult([], [], None)

  /** `a` followed by `b`. */
  function Then(a: CookieResult, b: CookieResult): CookieResult
  {
    CookieResult(a.probed + b.probed, a.clicks + b.clicks, b.dismissal)
  }

  lemma ThenAssoc(a: CookieResult, b: CookieResult, c: CookieResult)
    ensures Then(Then(a, b), c) == Then(a, Then(b, c))
  {
    assert (a.probed + b.probed) + c.probed == a.probed + (b.probed + c.probed);
    assert (a.clicks + b.clicks) + c.clicks == a.clicks + (b.clicks + c.clicks);
  }

  /** A selector that yields an element whose click resolves. */
  predicate Dismisses(p: CookiePage, selector: string)
  {
    p.query(selector).Hit? && p.clickOk(p.query(selector).element)
  }

  /**
   * The structural phase from position i on: probe each selector; on an
   * element, click it and stop if the click resolves. A probe or click that
   * throws counts as no match.
   */
  function ProbeSelectors(p: CookiePage, sels: seq<string>, i: nat): CookieResult
    requires i <= |sels|
    decreases |sels| - i
  {
    if i == |sels| then NoCookieAction
    else
      match p.query(sels[i])
      case Hit(el) =>
        if p.clickOk(el) then CookieResult([sels[i]], [el], Some(BySelector(sels[i])))
        else Then(CookieResult([sels[i]], [el], None), ProbeSelectors(p, sels, i + 1))
      case _ => Then(CookieResult([sels[i]], [], None), ProbeSelectors(p, sels, i + 1))
  }

  /** `text.includes(phrase)` for some phrase from position k on, tried in order. */
  predicate HasPhraseFrom(text: string, k: nat)
    requires k <= |AcceptPhrases|
    decreases |AcceptPhrases| - k
  {
    k < |AcceptPhrases| && (Contains(text, AcceptPhrases[k]) || HasPhraseFrom(text, k + 1))
  }

  /** The text test of the fallback: non-empty and containing a phrase, case-sensitively. */
  predicate IsAcceptText(text: string)
  {
    text != "" && HasPhraseFrom(text, 0)
  }

  /** The text fallback from button i on. */
  function ProbeButtons(p: CookiePage, bs: seq<ElementRef>, i: nat): CookieResult
    requires i <= |bs|
    decreases |bs| - i
  {
    if i == |bs| then NoCookieAction
    else
      match p.textOf(bs[i])
      case TextContent(t) =>
        if !IsAcceptText(t) then ProbeButtons(p, bs, i + 1)
        else if p.clickOk(bs[i]) then CookieResult([], [bs[i]], Some(ByText(t)))
        else Then(CookieResult([], [bs[i]], None), ProbeButtons(p, bs, i + 1))
      case _ => ProbeButtons(p, bs, i + 1)
  }

  /** Cookie-banner handling on an open page: selectors `sels` first, then button texts. */
  function CookieSpecWith(p: CookiePage, sels: seq<string>): CookieResult
  {
    var s := ProbeSelectors(p, sels, 0);
    if s.dismissal.Some? || p.buttons.None? then s
    else Then(s, ProbeButtons(p, p.buttons.value, 0))
  }

  /** Cookie-banner handling with the source's selector list. */
  function CookieSpec(p: CookiePage): CookieResult
  {
    CookieSpecWith(p, CookieSelectors)
  }

  /**
   * Every click but the last failed, and the banner counts as dismissed
   * exactly when there was a click and the last one resolved: so at most one
   * click ever succeeds.
   */
  ghost predicate ClickLog(p: CookiePage, r: CookieResult)
  {
    && (forall j :: 0 <= j < |r.clicks| - 1 ==> !p.clickOk(r.clicks[j]))
    && (r.dismissal.Some? <==> |r.clicks| > 0 && p.clickOk(r.clicks[|r.clicks| - 1]))
  }

  /** Failed clicks followed by a well-formed click log form a well-formed click log. */
  lemma ClickLogThen(p: CookiePage, a: CookieResult, b: CookieResult)
    requires forall j :: 0 <= j < |a.clicks| ==> !p.clickOk(a.clicks[j])
    requires ClickLog(p, b)
    ensures ClickLog(p, Then(a, b))
  {
    var r := Then(a, b);
    forall j | 0 <= j < |r.clicks| - 1 ensures !p.clickOk(r.clicks[j]) {
      if j >= |a.clicks| { assert r.clicks[j] == b.clicks[j - |a.clicks|]; }
    }
    if b.clicks != [] {
      assert r.clicks[|r.clicks| - 1] == b.clicks[|b.clicks| - 1];
    } else {
      assert r.clicks == a.clicks;
    }
  }

  /** Selector probing goes through the list in order, and its clicks form a click log. */
  lemma {:induction false} ProbeSelectorsOrder(p: CookiePage, sels: seq<string>, i: nat)
    requires i <= |sels|
    decreases |sels| - i
    ensures var r := ProbeSelectors(p, sels, i);
      && i + |r.probed| <= |sels| && r.probed == sels[i..i + |r.probed|]
      && ClickLog(p, r)
  {
    if i < |sels| {
      ProbeSelectorsOrder(p, sels, i + 1);
      var rest := ProbeSelectors(p, sels, i + 1);
      match p.query(sels[i])
      case Hit(el) =>
        if !p.clickOk(el) {
          ClickLogThen(p, CookieResult([sels[i]], [el], None), rest);
        }
      case Miss =>
        ClickLogThen(p, CookieResult([sels[i]], [], None), rest);
      case ProbeError(_) =>
        ClickLogThen(p, CookieResult([sels[i]], [], None), rest);
    }
  }

  /**
   * Selector probing stops exactly at the first selector that dismisses the
   * banner, or runs through the whole list when none does.
   */
  lemma {:induction false} ProbeSelectorsStop(p: CookiePage, sels: seq<string>, i: nat)
    requires i <= |sels|
    decreases |sels| - i
    ensures var r := ProbeSelectors(p, sels, i);
      && (r.dismissal.None? ==> |r.probed| == |sels| - i && forall j :: i <= j < |sels| ==> !Dismisses(p, sels[j]))
      && (r.dismissal.Some? ==>
            && 0 < |r.probed| <= |sels| - i
            && r.dismissal == Some(BySelector(sels[i + |r.probed| - 1]))
            && Dismisses(p, sels[i + |r.probed| - 1])
            && forall j :: i <= j < i + |r.probed| - 1 ==> !Dismisses(p, sels[j]))
  {
    if i < |sels| && !Dismisses(p, sels[i]) {
      ProbeSelectorsStop(p, sels, i + 1);
      var r, rest := ProbeSelectors(p, sels, i), ProbeSelectors(p, sels, i + 1);
      assert r.probed == [sels[i]] + rest.probed && r.dismissal == rest.dismissal;
    }
  }

  /** Selector probing is in list order and stops at the first selector that dismisses the banner. */
  lemma SelectorsFirstMatchWins(p: CookiePage, sels: seq<string>)
    ensures var r := ProbeSelectors(p, sels, 0);
      && |r.probed| <= |sels| && r.probed == sels[..|r.probed|]
      && (forall k :: 0 <= k < |sels| && Dismisses(p, sels[k]) && (forall j :: 0 <= j < k ==> !Dismisses(p, sels[j])) ==>
            r.probed == sels[..k + 1] && r.dismissal == Some(BySelector(sels[k])))
      && ((forall k :: 0 <= k < |sels| ==> !Dismisses(p, sels[k])) ==> r.probed == sels && r.dismissal.None?)
  {
    ProbeSelectorsOrder(p, sels, 0);
    ProbeSelectorsStop(p, sels, 0);
    var r := ProbeSelectors(p, sels, 0);
    forall k | 0 <= k < |sels| && Dismisses(p, sels[k]) && (forall j :: 0 <= j < k ==> !Dismisses(p, sels[j]))
      ensures r.probed == sels[..k + 1] && r.dismissal == Some(BySelector(sels[k]))
    {
      assert r.dismissal.Some?;
    }
  }

  /** Given [s1, s2, s3] where only s2 yields an element, s2 is clicked and s3 is never probed. */
  lemma OnlySecondSelectorMatches(p: CookiePage, s1: string, s2: string, s3: string, e: ElementRef)
    requires !p.query(s1).Hit? && p.query(s2) == Hit(e) && p.clickOk(e)
    ensures ProbeSelectors(p, [s1, s2, s3], 0) == CookieResult([s1, s2], [e], Some(BySelector(s2)))
  {
    var sels := [s1, s2, s3];
    assert ProbeSelectors(p, sels, 1) == CookieResult([s2], [e], Some(BySelector(s2)));
  }

  lemma {:induction false} ProbeButtonsFacts(p: CookiePage, bs: seq<ElementRef>, i: nat)
    requires i <= |bs|
    decreases |bs| - i
    ensures var r := ProbeButtons(p, bs, i);
      && r.probed == []
      && ClickLog(p, r)
      && (r.dismissal.Some? ==> r.dismissal.value.ByText? && IsAcceptText(r.dismissal.value.text))
  {
    if i < |bs| {
      ProbeButtonsFacts(p, bs, i + 1);
      var rest := ProbeButtons(p, bs, i + 1);
      match p.textOf(bs[i])
      case TextContent(t) =>
        if IsAcceptText(t) && !p.clickOk(bs[i]) {
          ClickLogThen(p, CookieResult([], [bs[i]], None), rest);
        }
      case NullText =>
      case TextError =>
    }
  }

  /**
   * Over the whole handler: at most one click succeeds, every earlier click
   * failed; the text fallback is reached only when every structural selector
   * was probed and none dismissed the banner, and then only for a button whose
   * text contains an acceptance phrase.
   */
  lemma CookieHandlingFacts(p: CookiePage, sels: seq<string>)
    ensures ClickLog(p, CookieSpecWith(p, sels))
    ensures var r := CookieSpecWith(p, sels);
      r.dismissal.Some? && r.dismissal.value.ByText? ==>
        && r.probed == sels
        && (forall k :: 0 <= k < |sels| ==> !Dismisses(p, sels[k]))
        && IsAcceptText(r.dismissal.value.text)
  {
    ProbeSelectorsOrder(p, sels, 0);
    ProbeSelectorsStop(p, sels, 0);
    var s := ProbeSelectors(p, sels, 0);
    if s.dismissal.None? && p.buttons.Some? {
      ProbeButtonsFacts(p, p.buttons.value, 0);
      var t := ProbeButtons(p, p.buttons.value, 0);
      ClickLogThen(p, s, t);
      assert s.probed + t.probed == s.probed;
    }
  }

  /** The text fallback is case-sensitive: a lower-case "accept" is no match. */
  lemma LowerCaseTextIgnored()
    ensures !IsAcceptText("accept")
  {
    var t := "accept";
    assert !StartsWith(t, "Accept") by { assert t[0] != "Accept"[0]; }
    ContainsNeedsRoom(t[1..], "Accept");
    forall k | 0 <= k < 5 ensures |AcceptPhrases[k]| > |t| { }
    forall k | 0 <= k < 5 ensures !Contains(t, AcceptPhrases[k]) {
      ContainsNeedsRoom(t, AcceptPhrases[k]);
    }
  }

  /** The text a subtitle element contributes: textContent trimmed, nothing for null. */
  function TrimmedText(node: Option<string>): string
  {
    if node.Some? then Trim(node.value) else ""
  }

  /** The subtitle record for the index-th matched element. */
  function SubtitleAt(index: nat, text: string, at: int): SubtitleData
  {
    SubtitleData("subtitle_" + IntToString(index), "unknown", 0, 0, text, "de", at)
  }

  /** One record per node from position i on whose trimmed text is non-empty. */
  function ExtractFrom(nodes: seq<Option<string>>, i: nat, at: int): seq<SubtitleData>
    requires i <= |nodes|
    decreases |nodes| - i
  {
    if i == |nodes| then []
    else
      var text := TrimmedText(nodes[i]);
      (if text != "" then [SubtitleAt(i, text, at)] else []) + ExtractFrom(nodes, i + 1, at)
  }

  /** The positions, from i on and ascending, of the nodes with non-empty trimmed text. */
  ghost function KeptFrom(nodes: seq<Option<string>>, i: nat): seq<nat>
    requires i <= |nodes|
    decreases |nodes| - i
  {
    if i == |nodes| then []
    else (if TrimmedText(nodes[i]) != "" then [i] else []) + KeptFrom(nodes, i + 1)
  }

  /** The kept positions from i on lie in [i, |nodes|). */
  lemma {:induction false} KeptBounds(nodes: seq<Option<string>>, i: nat)
    requires i <= |nodes|
    decreases |nodes| - i
    ensures forall j :: 0 <= j < |KeptFrom(nodes, i)| ==> i <= KeptFrom(nodes, i)[j] < |nodes|
  {
    if i < |nodes| {
      KeptBounds(nodes, i + 1);
      var rest := KeptFrom(nodes, i + 1);
      if TrimmedText(nodes[i]) != "" {
        var kept := [i] + rest;
        assert KeptFrom(nodes, i) == kept;
        forall j | 0 < j < |kept| ensures i < kept[j] < |nodes| {
          assert kept[j] == rest[j - 1];
        }
      }
    }
  }

  /** The kept positions ascend. */
  lemma {:induction false} KeptAscending(nodes: seq<Option<string>>, i: nat)
    requires i <= |nodes|
    decreases |nodes| - i
    ensures forall a, b :: 0 <= a < b < |KeptFrom(nodes, i)| ==> KeptFrom(nodes, i)[a] < KeptFrom(nodes, i)[b]
  {
    if i < |nodes| {
      KeptAscending(nodes, i + 1);
      KeptBounds(nodes, i + 1);
      var rest := KeptFrom(nodes, i + 1);
      if TrimmedText(nodes[i]) != "" {
        var kept := [i] + rest;
        assert KeptFrom(nodes, i) == kept;
        forall a, b | 0 <= a < b < |kept| ensures kept[a] < kept[b] {
          assert kept[b] == rest[b - 1];
          if a > 0 { assert kept[a] == rest[a - 1]; }
        }
      }
    }
  }

  /** A position from i on is kept exactly when its node has non-empty trimmed text. */
  lemma {:induction false} KeptMembership(nodes: seq<Option<string>>, i: nat)
    requires i <= |nodes|
    decreases |nodes| - i
    ensures forall k :: i <= k < |nodes| ==> (k in KeptFrom(nodes, i) <==> TrimmedText(nodes[k]) != "")
  {
    if i < |nodes| {
      KeptMembership(nodes, i + 1);
      KeptBounds(nodes, i + 1);
      var rest := KeptFrom(nodes, i + 1);
      assert forall j :: 0 <= j < |rest| ==> rest[j] != i;
      assert i !in rest;
      if TrimmedText(nodes[i]) != "" {
        assert KeptFrom(nodes, i) == [i] + rest;
      } else {
        assert KeptFrom(nodes, i) == rest;
      }
    }
  }

  /** As many records are extracted from position i on as positions are kept. */
  lemma {:induction false} ExtractLength(nodes: seq<Option<string>>, i: nat, at: int)
    requires i <= |nodes|
    decreases |nodes| - i
    ensures |ExtractFrom(nodes, i, at)| == |KeptFrom(nodes, i)|
  {
    if i < |nodes| {
      ExtractLength(nodes, i + 1, at);
    }
  }

  /** The record extracted j-th from position i on comes from the j-th kept position. */
  lemma {:induction false} ExtractAt(nodes: seq<Option<string>>, i: nat, at: int, j: nat)
    requires i <= |nodes| && j < |KeptFrom(nodes, i)|
    decreases |nodes| - i
    ensures j < |ExtractFrom(nodes, i, at)| && KeptFrom(nodes, i)[j] < |nodes|
    ensures ExtractFrom(nodes, i, at)[j] == SubtitleAt(KeptFrom(nodes, i)[j], TrimmedText(nodes[KeptFrom(nodes, i)[j]]), at)
  {
    ExtractLength(nodes, i, at);
    var rr, rest := ExtractFrom(nodes, i + 1, at), KeptFrom(nodes, i + 1);
    var text := TrimmedText(nodes[i]);
    if text != "" {
      assert ExtractFrom(nodes, i, at) == [SubtitleAt(i, text, at)] + rr;
      assert KeptFrom(nodes, i) == [i] + rest;
      if j > 0 {
        ExtractAt(nodes, i + 1, at, j - 1);
      }
    } else {
      assert ExtractFrom(nodes, i, at) == rr;
      assert KeptFrom(nodes, i) == rest;
      ExtractAt(nodes, i + 1, at, j);
    }
  }

  /** The record extracted j-th comes from the j-th kept position. */
  lemma {:induction false} ExtractFollowsKept(nodes: seq<Option<string>>, i: nat, at: int)
    requires i <= |nodes|
    ensures |ExtractFrom(nodes, i, at)| == |KeptFrom(nodes, i)|
    ensures forall j :: 0 <= j < |KeptFrom(nodes, i)| ==>
      KeptFrom(nodes, i)[j] < |nodes| &&
      ExtractFrom(nodes, i, at)[j] == SubtitleAt(KeptFrom(nodes, i)[j], TrimmedText(nodes[KeptFrom(nodes, i)[j]]), at)
  {
    ExtractLength(nodes, i, at);
    forall j | 0 <= j < |KeptFrom(nodes, i)|
      ensures KeptFrom(nodes, i)[j] < |nodes| &&
        ExtractFrom(nodes, i, at)[j] == SubtitleAt(KeptFrom(nodes, i)[j], TrimmedText(nodes[KeptFrom(nodes, i)[j]]), at)
    {
      ExtractAt(nodes, i, at, j);
    }
  }

  /**
   * Subtitle extraction keeps exactly the nodes with non-empty trimmed text,
   * in document order, each under the id of its position among all matches.
   */
  lemma ExtractCharacterized(nodes: seq<Option<string>>, at: int)
    ensures var r, kept := ExtractFrom(nodes, 0, at), KeptFrom(nodes, 0);
      && |r| == |kept|
      && (forall j :: 0 <= j < |kept| ==>
            kept[j] < |nodes| && r[j] == SubtitleAt(kept[j], TrimmedText(nodes[kept[j]]), at))
      && (forall a, b :: 0 <= a < b < |kept| ==> kept[a] < kept[b])
      && (forall k :: 0 <= k < |nodes| ==> (k in kept <==> TrimmedText(nodes[k]) != ""))
  {
    ExtractFollowsKept(nodes, 0, at);
    KeptAscending(nodes, 0);
    KeptMembership(nodes, 0);
  }

  /** Every extracted record has trimmed, non-empty text and the same fixed timing and language. */
  lemma ExtractedTextsTrimmed(nodes: seq<Option<string>>, at: int)
    ensures forall s :: s in ExtractFrom(nodes, 0, at) ==>
      s.text != "" && Trim(s.text) == s.text && s.startTime == 0 && s.endTime == 0 && s.language == "de"
  {
    ExtractCharacterized(nodes, at);
    var r, kept := ExtractFrom(nodes, 0, at), KeptFrom(nodes, 0);
    forall s | s in r ensures s.text != "" && Trim(s.text) == s.text {
      var j :| 0 <= j < |r| && r[j] == s;
      var node := nodes[kept[j]];
      assert kept[j] in kept;
      if node.Some? { TrimIdempotent(node.value); }
    }
  }

  /** The subtitles returned for one evaluation of the page (an error yields none). */
  function SubtitlesOf(evaluated: Result<seq<Option<string>>>, at: int): seq<SubtitleData>
  {
    if evaluated.Failure? then [] else ExtractFrom(evaluated.value, 0, at)
  }

  /** The attributes of the page's video element that a playback reading copies. */
  datatype VideoElement = VideoElement(paused: bool, currentTime: real, duration: real, volume: real, playbackRate: real)

  /** The reading returned when there is no video element or the evaluation fails. */
  function DefaultPlayback(at: int): PlaybackState
  {
    PlaybackState("unknown", false, 0.0, 0.0, 0.0, 1.0, at)
  }

  /** Acquiring a browser: attach if possible, otherwise launch. */
  function Acquire(connect: Result<BrowserRef>, launch: Result<BrowserRef>): Result<BrowserRef>
  {
    if connect.Success? then connect else launch
  }

  /**
   * The handles initialize() leaves, from `browser0`/`page0` before it to
   * `browser1`/`page1` after: unchanged when no browser is acquired, the new
   * browser with the old page when the page fails to open, else both new.
   */
  predicate InitHandles(browser0: Option<BrowserRef>, page0: Option<PageRef>,
                        connect: Result<BrowserRef>, launch: Result<BrowserRef>, newPage: Result<PageRef>,
                        browser1: Option<BrowserRef>, page1: Option<PageRef>)
  {
    var acquired := Acquire(connect, launch);
    && (acquired.Failure? ==> browser1 == browser0 && page1 == page0)
    && (acquired.Success? && newPage.Failure? ==> browser1 == Some(acquired.value) && page1 == page0)
    && (acquired.Success? && newPage.Success? ==> browser1 == Some(acquired.value) && page1 == Some(newPage.value))
  }

  /** The extraction loop of getSubtitles() over the matched elements. */
  method CollectSubtitles(nodes: seq<Option<string>>, at: int) returns (subtitleData: seq<SubtitleData>)
    ensures subtitleData == ExtractFrom(nodes, 0, at)
  {
    subtitleData := [];
    var index := 0;
    while index < |nodes|
      invariant index <= |nodes|
      invariant subtitleData + ExtractFrom(nodes, index, at) == ExtractFrom(nodes, 0, at)
    {
      var text := TrimmedText(nodes[index]);
      var rest := ExtractFrom(nodes, index + 1, at);
      if text != "" {
        var s := SubtitleAt(index, text, at);
        assert ExtractFrom(nodes, index, at) == [s] + rest;
        assert (subtitleData + [s]) + rest == subtitleData + ([s] + rest);
        subtitleData := subtitleData + [s];
      } else {
        assert ExtractFrom(nodes, index, at) == rest;
      }
      index := index + 1;
    }
    assert subtitleData + [] == subtitleData;
  }

  /** The structural phase of handleCookieBanners: the first loop, with its early return. */
  method TrySelectors(p: CookiePage, sels: seq<string>) returns (r: CookieResult)
    ensures r == ProbeSelectors(p, sels, 0)
  {
    var done := NoCookieAction;
    var i := 0;
    while i < |sels|
      invariant i <= |sels|
      invariant done.dismissal.None?
      invariant ProbeSelectors(p, sels, 0) == Then(done, ProbeSelectors(p, sels, i))
    {
      var sel := sels[i];
      match p.query(sel) {
        case Hit(el) =>
          if p.clickOk(el) {
            return Then(done, CookieResult([sel], [el], Some(BySelector(sel))));
          }
          ThenAssoc(done, CookieResult([sel], [el], None), ProbeSelectors(p, sels, i + 1));
          done := Then(done, CookieResult([sel], [el], None));
        case Miss =>
          ThenAssoc(done, CookieResult([sel], [], None), ProbeSelectors(p, sels, i + 1));
          done := Then(done, CookieResult([sel], [], None));
        case ProbeError(_) =>
          ThenAssoc(done, CookieResult([sel], [], None), ProbeSelectors(p, sels, i + 1));
          done := Then(done, CookieResult([sel], [], None));
      }
      i := i + 1;
    }
    assert Then(done, NoCookieAction) == done;
    r := done;
  }

  /** The text fallback of handleCookieBanners: the second loop, with its early return. */
  method TryButtonTexts(p: CookiePage, bs: seq<ElementRef>) returns (r: CookieResult)
    ensures r == ProbeButtons(p, bs, 0)
  {
    var done := NoCookieAction;
    var j := 0;
    while j < |bs|
      invariant j <= |bs|
      invariant done.dismissal.None?
      invariant ProbeButtons(p, bs, 0) == Then(done, ProbeButtons(p, bs, j))
    {
      match p.textOf(bs[j]) {
        case TextContent(t) =>
          if IsAcceptText(t) {
            if p.clickOk(bs[j]) {
              return Then(done, CookieResult([], [bs[j]], Some(ByText(t))));
            }
            ThenAssoc(done, CookieResult([], [bs[j]], None), ProbeButtons(p, bs, j + 1));
            done := Then(done, CookieResult([], [bs[j]], None));
          }
        case NullText =>
        case TextError =>
      }
      j := j + 1;
    }
    assert Then(done, NoCookieAction) == done;
    r := done;
  }

  class CaptureEngine {
    var browser: Option<BrowserRef>
    var page: Option<PageRef>

    constructor ()
      ensures browser == None && page == None
    {
      browser := None;
      page := None;
    }

    /** isInitialized(): both handles present. */
    predicate IsInitialized()
      reads this
    {
      browser.Some? && page.Some?
    }

    /**
     * initialize(): attach to a running browser or launch one, then open a
     * page. A failed launch leaves both handles as they were; a failed page
     * leaves the new browser handle in place and the page as it was.
     */
    method Initialize(connect: Result<BrowserRef>, launch: Result<BrowserRef>, newPage: Result<PageRef>)
      returns (r: Outcome)
      modifies this
      ensures var acquired := Acquire(connect, launch);
        && (acquired.Failure? ==> r == Fail(acquired.error) && browser == old(browser) && page == old(page))
        && (acquired.Success? && newPage.Failure? ==>
              r == Fail(newPage.error) && browser == Some(acquired.value) && page == old(page))
        && (acquired.Success? && newPage.Success? ==>
              r == Pass && browser == Some(acquired.value) && page == Some(newPage.value))
      ensures r == Pass ==> IsInitialized()
    {
      var acquired := Acquire(connect, launch);
      if acquired.Failure? {
        return Fail(acquired.error);
      }
      browser := Some(acquired.value);
      if newPage.Failure? {
        return Fail(newPage.error);
      }
      page := Some(newPage.value);
      r := Pass;
    }

    /**
     * navigateToUrl(url): fails without a page; otherwise loads the page and,
     * once it has loaded, handles cookie banners (which never fails).
     */
    method NavigateToUrl(url: string, loaded: Outcome, cookiePage: CookiePage) returns (r: Outcome, banner: CookieResult)
      ensures page.None? ==> r == Fail(NotInitialized) && banner == NoCookieAction
      ensures page.Some? ==> r == loaded
      ensures page.Some? && loaded.Pass? ==> banner == CookieSpec(cookiePage)
      ensures page.Some? && loaded.Fail? ==> banner == NoCookieAction
    {
      if page.None? {
        return Fail(NotInitialized), NoCookieAction;
      }
      if loaded.Fail? {
        return loaded, NoCookieAction;
      }
      banner := HandleCookieBanners(cookiePage);
      r := Pass;
    }

    /**
     * handleCookieBanners(): nothing without a page; otherwise the structural
     * selectors, then, only if none dismissed the banner, the button texts.
     * Never fails.
     */
    method HandleCookieBanners(p: CookiePage) returns (r: CookieResult)
      ensures page.None? ==> r == NoCookieAction
      ensures page.Some? ==> r == CookieSpec(p)
    {
      if page.None? {
        return NoCookieAction;
      }
      r := TrySelectors(p, CookieSelectors);
      if r.dismissal.Some? || p.buttons.None? {
        return r;
      }
      var byText := TryButtonTexts(p, p.buttons.value);
      r := Then(r, byText);
    }

    /**
     * captureFrame(): needs a page and a video element; the frame always
     * declares the nominal 3840x2160 resolution and movie id 'unknown'.
     */
    function CaptureFrame(video: Probe, screenshot: Result<string>, now: int): (r: Result<FrameData>)
      reads this
      ensures r.Success? <==> page.Some? && video.Hit? && screenshot.Success?
      ensures page.None? ==> r == Failure(NotInitialized)
      ensures page.Some? && video.Miss? ==> r == Failure(VideoNotFound)
      ensures r.Success? ==>
        && r.value.width == NominalWidth && r.value.height == NominalHeight
        && r.value.movieId == "unknown" && r.value.imageData == screenshot.value
        && r.value.timestamp == now && r.value.id == "frame_" + IntToString(now)
    {
      if page.None? then Failure(NotInitialized)
      else
        match video
        case ProbeError(m) => Failure(m)
        case Miss => Failure(VideoNotFound)
        case Hit(_) =>
          match screenshot
          case Failure(m) => Failure(m)
          case Success(image) =>
            Success(FrameData("frame_" + IntToString(now), "unknown", now, image, NominalWidth, NominalHeight, now))
    }

    /** getSubtitles(): fails without a page; otherwise never fails. */
    method GetSubtitles(evaluated: Result<seq<Option<string>>>, at: int) returns (r: Result<seq<SubtitleData>>)
      ensures page.None? ==> r == Failure(NotInitialized)
      ensures page.Some? ==> r == Success(SubtitlesOf(evaluated, at))
    {
      if page.None? {
        return Failure(NotInitialized);
      }
      if evaluated.Failure? {
        return Success([]);
      }
      var subtitleData := CollectSubtitles(evaluated.value, at);
      r := Success(subtitleData);
    }

    /**
     * getPlaybackState(): fails without a page; otherwise copies the video
     * element's fields, or gives the zeroed reading when there is no video
     * element or the evaluation fails.
     */
    function GetPlaybackState(evaluated: Result<Option<VideoElement>>, at: int): (r: Result<PlaybackState>)
      reads this
      ensures page.None? <==> r.Failure?
      ensures page.None? ==> r == Failure(NotInitialized)
      ensures page.Some? && (evaluated.Failure? || evaluated.value.None?) ==> r == Success(DefaultPlayback(at))
      ensures page.Some? && evaluated.Success? && evaluated.value.Some? ==>
        var v, s := evaluated.value.value, r.value;
        && s.isPlaying == !v.paused && s.currentTime == v.currentTime && s.duration == v.duration
        && s.volume == v.volume && s.playbackRate == v.playbackRate
        && s.movieId == "unknown" && s.timestamp == at
    {
      if page.None? then Failure(NotInitialized)
      else
        match evaluated
        case Failure(_) => Success(DefaultPlayback(at))
        case Success(None) => Success(DefaultPlayback(at))
        case Success(Some(v)) =>
          Success(PlaybackState("unknown", !v.paused, v.currentTime, v.duration, v.volume, v.playbackRate, at))
    }

    /**
     * cleanup(): closes the browser if there is one; after a successful close
     * both handles are gone. A failed close is swallowed and changes nothing.
     * `closeCalled` says whether close was attempted.
     */
    method Cleanup(closed: Outcome) returns (closeCalled: bool)
      modifies this
      ensures closeCalled == old(browser).Some?
      ensures closeCalled && closed.Pass? ==> browser == None && page == None && !IsInitialized()
      ensures !(closeCalled && closed.Pass?) ==> browser == old(browser) && page == old(page)
    {
      closeCalled := browser.Some?;
      if closeCalled && closed.Pass? {
        browser := None;
        page := None;
      }
    }
  }
}
