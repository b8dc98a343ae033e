/**
 * The player `ViewStreamedVideo` of src/components/viewStreamedVideo.tsx. A HEAD
 * probe stores the content type once; when the stored result appears, the main
 * effect chooses between the native video tag, hls.js and "unsupported"; media and
 * hls.js events set two readiness flags; two more effects call `play()` and
 * `onReadyToPlay` once both flags are set. The network, the media element and
 * hls.js are inputs: `fetch` is the result handed to `ProbeSettled`, `canPlayType`,
 * `Hls.isSupported()` and the element's presence are an `Env`, and the events are
 * methods. What the component calls outward is appended to a trace.
 */
module StreamedVideo {
  import opened Wrappers

  /** Lines 18-21: the error kinds passed to `onError`. */
  datatype ErrorKind = VideoStreamIsNotUnsupported | ErrorInPlayingVideoWithHlsjs | ErrorInPlayingVideoInVideoTag

  /**
   * Lines 23-26: the stored probe result. A response stores its `Content-Type`
   * header, which may be absent (the non-null assertion does not check); a
   * rejected fetch stores an error.
   */
  datatype MimeTypeResult = MimeType(contentType: Option<string>) | ProbeError

  /** The outcome of `preparePlayOfStreamedVideo`. */
  datatype Strategy = NoVideoElement | NativeTag | HlsJs | Unsupported

  /** An hls.js instance, by identity. */
  type HlsId = nat

  /** What the component calls outward, in order. */
  datatype Call =
    | FetchHead(url: string)              // fetch(videoSource, { method: "HEAD" })
    | OnError(error: Option<ErrorKind>)   // onError(...), None for the argument-less call
    | AssignSrc(url: string)              // videoElement.src = videoSource
    | ListenLoadedMetadata                // addEventListener("loadedmetadata", ...)
    | HlsCreate(id: HlsId, url: string)   // new Hls(), loadSource, attachMedia, MANIFEST_PARSED and ERROR handlers
    | HlsDestroy(id: HlsId)               // hls.destroy()
    | Play                                // videoElement.play()
    | OnReadyToPlay                       // onReadyToPlay()

  /** The props that the modelled behaviour reads. */
  datatype VideoProps = VideoProps(videoSource: string, posterLink: Option<string>, shouldPlay: bool)

  /** The browser at the moment an effect runs. */
  datatype Env = Env(hasElement: bool, canPlayType: string -> bool, hlsSupported: bool)

  // ---------------------------------------------------------------- strategy choice

  /** Line 70: no probe error, a truthy content type, and `canPlayType` accepting it. */
  predicate NativePlayable(r: MimeTypeResult, canPlayType: string -> bool) {
    r.MimeType? && r.contentType.Some? && r.contentType.value != "" && canPlayType(r.contentType.value)
  }

  /** Lines 63-99: the branch `preparePlayOfStreamedVideo` takes. */
  function ChooseStrategy(r: MimeTypeResult, env: Env): (s: Strategy)
    ensures s == NoVideoElement <==> !env.hasElement
    ensures s == NativeTag <==> env.hasElement && NativePlayable(r, env.canPlayType)
    ensures s == HlsJs <==> env.hasElement && !NativePlayable(r, env.canPlayType) && env.hlsSupported
    ensures s == Unsupported <==> env.hasElement && !NativePlayable(r, env.canPlayType) && !env.hlsSupported
  {
    if !env.hasElement then NoVideoElement
    else if NativePlayable(r, env.canPlayType) then NativeTag
    else if env.hlsSupported then HlsJs
    else Unsupported
  }

  /** The calls `preparePlayOfStreamedVideo` makes for a strategy; `id` names the hls.js instance it may create. */
  function PrepareCalls(s: Strategy, src: string, id: HlsId): seq<Call> {
    match s
    case NoVideoElement => [OnError(None)]
    case NativeTag => [AssignSrc(src), ListenLoadedMetadata]
    case HlsJs => [AssignSrc(src), HlsCreate(id, src)]
    case Unsupported => [AssignSrc(src), OnError(Some(VideoStreamIsNotUnsupported))]
  }

  /** The destroyer `preparePlayOfStreamedVideo` returns: only the hls.js path returns one. */
  function Destroyer(s: Strategy, id: HlsId): Option<HlsId> {
    if s == HlsJs then Some(id) else None
  }

  /** Running a pending destroyer (`destroy?.()`). */
  function CleanupCalls(destroy: Option<HlsId>): seq<Call> {
    match destroy
    case None => []
    case Some(id) => [HlsDestroy(id)]
  }

  /** Lines 102-113: one run of the main effect, after the previous run's cleanup. */
  function MainEffectCalls(result: Option<MimeTypeResult>, destroy: Option<HlsId>, src: string, env: Env, id: HlsId): seq<Call> {
    CleanupCalls(destroy)
    + match result
      case None => [FetchHead(src)]
      case Some(r) => PrepareCalls(ChooseStrategy(r, env), src, id)
  }

  /** What the main effect leaves attached: a probe in flight, a "loadedmetadata" listener, a pending destroyer, the next hls.js identity. */
  datatype Attachment = Attachment(probeInFlight: bool, metadataListener: bool, destroy: Option<HlsId>, nextHls: HlsId)

  /** The attachment after one run of the main effect (cleanup first, then probe or preparation). */
  function AfterMainEffect(result: Option<MimeTypeResult>, a: Attachment, env: Env): Attachment {
    match result
    case None => a.(probeInFlight := true, destroy := None)
    case Some(r) =>
      var s := ChooseStrategy(r, env);
      Attachment(a.probeInFlight, a.metadataListener || s == NativeTag, Destroyer(s, a.nextHls),
                 if s == HlsJs then a.nextHls + 1 else a.nextHls)
  }

  /** Line 117. */
  predicate PlayCondition(isStreamerReady: bool, isVideoReadyToPlay: bool, shouldPlay: bool) {
    isStreamerReady && isVideoReadyToPlay && shouldPlay
  }

  /** Line 123. */
  predicate ReadyCondition(isStreamerReady: bool, isVideoReadyToPlay: bool) {
    isStreamerReady && isVideoReadyToPlay
  }

  /** Line 130: the "Loading..." indicator. */
  predicate LoadingShown(posterLink: Option<string>, isStreamerReady: bool, isVideoReadyToPlay: bool) {
    !(posterLink.Some? && posterLink.value != "") && (!isVideoReadyToPlay || !isStreamerReady)
  }

  /** Lines 116-120: `videoElementRef?.current?.play()` also needs the element. */
  function PlayEffectCalls(isStreamerReady: bool, isVideoReadyToPlay: bool, shouldPlay: bool, hasElement: bool): seq<Call> {
    if PlayCondition(isStreamerReady, isVideoReadyToPlay, shouldPlay) && hasElement then [Play] else []
  }

  /** Lines 122-126. */
  function ReadyEffectCalls(isStreamerReady: bool, isVideoReadyToPlay: bool): seq<Call> {
    if ReadyCondition(isStreamerReady, isVideoReadyToPlay) then [OnReadyToPlay] else []
  }

  /** Lines 102-114: the main effect runs only when `mimeTypeResult` differs from its value at the last run. */
  function MainEffectRun(mainDeps: Option<Option<MimeTypeResult>>, result: Option<MimeTypeResult>,
                         destroy: Option<HlsId>, src: string, env: Env, nextHls: HlsId): seq<Call> {
    if mainDeps != Some(result) then MainEffectCalls(result, destroy, src, env, nextHls) else []
  }

  /** Line 120: the play effect runs only when one of its three dependencies changed. */
  function PlayEffectRun(playDeps: Option<(bool, bool, bool)>, isStreamerReady: bool, isVideoReadyToPlay: bool,
                         shouldPlay: bool, hasElement: bool): seq<Call> {
    if playDeps != Some((isStreamerReady, isVideoReadyToPlay, shouldPlay))
    then PlayEffectCalls(isStreamerReady, isVideoReadyToPlay, shouldPlay, hasElement) else []
  }

  /** Line 126: the ready effect runs only when one of its two dependencies changed. */
  function ReadyEffectRun(readyDeps: Option<(bool, bool)>, isStreamerReady: bool, isVideoReadyToPlay: bool): seq<Call> {
    if readyDeps != Some((isStreamerReady, isVideoReadyToPlay))
    then ReadyEffectCalls(isStreamerReady, isVideoReadyToPlay) else []
  }

  /** Calls counted in a trace: HEAD requests, whatever their URL, or one exact call. */
  datatype CallKind = Probe | Exactly(call: Call)

  /** `onReadyToPlay`, whose number the component bounds together with the HEAD requests. */
  const Ready: CallKind := Exactly(OnReadyToPlay)

  predicate IsKind(c: Call, k: CallKind) {
    match k
    case Probe => c.FetchHead?
    case Exactly(d) => c == d
  }

  /** Number of calls of kind `k` in a trace. */
  function Count(calls: seq<Call>, k: CallKind): nat {
    if calls == [] then 0 else (if IsKind(calls[0], k) then 1 else 0) + Count(calls[1..], k)
  }

  /** The count of a concatenation is the sum of its parts' counts. */
  lemma {:induction false} CountAppend(a: seq<Call>, b: seq<Call>, k: CallKind)
    ensures Count(a + b, k) == Count(a, k) + Count(b, k)
  {
    if a == [] {
      assert a + b == b;
    } else {
      assert (a + b)[1..] == a[1..] + b;
      CountAppend(a[1..], b, k);
    }
  }

  /** A trace without a call of kind `k` counts none. */
  lemma {:induction false} CountZero(calls: seq<Call>, k: CallKind)
    requires forall c :: c in calls ==> !IsKind(c, k)
    ensures Count(calls, k) == 0
  {
    if calls != [] {
      assert calls[0] in calls;
      assert forall c :: c in calls[1..] ==> c in calls;
      CountZero(calls[1..], k);
    }
  }

  /** Appending calls that are neither HEAD requests nor `onReadyToPlay` keeps both counts. */
  lemma AppendKeepsCounts(t: seq<Call>, added: seq<Call>)
    requires forall c :: c in added ==> !c.FetchHead? && c != OnReadyToPlay
    ensures Count(t + added, Probe) == Count(t, Probe) && Count(t + added, Ready) == Count(t, Ready)
  {
    CountAppend(t, added, Probe);
    CountZero(added, Probe);
    CountAppend(t, added, Ready);
    CountZero(added, Ready);
  }

  /** Appending one call adds one to the count of its kind. */
  lemma AppendOne(t: seq<Call>, c: Call, k: CallKind)
    ensures Count(t + [c], k) == Count(t, k) + (if IsKind(c, k) then 1 else 0)
  {
    CountAppend(t, [c], k);
    assert [c][1..] == [];
  }

  // ---------------------------------------------------------------- lemmas

  /** A probe error rules out only the native tag: strategy selection still tries hls.js. */
  lemma ProbeErrorStillTriesHls(env: Env)
    requires env.hasElement
    ensures ChooseStrategy(ProbeError, env) == if env.hlsSupported then HlsJs else Unsupported
  {
  }

  /** A response without a usable content type is treated like a probe error. */
  lemma MissingContentTypeLikeError(r: MimeTypeResult, env: Env)
    requires r.MimeType? && (r.contentType.None? || r.contentType.value == "")
    ensures ChooseStrategy(r, env) == ChooseStrategy(ProbeError, env)
  {
  }

  /**
   * What each strategy does: without an element only the argument-less `onError`;
   * the native path creates no hls.js instance and returns no destroyer; the hls.js
   * path creates exactly one and returns its destroyer; "unsupported" reports
   * `VideoStreamIsNotUnsupported` exactly once.
   */
  lemma PrepareEffects(s: Strategy, src: string, id: HlsId)
    ensures var calls := PrepareCalls(s, src, id);
      && (s == NoVideoElement ==> calls == [OnError(None)] && Destroyer(s, id) == None)
      && (s != NoVideoElement ==> calls[0] == AssignSrc(src))
      && (s != HlsJs ==> (forall c :: c in calls ==> !c.HlsCreate?) && Destroyer(s, id) == None)
      && (s == HlsJs ==> Count(calls, Exactly(HlsCreate(id, src))) == 1 && Destroyer(s, id) == Some(id)
                         && (forall c :: c in calls ==> !c.OnError?))
      && (s == NativeTag ==> ListenLoadedMetadata in calls && forall c :: c in calls ==> !c.OnError?)
      && (s == Unsupported ==> Count(calls, Exactly(OnError(Some(VideoStreamIsNotUnsupported)))) == 1
                               && ListenLoadedMetadata !in calls)
  {
    var calls := PrepareCalls(s, src, id);
    if s == HlsJs || s == Unsupported {
      var k := Exactly(calls[1]);
      assert calls[1..] == [calls[1]] && calls[1..][1..] == [];
      assert Count(calls[1..], k) == 1 + Count(calls[1..][1..], k);
      assert Count(calls, k) == 0 + Count(calls[1..], k);
    }
  }

  /** `play()` is called only in renders where `onReadyToPlay` would fire as well. */
  lemma PlayImpliesReady(isStreamerReady: bool, isVideoReadyToPlay: bool, shouldPlay: bool, hasElement: bool)
    ensures Play in PlayEffectCalls(isStreamerReady, isVideoReadyToPlay, shouldPlay, hasElement)
      ==> ReadyEffectCalls(isStreamerReady, isVideoReadyToPlay) == [OnReadyToPlay] && shouldPlay
  {
  }

  /** Without a truthy poster, "Loading..." is shown exactly while `onReadyToPlay`'s condition fails; with one it is never shown. */
  lemma LoadingUntilReady(posterLink: Option<string>, isStreamerReady: bool, isVideoReadyToPlay: bool)
    ensures !(posterLink.Some? && posterLink.value != "") ==>
      (LoadingShown(posterLink, isStreamerReady, isVideoReadyToPlay) <==> !ReadyCondition(isStreamerReady, isVideoReadyToPlay))
    ensures posterLink.Some? && posterLink.value != "" ==> !LoadingShown(posterLink, isStreamerReady, isVideoReadyToPlay)
  {
  }

  // ---------------------------------------------------------------- the component as an object

  class ViewStreamedVideo {
    var props: VideoProps
    var mimeTypeResult: Option<MimeTypeResult>
    var isStreamerReady: bool
    var isVideoReadyToPlay: bool
    /** A HEAD request has been sent and has not settled. */
    var probeInFlight: bool
    /** A "loadedmetadata" listener has been added to the element. */
    var metadataListener: bool
    /** hls.js instances created and not destroyed. */
    var liveHls: set<HlsId>
    /** The cleanup the last run of the main effect returned. */
    var destroy: Option<HlsId>
    /** Identity the next `new Hls()` receives. */
    var nextHls: HlsId
    /** The outward calls so far. */
    var trace: seq<Call>
    /** The dependency values each effect last ran with (None before its first run). */
    var mainDeps: Option<Option<MimeTypeResult>>
    var playDeps: Option<(bool, bool, bool)>
    var readyDeps: Option<(bool, bool)>
    ghost var probesStarted: nat
    /** How many times `onReadyToPlay` has been called. */
    ghost var readyCalls: nat

    ghost predicate Valid()
      reads this
    {
      // every live hls.js instance is the one the pending cleanup destroys
      && liveHls == (if destroy.Some? then {destroy.value} else {})
      && (destroy.Some? ==> destroy.value < nextHls)
      // the probe is sent once, by the first run of the main effect
      && probesStarted <= 1
      && (mainDeps.None? ==> probesStarted == 0 && mimeTypeResult.None? && !probeInFlight)
      && (mainDeps.Some? ==> probesStarted == 1)
      && (probeInFlight ==> mimeTypeResult.None?)
      && (mimeTypeResult.None? && mainDeps.Some? ==> mainDeps == Some(None))
      // the streamer flag is only set by a listener that strategy selection attached
      && (isStreamerReady ==> metadataListener || nextHls > 0)
      && (metadataListener || nextHls > 0 ==> mimeTypeResult.Some?)
      // the flags never fall back to false, so `onReadyToPlay` fires at most once
      && (readyDeps.Some? && readyDeps.value.0 ==> isStreamerReady)
      && (readyDeps.Some? && readyDeps.value.1 ==> isVideoReadyToPlay)
      && readyCalls <= 1
      && (readyCalls == 1 <==> readyDeps == Some((true, true)))
      // the counters are the trace's HEAD requests and `onReadyToPlay` calls
      && Count(trace, Probe) == probesStarted
      && Count(trace, Ready) == readyCalls
    }

    /** The first render: both flags false, no probe result, no effect has run yet. */
    constructor (p: VideoProps)
      ensures Valid()
      ensures props == p && mimeTypeResult == None && !isStreamerReady && !isVideoReadyToPlay
      ensures !probeInFlight && !metadataListener && liveHls == {} && destroy == None && nextHls == 0
      ensures trace == [] && mainDeps == None && playDeps == None && readyDeps == None
    {
      props := p;
      mimeTypeResult := None;
      isStreamerReady, isVideoReadyToPlay := false, false;
      probeInFlight, metadataListener := false, false;
      liveHls, destroy, nextHls := {}, None, 0;
      trace := [];
      mainDeps, playDeps, readyDeps := None, None, None;
      probesStarted, readyCalls := 0, 0;
    }

    /** The dependency values recorded for the three effects, and the ready count, are the same as before the call. */
    twostate predicate UnchangedDeps()
      reads this
    {
      mainDeps == old(mainDeps) && playDeps == old(playDeps) && readyDeps == old(readyDeps)
      && readyCalls == old(readyCalls)
    }

    /** The fields the main effect owns. */
    ghost function Attached(): Attachment
      reads this
    {
      Attachment(probeInFlight, metadataListener, destroy, nextHls)
    }

    /**
     * Lines 102-114: when `mimeTypeResult` differs from the value of the last run,
     * the previous destroyer runs, then the probe starts or strategy preparation runs.
     */
    method MainEffect(env: Env)
      requires Valid()
      modifies this
      ensures Valid()
      ensures trace == old(trace) + MainEffectRun(old(mainDeps), mimeTypeResult, old(destroy), props.videoSource, env, old(nextHls))
      ensures Attached() == if old(mainDeps) != Some(mimeTypeResult) then AfterMainEffect(mimeTypeResult, old(Attached()), env)
                            else old(Attached())
      ensures !(old(mainDeps) != Some(mimeTypeResult)) ==> liveHls == old(liveHls)
      ensures mainDeps == Some(mimeTypeResult)
      ensures props == old(props) && mimeTypeResult == old(mimeTypeResult)
      ensures isStreamerReady == old(isStreamerReady) && isVideoReadyToPlay == old(isVideoReadyToPlay)
      ensures playDeps == old(playDeps) && readyDeps == old(readyDeps)
    {
      if mainDeps == Some(mimeTypeResult) {
        return;
      }
      if mimeTypeResult.None? {
        ProbeRun();
      } else {
        PrepareRun(env);
      }
    }

    /** Lines 105-106 and 111-113: the first run (no stored result) runs the pending destroyer, then sends the probe. */
    method ProbeRun()
      requires Valid() && mimeTypeResult.None? && mainDeps.None?
      modifies this
      ensures Valid()
      ensures trace == old(trace) + CleanupCalls(old(destroy)) + [FetchHead(props.videoSource)]
      ensures Attached() == old(Attached()).(probeInFlight := true, destroy := None)
      ensures mainDeps == Some(mimeTypeResult)
      ensures props == old(props) && mimeTypeResult == old(mimeTypeResult)
      ensures isStreamerReady == old(isStreamerReady) && isVideoReadyToPlay == old(isVideoReadyToPlay)
      ensures playDeps == old(playDeps) && readyDeps == old(readyDeps)
    {
      Cleanup();                                          // destroy?.() of the previous run
      StartProbe();
      mainDeps := Some(mimeTypeResult);
    }

    /** Lines 107-113: a run with a stored result runs the pending destroyer, then prepares playback. */
    method PrepareRun(env: Env)
      requires Valid() && mimeTypeResult.Some? && mainDeps != Some(mimeTypeResult)
      modifies this
      ensures Valid()
      ensures trace == old(trace) + MainEffectCalls(mimeTypeResult, old(destroy), props.videoSource, env, old(nextHls))
      ensures Attached() == AfterMainEffect(mimeTypeResult, old(Attached()), env)
      ensures mainDeps == Some(mimeTypeResult)
      ensures props == old(props) && mimeTypeResult == old(mimeTypeResult)
      ensures isStreamerReady == old(isStreamerReady) && isVideoReadyToPlay == old(isVideoReadyToPlay)
      ensures playDeps == old(playDeps) && readyDeps == old(readyDeps)
    {
      Cleanup();                                          // destroy?.() of the previous run
      destroy := PreparePlay(env);
      mainDeps := Some(mimeTypeResult);
    }

    /** Lines 48-53: `getFileMimeTypeFromLink` sends the HEAD request; it is called only while no result is stored. */
    method StartProbe()
      requires mimeTypeResult.None? && probesStarted == 0
      modifies this
      ensures trace == old(trace) + [FetchHead(props.videoSource)]
      ensures probeInFlight && probesStarted == 1
      ensures Count(trace, Probe) == Count(old(trace), Probe) + 1 && Count(trace, Ready) == Count(old(trace), Ready)
      ensures metadataListener == old(metadataListener) && destroy == old(destroy) && nextHls == old(nextHls)
      ensures liveHls == old(liveHls) && props == old(props) && mimeTypeResult == old(mimeTypeResult)
      ensures isStreamerReady == old(isStreamerReady) && isVideoReadyToPlay == old(isVideoReadyToPlay)
      ensures UnchangedDeps()
    {
      AppendOne(trace, FetchHead(props.videoSource), Probe);
      AppendOne(trace, FetchHead(props.videoSource), Ready);
      trace := trace + [FetchHead(props.videoSource)];
      probeInFlight := true;
      probesStarted := probesStarted + 1;
    }

    /** Lines 60-100: `preparePlayOfStreamedVideo` follows the chosen strategy and returns its destroyer. */
    method PreparePlay(env: Env) returns (destroyer: Option<HlsId>)
      requires mimeTypeResult.Some?
      modifies this
      ensures mimeTypeResult == old(mimeTypeResult)
      ensures var s := ChooseStrategy(mimeTypeResult.value, env);
        && trace == old(trace) + PrepareCalls(s, props.videoSource, old(nextHls))
        && destroyer == Destroyer(s, old(nextHls))
        && liveHls == old(liveHls) + (if s == HlsJs then {old(nextHls)} else {})
        && nextHls == (if s == HlsJs then old(nextHls) + 1 else old(nextHls))
        && metadataListener == (old(metadataListener) || s == NativeTag)
      ensures probeInFlight == old(probeInFlight) && probesStarted == old(probesStarted) && destroy == old(destroy)
      ensures Count(trace, Probe) == Count(old(trace), Probe) && Count(trace, Ready) == Count(old(trace), Ready)
      ensures props == old(props)
      ensures isStreamerReady == old(isStreamerReady) && isVideoReadyToPlay == old(isVideoReadyToPlay)
      ensures UnchangedDeps()
    {
      var s := ChooseStrategy(mimeTypeResult.value, env);
      AppendKeepsCounts(trace, PrepareCalls(s, props.videoSource, nextHls));
      trace := trace + PrepareCalls(s, props.videoSource, nextHls);
      destroyer := Destroyer(s, nextHls);
      if s == NativeTag {
        metadataListener := true;                         // addEventListener("loadedmetadata", ...)
      } else if s == HlsJs {
        liveHls := liveHls + {nextHls};                   // new Hls()
        nextHls := nextHls + 1;
      }
    }

    /** Lines 116-120: runs when `isStreamerReady`, `isVideoReadyToPlay` or `shouldPlay` changed. */
    method PlayEffect(hasElement: bool)
      requires Valid()
      modifies this
      ensures Valid()
      ensures trace == old(trace) + PlayEffectRun(old(playDeps), isStreamerReady, isVideoReadyToPlay, props.shouldPlay, hasElement)
      ensures playDeps == Some((isStreamerReady, isVideoReadyToPlay, props.shouldPlay))
      ensures Attached() == old(Attached()) && liveHls == old(liveHls) && mainDeps == old(mainDeps)
      ensures props == old(props) && mimeTypeResult == old(mimeTypeResult) && readyDeps == old(readyDeps)
      ensures isStreamerReady == old(isStreamerReady) && isVideoReadyToPlay == old(isVideoReadyToPlay)
    {
      var deps := (isStreamerReady, isVideoReadyToPlay, props.shouldPlay);
      if playDeps != Some(deps) {
        AppendKeepsCounts(trace, PlayEffectCalls(deps.0, deps.1, deps.2, hasElement));
        trace := trace + PlayEffectCalls(deps.0, deps.1, deps.2, hasElement);
        playDeps := Some(deps);
      }
    }

    /** Lines 122-126: runs when `isStreamerReady` or `isVideoReadyToPlay` changed. */
    method ReadyEffect()
      requires Valid()
      modifies this
      ensures Valid()
      ensures trace == old(trace) + ReadyEffectRun(old(readyDeps), isStreamerReady, isVideoReadyToPlay)
      ensures readyDeps == Some((isStreamerReady, isVideoReadyToPlay))
      ensures Attached() == old(Attached()) && liveHls == old(liveHls) && mainDeps == old(mainDeps)
      ensures props == old(props) && mimeTypeResult == old(mimeTypeResult) && playDeps == old(playDeps)
      ensures isStreamerReady == old(isStreamerReady) && isVideoReadyToPlay == old(isVideoReadyToPlay)
    {
      var deps := (isStreamerReady, isVideoReadyToPlay);
      if readyDeps != Some(deps) {
        if ReadyCondition(deps.0, deps.1) {
          AppendOne(trace, OnReadyToPlay, Probe);
          AppendOne(trace, OnReadyToPlay, Ready);
        } else {
          assert trace + ReadyEffectCalls(deps.0, deps.1) == trace;
        }
        trace := trace + ReadyEffectCalls(deps.0, deps.1);
        if ReadyCondition(deps.0, deps.1) {
          readyCalls := readyCalls + 1;
        }
        readyDeps := Some(deps);
      }
    }

    /**
     * A commit after a render with props `p`: the three effects, in declaration
     * order, each running only if its dependency list changed. Only `mimeTypeResult`
     * is a dependency of the main effect, so a new `videoSource` alone resets nothing.
     */
    method Commit(p: VideoProps, env: Env)
      requires Valid()
      modifies this
      ensures Valid()
      ensures props == p && mimeTypeResult == old(mimeTypeResult)
      ensures isStreamerReady == old(isStreamerReady) && isVideoReadyToPlay == old(isVideoReadyToPlay)
      ensures var mainRuns := old(mainDeps) != Some(old(mimeTypeResult));
        Attached() == (if mainRuns then AfterMainEffect(mimeTypeResult, old(Attached()), env) else old(Attached()))
      ensures old(mainDeps) == Some(old(mimeTypeResult)) ==> liveHls == old(liveHls)
      ensures trace == old(trace)
        + MainEffectRun(old(mainDeps), mimeTypeResult, old(destroy), p.videoSource, env, old(nextHls))
        + PlayEffectRun(old(playDeps), isStreamerReady, isVideoReadyToPlay, p.shouldPlay, env.hasElement)
        + ReadyEffectRun(old(readyDeps), isStreamerReady, isVideoReadyToPlay)
      ensures mainDeps == Some(mimeTypeResult)
      ensures playDeps == Some((isStreamerReady, isVideoReadyToPlay, p.shouldPlay))
      ensures readyDeps == Some((isStreamerReady, isVideoReadyToPlay))
      ensures Count(trace, Probe) <= 1 && Count(trace, Ready) <= 1
    {
      props := p;
      MainEffect(env);
      PlayEffect(env.hasElement);
      ReadyEffect();
    }

    /** Lines 51-57: the HEAD request settles, storing its result (which re-renders). */
    method ProbeSettled(r: MimeTypeResult)
      requires Valid() && probeInFlight
      modifies this
      ensures Valid()
      ensures mimeTypeResult == Some(r) && Attached() == old(Attached()).(probeInFlight := false)
      ensures trace == old(trace) && isStreamerReady == old(isStreamerReady) && isVideoReadyToPlay == old(isVideoReadyToPlay)
      ensures liveHls == old(liveHls) && props == old(props) && UnchangedDeps()
    {
      mimeTypeResult := Some(r);
      probeInFlight := false;
    }

    /** Lines 74-77: "loadedmetadata" sets both flags, if the native path added its listener. */
    method LoadedMetadata()
      requires Valid()
      modifies this
      ensures Valid()
      ensures isStreamerReady == (old(isStreamerReady) || metadataListener)
      ensures isVideoReadyToPlay == (old(isVideoReadyToPlay) || metadataListener)
      ensures trace == old(trace)
      ensures mimeTypeResult == old(mimeTypeResult) && liveHls == old(liveHls) && Attached() == old(Attached())
      ensures props == old(props) && UnchangedDeps()
    {
      if metadataListener {
        isStreamerReady, isVideoReadyToPlay := true, true;
      }
    }

    /** Line 136: the element's `onLoadedData` sets only the video flag, on every path. */
    method LoadedData()
      requires Valid()
      modifies this
      ensures Valid()
      ensures isVideoReadyToPlay && isStreamerReady == old(isStreamerReady)
      ensures trace == old(trace)
      ensures mimeTypeResult == old(mimeTypeResult) && liveHls == old(liveHls) && Attached() == old(Attached())
      ensures props == old(props) && UnchangedDeps()
    {
      isVideoReadyToPlay := true;
    }

    /** Lines 86-88: MANIFEST_PARSED of a live instance sets only the streamer flag. */
    method ManifestParsed(id: HlsId)
      requires Valid()
      modifies this
      ensures Valid()
      ensures isStreamerReady == (old(isStreamerReady) || id in liveHls)
      ensures isVideoReadyToPlay == old(isVideoReadyToPlay)
      ensures trace == old(trace)
      ensures mimeTypeResult == old(mimeTypeResult) && liveHls == old(liveHls) && Attached() == old(Attached())
      ensures props == old(props) && UnchangedDeps()
    {
      if id in liveHls {
        isStreamerReady := true;
      }
    }

    /** Lines 89-91: ERROR of a live instance reports `ErrorInPlayingVideoWithHlsjs` and changes nothing else. */
    method HlsError(id: HlsId)
      requires Valid()
      modifies this
      ensures Valid()
      ensures trace == old(trace) + (if id in liveHls then [OnError(Some(ErrorInPlayingVideoWithHlsjs))] else [])
      ensures isStreamerReady == old(isStreamerReady) && isVideoReadyToPlay == old(isVideoReadyToPlay)
      ensures mimeTypeResult == old(mimeTypeResult) && liveHls == old(liveHls) && Attached() == old(Attached())
      ensures props == old(props) && UnchangedDeps()
    {
      if id in liveHls {
        AppendKeepsCounts(trace, [OnError(Some(ErrorInPlayingVideoWithHlsjs))]);
        trace := trace + [OnError(Some(ErrorInPlayingVideoWithHlsjs))];
      }
    }

    /** Line 142: the element's `onError` reports `ErrorInPlayingVideoInVideoTag`. */
    method VideoTagError()
      requires Valid()
      modifies this
      ensures Valid()
      ensures trace == old(trace) + [OnError(Some(ErrorInPlayingVideoInVideoTag))]
      ensures isStreamerReady == old(isStreamerReady) && isVideoReadyToPlay == old(isVideoReadyToPlay)
      ensures mimeTypeResult == old(mimeTypeResult) && liveHls == old(liveHls) && Attached() == old(Attached())
      ensures props == old(props) && UnchangedDeps()
    {
      AppendKeepsCounts(trace, [OnError(Some(ErrorInPlayingVideoInVideoTag))]);
      trace := trace + [OnError(Some(ErrorInPlayingVideoInVideoTag))];
    }

    /**
     * Lines 111-113: the main effect's cleanup `destroy?.()`, which React runs before
     * the effect's next run and on unmount; afterwards no hls.js instance stays alive.
     */
    method Cleanup()
      requires Valid()
      modifies this
      ensures Valid()
      ensures trace == old(trace) + CleanupCalls(old(destroy))
      ensures liveHls == {} && Attached() == old(Attached()).(destroy := None)
      ensures isStreamerReady == old(isStreamerReady) && isVideoReadyToPlay == old(isVideoReadyToPlay)
      ensures mimeTypeResult == old(mimeTypeResult) && props == old(props) && UnchangedDeps()
    {
      AppendKeepsCounts(trace, CleanupCalls(destroy));
      trace := trace + CleanupCalls(destroy);
      destroy, liveHls := None, {};
    }
  }

  /**
   * Over the component's whole life the HEAD probe is sent at most once, only by the
   * first run of the main effect, and `onReadyToPlay` is called at most once, by the
   * run that first sees both flags set.
   */
  lemma AtMostOnce(v: ViewStreamedVideo)
    requires v.Valid()
    ensures Count(v.trace, Probe) <= 1 && (Count(v.trace, Probe) == 1 <==> v.mainDeps.Some?)
    ensures Count(v.trace, Ready) <= 1 && (Count(v.trace, Ready) == 1 <==> v.readyDeps == Some((true, true)))
  {
  }

  // ---------------------------------------------------------------- scenarios

  /** A natively playable source reaches both flags through "loadedmetadata" without creating an hls.js instance. */
  method NativeScenario(p: VideoProps, mime: string, canPlayType: string -> bool, hlsSupported: bool)
    returns (calls: seq<Call>, streamerReady: bool, videoReady: bool)
    requires mime != "" && canPlayType(mime)
    ensures streamerReady && videoReady
    ensures calls == [FetchHead(p.videoSource), AssignSrc(p.videoSource), ListenLoadedMetadata]
                     + (if p.shouldPlay then [Play] else []) + [OnReadyToPlay]
    ensures forall c :: c in calls ==> !c.HlsCreate? && !c.OnError?
  {
    var env := Env(true, canPlayType, hlsSupported);
    var r := MimeType(Some(mime));
    var v := new ViewStreamedVideo(p);
    v.Commit(p, env);
    assert v.trace == [FetchHead(p.videoSource)];
    v.ProbeSettled(r);
    assert ChooseStrategy(r, env) == NativeTag;
    v.Commit(p, env);
    assert v.trace == [FetchHead(p.videoSource), AssignSrc(p.videoSource), ListenLoadedMetadata];
    assert v.metadataListener && v.playDeps == Some((false, false, p.shouldPlay));
    v.LoadedMetadata();
    assert v.isStreamerReady && v.isVideoReadyToPlay && v.mainDeps == Some(v.mimeTypeResult);
    v.Commit(p, env);
    calls, streamerReady, videoReady := v.trace, v.isStreamerReady, v.isVideoReadyToPlay;
  }

  /**
   * An unplayable probe result without hls.js support reports
   * `VideoStreamIsNotUnsupported` once; "loadeddata" still sets the video flag,
   * the streamer flag never follows, and neither `play()` nor `onReadyToPlay` is called.
   */
  method UnsupportedScenario(p: VideoProps, r: MimeTypeResult, canPlayType: string -> bool, id: HlsId)
    returns (calls: seq<Call>, streamerReady: bool, videoReady: bool)
    requires !NativePlayable(r, canPlayType)
    ensures !streamerReady && videoReady
    ensures calls == [FetchHead(p.videoSource), AssignSrc(p.videoSource), OnError(Some(VideoStreamIsNotUnsupported))]
    ensures Play !in calls && OnReadyToPlay !in calls
  {
    var env := Env(true, canPlayType, false);
    var v := new ViewStreamedVideo(p);
    v.Commit(p, env);
    assert v.trace == [FetchHead(p.videoSource)] && !v.metadataListener && v.nextHls == 0;
    v.ProbeSettled(r);
    assert ChooseStrategy(r, env) == Unsupported;
    v.Commit(p, env);
    assert v.trace == [FetchHead(p.videoSource), AssignSrc(p.videoSource), OnError(Some(VideoStreamIsNotUnsupported))];
    assert !v.metadataListener && v.liveHls == {};
    v.ManifestParsed(id);
    v.LoadedMetadata();
    v.LoadedData();
    v.Commit(p, env);
    calls, streamerReady, videoReady := v.trace, v.isStreamerReady, v.isVideoReadyToPlay;
  }

  /**
   * After a probe error with hls.js available, one instance is created; a later
   * change of `videoSource` neither probes again nor replaces the instance, and
   * only teardown destroys it.
   */
  method SourceChangeScenario(p: VideoProps, newSource: string, canPlayType: string -> bool)
    returns (calls: seq<Call>, streamerReady: bool)
    ensures streamerReady
    ensures calls == [FetchHead(p.videoSource), AssignSrc(p.videoSource), HlsCreate(0, p.videoSource), HlsDestroy(0)]
  {
    var env := Env(true, canPlayType, true);
    var v := new ViewStreamedVideo(p);
    v.Commit(p, env);
    assert v.trace == [FetchHead(p.videoSource)];
    v.ProbeSettled(ProbeError);
    assert ChooseStrategy(ProbeError, env) == HlsJs;
    v.Commit(p, env);
    assert v.trace == [FetchHead(p.videoSource), AssignSrc(p.videoSource), HlsCreate(0, p.videoSource)];
    assert v.destroy == Some(0) && v.liveHls == {0};
    v.ManifestParsed(0);
    v.Commit(p.(videoSource := newSource), env);
    assert v.trace == [FetchHead(p.videoSource), AssignSrc(p.videoSource), HlsCreate(0, p.videoSource)];
    assert v.destroy == Some(0);
    v.Cleanup();                                          // unmount
    calls, streamerReady := v.trace, v.isStreamerReady;
  }
}
