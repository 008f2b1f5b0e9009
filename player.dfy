/** One Shorts tile (components/ShortsPlayer.tsx): a <video> element fed by an
    hls.js session, played and paused as the tile becomes active and inactive.
    The element and the hls.js instance are abstracted to the flags and counters
    the component's code changes. */
module ShortsPlayer {
  import opened Wrappers
  import opened Videos
  import ShortsFeed

  /** `data.type` of an hls.js ERROR event. */
  datatype ErrorType = NetworkError | MediaError | OtherError(name: string)

  /** The payload of an hls.js ERROR event. */
  datatype ErrorData = ErrorData(fatal: bool, kind: ErrorType)

  /** What the ERROR handler asks of the hls.js instance. */
  datatype Recovery = NoAction | StartLoad | RecoverMediaError | Destroy

  /** The ERROR handler's dispatch: a fatal network error restarts loading, a fatal
      media error recovers the decoder, any other fatal error destroys the session,
      and a non-fatal error is left to hls.js. */
  function RecoveryFor(e: ErrorData): (r: Recovery)
    ensures r == NoAction <==> !e.fatal
    ensures r == StartLoad <==> e.fatal && e.kind.NetworkError?
    ensures r == RecoverMediaError <==> e.fatal && e.kind.MediaError?
    ensures r == Destroy <==> e.fatal && e.kind.OtherError?
  {
    if !e.fatal then NoAction
    else match e.kind
      case NetworkError => StartLoad
      case MediaError => RecoverMediaError
      case OtherError(_) => Destroy
  }

  /** How the tile's element is fed. `Hls` records the source, the `isActive` value
      the MANIFEST_PARSED handler captured, how often `startLoad` and
      `recoverMediaError` were called, and whether `destroy` was. */
  datatype Session =
    | NoSession
    | NativeSource(src: string)
    | Hls(source: string, autoplayOnManifest: bool, loadRestarts: nat, mediaRecoveries: nat, destroyed: bool)

  /** An hls.js instance that has not been destroyed; only such an instance emits events. */
  predicate Live(s: Session) {
    s.Hls? && !s.destroyed
  }

  /** The effect of the handler's call on the hls.js instance. */
  function Apply(s: Session, r: Recovery): Session
    requires s.Hls?
  {
    match r
    case NoAction => s
    case StartLoad => s.(loadRestarts := s.loadRestarts + 1)
    case RecoverMediaError => s.(mediaRecoveries := s.mediaRecoveries + 1)
    case Destroy => s.(destroyed := true)
  }

  /** What the effect's cleanup does: `hls.destroy()`; the native path has no cleanup. */
  function Teardown(s: Session): (t: Session)
    ensures !Live(t)
    ensures s.Hls? ==> t == s.(destroyed := true)
    ensures !s.Hls? ==> t == s
  {
    if s.Hls? then s.(destroyed := true) else s
  }

  /** A fatal network or media error keeps the session alive and changes only its
      matching counter; a non-fatal error changes nothing; any other fatal error
      destroys it and nothing else. */
  lemma ErrorRecoveryOutcome(s: Session, e: ErrorData)
    requires Live(s)
    ensures var t := Apply(s, RecoveryFor(e));
      && (!e.fatal ==> t == s)
      && (e.fatal && e.kind.NetworkError? ==> Live(t) && t == s.(loadRestarts := s.loadRestarts + 1))
      && (e.fatal && e.kind.MediaError? ==> Live(t) && t == s.(mediaRecoveries := s.mediaRecoveries + 1))
      && (e.fatal && e.kind.OtherError? ==> !Live(t) && t == s.(destroyed := true))
  {
  }

  /** Destroying twice, by the ERROR handler and then by the cleanup, is the same
      as destroying once. */
  lemma DestroyIdempotent(s: Session)
    requires s.Hls?
    ensures Teardown(Apply(s, Destroy)) == Apply(s, Destroy)
    ensures Teardown(Teardown(s)) == Teardown(s)
  {
  }

  /** A run of ERROR events; once destroyed the instance emits no more. */
  function AfterErrors(s: Session, events: seq<ErrorData>): Session
    requires s.Hls?
    decreases |events|
  {
    if events == [] || s.destroyed then s
    else AfterErrors(Apply(s, RecoveryFor(events[0])), events[1..])
  }

  function FatalNetworkCount(events: seq<ErrorData>): nat
    decreases |events|
  {
    if events == [] then 0
    else (if events[0].fatal && events[0].kind.NetworkError? then 1 else 0) + FatalNetworkCount(events[1..])
  }

  /** Retry is unbounded: however many fatal network and media errors arrive, the
      session is never given up, and every fatal network error restarts loading once. */
  lemma {:induction false} RecoverableErrorsNeverDestroy(s: Session, events: seq<ErrorData>)
    requires Live(s)
    requires forall i :: 0 <= i < |events| ==> !(events[i].fatal && events[i].kind.OtherError?)
    ensures Live(AfterErrors(s, events))
    ensures AfterErrors(s, events).loadRestarts == s.loadRestarts + FatalNetworkCount(events)
    decreases |events|
  {
    if events != [] {
      var t := Apply(s, RecoveryFor(events[0]));
      RecoverableErrorsNeverDestroy(t, events[1..]);
    }
  }

  /** What the tile renders. */
  datatype View = PlayerView | ProcessingNotice | Unavailable

  /** The render guard: the <video> element appears only for a completed video with
      a URL; otherwise a "Processing video..." notice or "Video not available". */
  function RenderedView(v: Video): (r: View)
    ensures r == PlayerView <==> IsPlayable(v)
    ensures r == ProcessingNotice <==> v.processingStatus == "processing"
  {
    if v.processingStatus != "completed" || !HasUrl(v) then
      (if v.processingStatus == "processing" then ProcessingNotice else Unavailable)
    else PlayerView
  }

  /** Every tile the Shorts feed keeps renders its <video> element. */
  lemma FeedTilesRenderPlayer(fetched: seq<Video>)
    ensures forall v :: v in ShortsFeed.PlayableVideos(fetched) ==> RenderedView(v) == PlayerView
  {
  }

  /** The session the HLS effect creates on mount. */
  function MountSession(v: Video, active: bool, hlsSupported: bool, canPlayNativeHls: bool): (s: Session)
    ensures s != NoSession ==> HasUrl(v) && RenderedView(v) == PlayerView
    ensures s.Hls? ==> (&& Some(s.source) == v.videoUrl && s.autoplayOnManifest == active
                        && s.loadRestarts == 0 && s.mediaRecoveries == 0 && !s.destroyed)
    ensures s.NativeSource? ==> Some(s.src) == v.videoUrl
    ensures RenderedView(v) == PlayerView && hlsSupported ==> s.Hls?
    ensures RenderedView(v) == PlayerView && !hlsSupported && canPlayNativeHls ==> s.NativeSource?
    ensures !hlsSupported && !canPlayNativeHls ==> s == NoSession
  {
    if RenderedView(v) != PlayerView || !HasUrl(v) then NoSession
    else if hlsSupported then Hls(v.videoUrl.value, active, 0, 0, false)
    else if canPlayNativeHls then NativeSource(v.videoUrl.value)
    else NoSession
  }

  /** No streaming session exists for a video without a URL. */
  lemma NoUrlNoSession(v: Video, active: bool, hlsSupported: bool, canPlayNativeHls: bool)
    requires !HasUrl(v)
    ensures MountSession(v, active, hlsSupported, canPlayNativeHls) == NoSession
  {
  }

  class Player {
    const video: Video
    /** The `isActive` prop. */
    var isActive: bool
    var isPlaying: bool
    var isMuted: bool
    /** Whether the <video> element is playing and muted. */
    var elementPlaying: bool
    var elementMuted: bool
    var session: Session

    /** `videoRef.current` is set: the element is rendered. */
    predicate MediaMounted()
      reads this
    {
      RenderedView(video) == PlayerView
    }

    /** The element's `play` and `pause` events keep `isPlaying` in step with it. */
    ghost predicate Valid()
      reads this
    {
      && isPlaying == elementPlaying
      && isMuted == elementMuted
      && (!MediaMounted() ==> session == NoSession && !isPlaying && !isMuted)
      && (session.Hls? ==> Some(session.source) == video.videoUrl)
    }

    /** Mounting runs the HLS effect and then the `isActive` effect. */
    constructor Mount(v: Video, active: bool, hlsSupported: bool, canPlayNativeHls: bool)
      ensures Valid()
      ensures video == v && isActive == active && !isMuted
      ensures session == MountSession(v, active, hlsSupported, canPlayNativeHls)
      ensures isPlaying == (RenderedView(v) == PlayerView && active)
    {
      video := v;
      isActive := active;
      isMuted, elementMuted := false, false;
      session := MountSession(v, active, hlsSupported, canPlayNativeHls);
      var playing := RenderedView(v) == PlayerView && active;
      isPlaying, elementPlaying := playing, playing;
    }

    /** A new `isActive` prop. The effect runs only when the value changes, and the
        HLS effect does not run again, so the captured autoplay flag stays. */
    method SetActive(active: bool)
      requires Valid()
      modifies this`isActive, this`isPlaying, this`elementPlaying
      ensures Valid() && isActive == active
      ensures isPlaying == if active != old(isActive) && MediaMounted() then active else old(isPlaying)
    {
      if active != isActive {
        isActive := active;
        if MediaMounted() {
          elementPlaying := active;
          isPlaying := active;
        }
      }
    }

    /** MANIFEST_PARSED: play if the tile was active when the session was created. */
    method OnManifestParsed()
      requires Valid() && Live(session)
      modifies this`isPlaying, this`elementPlaying
      ensures Valid()
      ensures isPlaying == (old(isPlaying) || session.autoplayOnManifest)
    {
      if session.autoplayOnManifest {
        elementPlaying := true;
        isPlaying := true;
      }
    }

    /** ERROR. */
    method OnError(e: ErrorData)
      requires Valid() && Live(session)
      modifies this`session
      ensures Valid()
      ensures session == Apply(old(session), RecoveryFor(e))
    {
      session := Apply(session, RecoveryFor(e));
    }

    /** Unmounting runs the HLS effect's cleanup. */
    method Unmount()
      requires Valid()
      modifies this`session
      ensures Valid() && session == Teardown(old(session)) && !Live(session)
    {
      session := Teardown(session);
    }

    /** `togglePlay`, the click on the element. */
    method TogglePlay()
      requires Valid()
      modifies this`isPlaying, this`elementPlaying
      ensures Valid()
      ensures isPlaying == if MediaMounted() then !old(isPlaying) else old(isPlaying)
    {
      if !MediaMounted() {
        return;
      }
      if isPlaying {
        elementPlaying := false;
        isPlaying := false;
      } else {
        elementPlaying := true;
        isPlaying := true;
      }
    }

    /** `toggleMute`. */
    method ToggleMute()
      requires Valid()
      modifies this`isMuted, this`elementMuted
      ensures Valid()
      ensures isMuted == if MediaMounted() then !old(isMuted) else old(isMuted)
    {
      if !MediaMounted() {
        return;
      }
      elementMuted := !isMuted;
      isMuted := !isMuted;
    }
  }

  /** Toggling play, or mute, twice restores the tile's state. */
  method ToggleTwiceRestores(p: Player)
    requires p.Valid()
    modifies p
    ensures p.Valid()
    ensures p.isPlaying == old(p.isPlaying) && p.isMuted == old(p.isMuted)
    ensures p.session == old(p.session) && p.isActive == old(p.isActive)
  {
    p.TogglePlay();
    p.TogglePlay();
    p.ToggleMute();
    p.ToggleMute();
  }

  /** The MANIFEST_PARSED handler reads the `isActive` captured at mount: a tile that
      was active when mounted and is scrolled away from before its manifest is parsed
      starts playing in the background, next to the newly active tile. */
  method StaleAutoplayScenario(first: Video, second: Video) returns (firstActive: bool, firstPlaying: bool, secondPlaying: bool)
    requires IsPlayable(first) && IsPlayable(second)
    ensures !firstActive && firstPlaying && secondPlaying
  {
    var a := new Player.Mount(first, true, true, false);
    var b := new Player.Mount(second, false, true, false);
    a.SetActive(false);
    b.SetActive(true);
    a.OnManifestParsed();
    firstActive, firstPlaying, secondPlaying := a.isActive, a.isPlaying, b.isPlaying;
  }
}
