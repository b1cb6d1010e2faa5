/** The single audio graph behind playback and visualisation: a media element
    feeding a source node, an analyser and a gain node into the context's
    destination. Browser objects are abstract values here; what the manager
    does with them (create, wire, null out) is modelled exactly. The outcome of
    loading the element (ready, timed out, failed) is an input. */
module AudioGraph {
  import opened Common

  datatype ContextState = Running | Suspended | Closed

  datatype AudioContext = AudioContext(state: ContextState)

  /** The media element: its source URL, playhead, duration (`None` while it is
      NaN), paused flag and the (event, handler) pairs registered on it. */
  datatype MediaElement = MediaElement(
    src: string,
    currentTime: real,
    duration: Option<real>,
    paused: bool,
    listeners: set<(string, nat)>)

  datatype AnalyserNode = AnalyserNode(
    fftSize: nat,
    smoothingTimeConstant: real,
    minDecibels: real,
    maxDecibels: real)

  datatype Endpoint = SourceEnd | AnalyserEnd | GainEnd | DestinationEnd

  /** How loading ends: `canplaythrough` with the element's duration, the 10 s
      timeout, or the element's `error` event. */
  datatype LoadOutcome = CanPlayThrough(duration: Option<real>) | LoadTimeout | ElementError

  datatype Failure = AudioLoadTimeout | MediaError | NotInitialized | PlaybackRejected

  datatype Outcome = Done | Failed(failure: Failure)

  const FftSize: nat := 512
  const Smoothing: real := 0.3
  const MinDecibels: real := -90.0
  const MaxDecibels: real := -10.0

  function ConfiguredAnalyser(): AnalyserNode {
    AnalyserNode(FftSize, Smoothing, MinDecibels, MaxDecibels)
  }

  /** source → analyser → gain → destination. */
  function FullWiring(): set<(Endpoint, Endpoint)> {
    {(SourceEnd, AnalyserEnd), (AnalyserEnd, GainEnd), (GainEnd, DestinationEnd)}
  }

  /** The manager's fields as one value. */
  datatype Manager = Manager(
    context: Option<AudioContext>,
    element: Option<MediaElement>,
    hasSource: bool,
    analyser: Option<AnalyserNode>,
    gain: Option<real>,
    wiring: set<(Endpoint, Endpoint)>,
    isInitialized: bool,
    currentUrl: Option<string>)

  function Uninitialized(): Manager {
    Manager(None, None, false, None, None, {}, false, None)
  }

  /** Either nothing exists, or the whole graph exists and is wired; the gain is in [0, 1]. */
  predicate WellFormed(m: Manager) {
    (m == Uninitialized() ||
     (m.context.Some? && m.element.Some? && m.hasSource && m.analyser.Some? && m.gain.Some?
      && m.wiring == FullWiring() && m.isInitialized && m.currentUrl.Some?
      && m.element.value.src == m.currentUrl.value && m.analyser == Some(ConfiguredAnalyser())))
    && (m.gain.Some? ==> 0.0 <= m.gain.value <= 1.0)
  }

  /** `cleanup`: every resource is released and both flags reset. */
  function CleanupSpec(m: Manager): (r: Manager)
    ensures WellFormed(r) && !r.isInitialized
  {
    Uninitialized()
  }

  /** `initialize(url)` after `cleanup`, given how loading ends. */
  function InitializeSpec(m: Manager, url: string, load: LoadOutcome): (r: Manager)
    ensures WellFormed(r)
    ensures r.isInitialized <==> load.CanPlayThrough?
    ensures load.CanPlayThrough? ==>
      (r.currentUrl == Some(url) && r.element.Some?
       && r.element.value.currentTime == 0.0 && r.element.value.duration == load.duration
       && r.element.value.listeners == {})
  {
    match load
    case CanPlayThrough(d) =>
      Manager(Some(AudioContext(Running)),
              Some(MediaElement(url, 0.0, d, true, {})),
              true, Some(ConfiguredAnalyser()), Some(1.0), FullWiring(), true, Some(url))
    case _ => CleanupSpec(m)
  }

  function InitializeResult(load: LoadOutcome): (r: Outcome)
    ensures r.Done? <==> load.CanPlayThrough?
  {
    match load
    case CanPlayThrough(_) => Done
    case LoadTimeout => Failed(AudioLoadTimeout)
    case ElementError => Failed(MediaError)
  }

  /** Cleaning up twice is the same as once, and safe on a fresh manager. */
  lemma CleanupIdempotent(m: Manager)
    ensures CleanupSpec(CleanupSpec(m)) == CleanupSpec(m)
    ensures CleanupSpec(Uninitialized()) == Uninitialized()
  {
  }

  /** What existed before `initialize` makes no difference: the old graph is
      torn down first, so at most one graph exists at a time. */
  lemma InitializeForgetsPast(m: Manager, m': Manager, url: string, load: LoadOutcome)
    ensures InitializeSpec(m, url, load) == InitializeSpec(m', url, load)
  {
  }

  /** A successful load leaves the full graph with gain 1 and the URL recorded;
      a failed one leaves nothing, not even the URL. */
  lemma InitializeEffect(m: Manager, url: string, load: LoadOutcome)
    ensures WellFormed(InitializeSpec(m, url, load))
    ensures load.CanPlayThrough? ==>
      var r := InitializeSpec(m, url, load);
      r.isInitialized && r.currentUrl == Some(url) && r.gain == Some(1.0)
      && r.wiring == FullWiring() && r.analyser == Some(ConfiguredAnalyser())
      && r.element.Some? && r.element.value.paused
    ensures !load.CanPlayThrough? ==> InitializeSpec(m, url, load) == Uninitialized()
  {
  }

  class AudioManager {
    var context: Option<AudioContext>
    var element: Option<MediaElement>
    var hasSource: bool
    var analyser: Option<AnalyserNode>
    var gain: Option<real>
    var wiring: set<(Endpoint, Endpoint)>
    var isInitialized: bool
    var currentUrl: Option<string>

    function Snapshot(): Manager
      reads this
    {
      Manager(context, element, hasSource, analyser, gain, wiring, isInitialized, currentUrl)
    }

    ghost predicate Valid()
      reads this
    {
      WellFormed(Snapshot())
    }

    constructor ()
      ensures Valid() && Snapshot() == Uninitialized()
    {
      context, element, hasSource, analyser, gain := None, None, false, None, None;
      wiring, isInitialized, currentUrl := {}, false, None;
    }

    method Cleanup()
      modifies this
      ensures Valid() && Snapshot() == CleanupSpec(old(Snapshot()))
    {
      if element.Some? {
        // pause, drop the source and reload, then forget the element
        element := None;
      }
      if hasSource {
        hasSource := false;
      }
      if analyser.Some? {
        analyser := None;
      }
      if gain.Some? {
        gain := None;
      }
      wiring := {};
      context := None;
      isInitialized := false;
      currentUrl := None;
    }

    /** `suspended` says whether the new context starts suspended (it is then resumed). */
    method Initialize(url: string, suspended: bool, load: LoadOutcome) returns (r: Outcome)
      modifies this
      ensures Valid() && Snapshot() == InitializeSpec(old(Snapshot()), url, load)
      ensures r == InitializeResult(load)
    {
      Cleanup();
      currentUrl := Some(url);
      context := Some(AudioContext(if suspended then Suspended else Running));
      if suspended {
        context := Some(AudioContext(Running));
      }
      element := Some(MediaElement(url, 0.0, None, true, {}));
      match load {
        case CanPlayThrough(d) =>
          element := Some(element.value.(duration := d));
          analyser := Some(ConfiguredAnalyser());
          gain := Some(1.0);
          hasSource := true;
          wiring := {(SourceEnd, AnalyserEnd)};
          wiring := wiring + {(AnalyserEnd, GainEnd)};
          wiring := wiring + {(GainEnd, DestinationEnd)};
          isInitialized := true;
          r := Done;
        case LoadTimeout =>
          Cleanup();
          r := Failed(AudioLoadTimeout);
        case ElementError =>
          Cleanup();
          r := Failed(MediaError);
      }
    }

    function GetAnalyser(): (a: Option<AnalyserNode>)
      requires Valid()
      reads this
      ensures a.None? <==> !isInitialized
      ensures a.Some? ==> a.value.fftSize == FftSize
    {
      analyser
    }

    function GetAudioElement(): (e: Option<MediaElement>)
      requires Valid()
      reads this
      ensures e.None? <==> !isInitialized
    {
      element
    }

    function GetAudioContext(): (c: Option<AudioContext>)
      requires Valid()
      reads this
      ensures c.None? <==> !isInitialized
    {
      context
    }

    /** Refused without an element; otherwise the browser's autoplay decision
        (`allowed`) says whether playback starts. */
    method Play(allowed: bool) returns (r: Outcome)
      requires Valid()
      modifies this
      ensures Valid()
      ensures old(element).None? ==> r == Failed(NotInitialized) && Snapshot() == old(Snapshot())
      ensures old(element).Some? && allowed ==>
        r == Done && Snapshot() == old(Snapshot()).(element := Some(old(element).value.(paused := false)))
      ensures old(element).Some? && !allowed ==>
        r == Failed(PlaybackRejected) && Snapshot() == old(Snapshot())
    {
      if element.None? {
        return Failed(NotInitialized);
      }
      if allowed {
        element := Some(element.value.(paused := false));
        r := Done;
      } else {
        r := Failed(PlaybackRejected);
      }
    }

    method Pause()
      requires Valid()
      modifies this
      ensures Valid()
      ensures old(element).None? ==> Snapshot() == old(Snapshot())
      ensures old(element).Some? ==>
        Snapshot() == old(Snapshot()).(element := Some(old(element).value.(paused := true)))
    {
      if element.None? {
        return;
      }
      element := Some(element.value.(paused := true));
    }

    function IsPlaying(): (b: bool)
      requires Valid()
      reads this
      ensures b ==> isInitialized
      ensures b <==> element.Some? && !element.value.paused
    {
      if element.Some? then !element.value.paused else false
    }

    function GetCurrentTime(): (t: real)
      requires Valid()
      reads this
      ensures element.None? ==> t == 0.0
      ensures element.Some? ==> t == element.value.currentTime
    {
      if element.Some? then element.value.currentTime else 0.0
    }

    /** The element's duration when it is a non-zero number, otherwise 0. */
    function GetDuration(): (d: real)
      requires Valid()
      reads this
      ensures d == 0.0 <==> element.None? || element.value.duration.None? || element.value.duration.value == 0.0
      ensures d != 0.0 ==> element.Some? && element.value.duration == Some(d)
    {
      if element.Some? && element.value.duration.Some? && element.value.duration.value != 0.0
      then element.value.duration.value
      else 0.0
    }

    method SeekTo(time: real)
      requires Valid()
      modifies this
      ensures Valid()
      ensures old(element).None? ==> Snapshot() == old(Snapshot())
      ensures old(element).Some? ==>
        Snapshot() == old(Snapshot()).(element := Some(old(element).value.(currentTime := time)))
    {
      if element.None? {
        return;
      }
      element := Some(element.value.(currentTime := time));
    }

    /** Seeks to `progress` times the duration; nothing happens while the duration is unknown or 0. */
    method SeekToProgress(progress: real)
      requires Valid()
      modifies this
      ensures Valid()
      ensures old(GetDuration()) == 0.0 ==> Snapshot() == old(Snapshot())
      ensures old(GetDuration()) != 0.0 ==>
        element == Some(old(element).value.(currentTime := progress * old(element).value.duration.value))
        && Snapshot() == old(Snapshot()).(element := element)
    {
      if element.None? || element.value.duration.None? || element.value.duration.value == 0.0 {
        return;
      }
      element := Some(element.value.(currentTime := progress * element.value.duration.value));
    }

    /** Stores the volume clamped to [0, 1]; without a gain node nothing happens. */
    method SetVolume(volume: real)
      requires Valid()
      modifies this
      ensures Valid()
      ensures old(gain).None? ==> Snapshot() == old(Snapshot())
      ensures old(gain).Some? ==> Snapshot() == old(Snapshot()).(gain := Some(Clamp(volume, 0.0, 1.0)))
    {
      if gain.None? {
        return;
      }
      gain := Some(MaxReal(0.0, MinReal(1.0, volume)));
    }

    function GetVolume(): (v: real)
      requires Valid()
      reads this
      ensures 0.0 <= v <= 1.0
      ensures gain.None? ==> v == 1.0
      ensures gain.Some? ==> v == gain.value
    {
      if gain.Some? then gain.value else 1.0
    }

    method AddEventListener(event: string, handler: nat)
      requires Valid()
      modifies this
      ensures Valid()
      ensures old(element).None? ==> Snapshot() == old(Snapshot())
      ensures old(element).Some? ==> Snapshot() == old(Snapshot()).(element :=
        Some(old(element).value.(listeners := old(element).value.listeners + {(event, handler)})))
    {
      if element.None? {
        return;
      }
      element := Some(element.value.(listeners := element.value.listeners + {(event, handler)}));
    }

    method RemoveEventListener(event: string, handler: nat)
      requires Valid()
      modifies this
      ensures Valid()
      ensures old(element).None? ==> Snapshot() == old(Snapshot())
      ensures old(element).Some? ==> Snapshot() == old(Snapshot()).(element :=
        Some(old(element).value.(listeners := old(element).value.listeners - {(event, handler)})))
    {
      if element.None? {
        return;
      }
      element := Some(element.value.(listeners := element.value.listeners - {(event, handler)}));
    }

    function GetInitialized(): (b: bool)
      requires Valid()
      reads this
      ensures b <==> element.Some? && analyser.Some? && gain.Some? && context.Some? && hasSource
    {
      isInitialized
    }

    function GetCurrentUrl(): (u: Option<string>)
      requires Valid()
      reads this
      ensures u.Some? <==> isInitialized
      ensures u.Some? ==> element.Some? && element.value.src == u.value
    {
      currentUrl
    }
  }
}
