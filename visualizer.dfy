/** The two visual effects driven by the analyser: the body "beat shake"
    (a throttled CSS class that a timer removes again) and the full-screen
    background canvas (fading frame, frequency bars, bass circle, ambient glow).
    Clocks are inputs; drawing is reduced to the values each primitive is given. */
module Visualizer {
  import opened Common
  import opened FrequencyAnalysis

  // ----- beat shake -----

  const ThrottleMs: int := 30
  const ShakeThreshold: real := 0.05
  const ShakeMs: int := 120

  /** The component's refs and the body class: the time of the last accepted
      beat, whether `beat-shake` is on the body, when the pending removal timer
      fires, and whether an analyser is held. */
  datatype Shake = Shake(lastBeatTime: int, shaking: bool, removalDue: Option<int>, analyzerHeld: bool)

  function InitialShake(): Shake {
    Shake(0, false, None, false)
  }

  /** The beat callback at time `now`. */
  function OnBeatSpec(s: Shake, intensity: real, now: int): (r: Shake)
    ensures r.analyzerHeld == s.analyzerHeld && r.lastBeatTime >= s.lastBeatTime
    ensures r != s ==> r.lastBeatTime == now
    ensures r.shaking <==> s.shaking || (now - s.lastBeatTime > ThrottleMs && intensity > ShakeThreshold)
    ensures r.removalDue != s.removalDue ==> r.shaking && r.removalDue == Some(now + ShakeMs)
  {
    if now - s.lastBeatTime > ThrottleMs then
      if intensity > ShakeThreshold then
        s.(lastBeatTime := now, shaking := true, removalDue := Some(now + ShakeMs))
      else
        s.(lastBeatTime := now)
    else s
  }

  /** The removal timer, observed at time `now`. */
  function TimerSpec(s: Shake, now: int): (r: Shake)
    ensures r.lastBeatTime == s.lastBeatTime && r.analyzerHeld == s.analyzerHeld
    ensures s.removalDue.Some? && now >= s.removalDue.value ==> !r.shaking && r.removalDue.None?
    ensures !(s.removalDue.Some? && now >= s.removalDue.value) ==> r == s
  {
    if s.removalDue.Some? && now >= s.removalDue.value then s.(shaking := false, removalDue := None) else s
  }

  /** The effect's cleanup: release the analyser, cancel the timer, drop the class. */
  function TeardownSpec(s: Shake): (r: Shake)
    ensures !r.shaking && !r.analyzerHeld && r.removalDue.None? && r.lastBeatTime == s.lastBeatTime
  {
    s.(analyzerHeld := false, removalDue := None, shaking := false)
  }

  /** The effect body for new props (after the previous run's cleanup). */
  function EffectSpec(s: Shake, hasAnalyser: bool, isPlaying: bool): (r: Shake)
    ensures r.analyzerHeld <==> hasAnalyser && isPlaying
    ensures r.removalDue == s.removalDue && r.lastBeatTime == s.lastBeatTime
    ensures !r.analyzerHeld ==> !r.shaking
    ensures r.analyzerHeld ==> r.shaking == s.shaking
  {
    if !hasAnalyser || !isPlaying then s.(analyzerHeld := false, shaking := false)
    else s.(analyzerHeld := true)
  }

  function PropsChangedSpec(s: Shake, hasAnalyser: bool, isPlaying: bool): (r: Shake)
    ensures (!hasAnalyser || !isPlaying) ==> !r.shaking && !r.analyzerHeld && r.removalDue.None?
    ensures hasAnalyser && isPlaying ==> r.analyzerHeld && !r.shaking
    ensures r.lastBeatTime == s.lastBeatTime
  {
    EffectSpec(TeardownSpec(s), hasAnalyser, isPlaying)
  }

  /** Within 30 ms of the last accepted beat a beat changes nothing. */
  lemma BeatThrottled(s: Shake, intensity: real, now: int)
    requires now - s.lastBeatTime <= ThrottleMs
    ensures OnBeatSpec(s, intensity, now) == s
  {
  }

  /** An accepted beat moves the timestamp even when it is too weak to shake. */
  lemma QuietBeatStamps(s: Shake, intensity: real, now: int)
    requires now - s.lastBeatTime > ThrottleMs && intensity <= ShakeThreshold
    ensures OnBeatSpec(s, intensity, now) == s.(lastBeatTime := now)
  {
  }

  /** The shake class is switched on exactly by an accepted beat above the threshold. */
  lemma ShakeStartsOnBeat(s: Shake, intensity: real, now: int)
    requires !s.shaking
    ensures OnBeatSpec(s, intensity, now).shaking <==> (now - s.lastBeatTime > ThrottleMs && intensity > ShakeThreshold)
  {
  }

  /** The removal is due 120 ms after the latest strong beat: a second beat replaces the timer. */
  lemma LatestBeatWins(s: Shake, i1: real, t1: int, i2: real, t2: int)
    requires t1 - s.lastBeatTime > ThrottleMs && i1 > ShakeThreshold
    requires t2 - t1 > ThrottleMs && i2 > ShakeThreshold
    ensures OnBeatSpec(OnBeatSpec(s, i1, t1), i2, t2).removalDue == Some(t2 + ShakeMs)
    ensures OnBeatSpec(OnBeatSpec(s, i1, t1), i2, t2).shaking
  {
  }

  /** After a strong beat at `t`, the class stays on until `t + 120` and is gone then. */
  lemma ShakeDuration(s: Shake, intensity: real, t: int, now: int)
    requires t - s.lastBeatTime > ThrottleMs && intensity > ShakeThreshold && now >= t
    ensures TimerSpec(OnBeatSpec(s, intensity, t), now).shaking <==> now < t + ShakeMs
  {
  }

  class BeatShake {
    var lastBeatTime: int
    var shaking: bool
    var removalDue: Option<int>
    var analyzerHeld: bool

    function State(): Shake
      reads this
    {
      Shake(lastBeatTime, shaking, removalDue, analyzerHeld)
    }

    constructor ()
      ensures State() == InitialShake()
    {
      lastBeatTime, shaking, removalDue, analyzerHeld := 0, false, None, false;
    }

    method OnBeat(intensity: real, now: int)
      modifies this
      ensures State() == OnBeatSpec(old(State()), intensity, now)
    {
      if now - lastBeatTime > ThrottleMs {
        lastBeatTime := now;
        if intensity > ShakeThreshold {
          shaking := true;
          removalDue := Some(now + ShakeMs);
        }
      }
    }

    method TimerFires(now: int)
      modifies this
      ensures State() == TimerSpec(old(State()), now)
    {
      if removalDue.Some? && now >= removalDue.value {
        shaking := false;
        removalDue := None;
      }
    }

    method Teardown()
      modifies this
      ensures State() == TeardownSpec(old(State()))
    {
      analyzerHeld := false;
      removalDue := None;
      shaking := false;
    }

    /** `[analyser, isPlaying]` changed: run the old cleanup, then the effect. */
    method PropsChanged(hasAnalyser: bool, isPlaying: bool)
      modifies this
      ensures State() == PropsChangedSpec(old(State()), hasAnalyser, isPlaying)
    {
      Teardown();
      if !hasAnalyser || !isPlaying {
        analyzerHeld := false;
        shaking := false;
        return;
      }
      analyzerHeld := true;
    }
  }

  // ----- background canvas -----

  const MaxBars: nat := 128
  const MinBarHeight: real := 2.0

  /** `min(v / 255 * 3, 1)`. */
  function Boost(v: byte): (b: real)
    ensures 0.0 <= b <= 1.0
  {
    MinReal(v as real / 255.0 * 3.0, 1.0)
  }

  function BarCount(len: nat): (n: nat)
    ensures n <= MaxBars && n <= len
    ensures n == len || n == MaxBars
  {
    MinInt(len, MaxBars)
  }

  /** The rectangle and colour of one bar. */
  datatype Bar = Bar(index: nat, x: real, top: real, width: real, height: real, hue: real, lightness: real)

  /** The bar's hue, `240 + (i / n) * 120`: a shade from blue to magenta. */
  function Hue(i: nat, n: nat): (x: real)
    requires i < n
    ensures 240.0 <= x < 360.0
  {
    var q := i as real / n as real;
    assert q * n as real == i as real;
    240.0 + q * 120.0
  }

  /** The bar's lightness, `50 + boost * 30`. */
  function Lightness(v: byte): (x: real)
    ensures 50.0 <= x <= 80.0
  {
    50.0 + Boost(v) * 30.0
  }

  /** The bar's height in pixels, `boost * height`: never above the canvas. */
  function BarHeight(v: byte, height: nat): (h: real)
    ensures 0.0 <= h <= height as real
  {
    var b := Boost(v);
    ScaleBound(b, height as real);
    b * height as real
  }

  lemma ScaleBound(b: real, h: real)
    requires 0.0 <= b <= 1.0 && h >= 0.0
    ensures 0.0 <= b * h <= h
  {
  }

  /** A bin whose boosted bar reaches 2 px on a canvas `height` pixels high. */
  predicate Tall(v: byte, height: nat) {
    BarHeight(v, height) >= MinBarHeight
  }

  /** Bar `i` of `n` on a `width` × `height` canvas, or nothing when it would be under 2 px. */
  function BarFor(d: seq<byte>, i: nat, n: nat, width: nat, height: nat): (r: Option<Bar>)
    requires i < n <= |d|
    ensures r.Some? <==> Tall(d[i], height)
    ensures r.Some? ==> r.value.index == i
    ensures r.Some? ==> 240.0 <= r.value.hue < 360.0
    ensures r.Some? ==> MinBarHeight <= r.value.height <= height as real
    ensures r.Some? ==> r.value.top == height as real - r.value.height && r.value.top >= 0.0
    ensures r.Some? ==> 50.0 <= r.value.lightness <= 80.0 && r.value.width >= 1.0
  {
    var h := BarHeight(d[i], height);
    if h < MinBarHeight then None
    else
      var barWidth := width as real / n as real;
      Some(Bar(i, i as real * barWidth, height as real - h, MaxReal(barWidth - 1.0, 1.0), h,
               Hue(i, n), Lightness(d[i])))
  }

  /** The bars drawn for the first `k` bins, in order. */
  function DrawnBars(d: seq<byte>, n: nat, width: nat, height: nat, k: nat): (bars: seq<Bar>)
    requires k <= n <= |d|
    ensures |bars| <= k
    ensures forall j :: 0 <= j < |bars| ==> bars[j].index < k
    ensures forall j :: 0 <= j < |bars| ==> 240.0 <= bars[j].hue < 360.0
    ensures forall j :: 0 <= j < |bars| ==> MinBarHeight <= bars[j].height <= height as real
    ensures forall j :: 0 <= j < |bars| ==> Tall(d[bars[j].index], height)
  {
    if k == 0 then []
    else
      var prev := DrawnBars(d, n, width, height, k - 1);
      match BarFor(d, k - 1, n, width, height)
      case None => prev
      case Some(b) => prev + [b]
  }

  /** Every bin tall enough is drawn, in bin order. */
  lemma {:induction false} DrawnBarsComplete(d: seq<byte>, n: nat, width: nat, height: nat, k: nat, i: nat)
    requires k <= n <= |d| && i < k
    requires Tall(d[i], height)
    ensures exists j :: 0 <= j < |DrawnBars(d, n, width, height, k)| && DrawnBars(d, n, width, height, k)[j].index == i
  {
    var prev := DrawnBars(d, n, width, height, k - 1);
    var last := BarFor(d, k - 1, n, width, height);
    var bars := DrawnBars(d, n, width, height, k);
    assert bars == if last.Some? then prev + [last.value] else prev;
    if i == k - 1 {
      assert bars[|prev|].index == i;
    } else {
      DrawnBarsComplete(d, n, width, height, k - 1, i);
      var j :| 0 <= j < |prev| && prev[j].index == i;
      assert bars[j] == prev[j];
    }
  }

  /** A silent spectrum draws no bars. */
  lemma {:induction false} SilentNoBars(d: seq<byte>, n: nat, width: nat, height: nat, k: nat)
    requires k <= n <= |d|
    requires forall i :: 0 <= i < |d| ==> d[i] == 0
    ensures DrawnBars(d, n, width, height, k) == []
  {
    if k > 0 {
      SilentNoBars(d, n, width, height, k - 1);
    }
  }

  /** The bar loop. */
  method DrawBars(d: seq<byte>, width: nat, height: nat) returns (bars: seq<Bar>)
    ensures bars == DrawnBars(d, BarCount(|d|), width, height, BarCount(|d|))
  {
    var barCount := BarCount(|d|);
    bars := [];
    var i := 0;
    while i < barCount
      invariant 0 <= i <= barCount
      invariant bars == DrawnBars(d, barCount, width, height, i)
    {
      var bar := BarFor(d, i, barCount, width, height);
      if bar.None? {
        i := i + 1;
        continue;
      }
      bars := bars + [bar.value];
      i := i + 1;
    }
  }

  /** The radius of the bass circle, drawn only when the kick peak exceeds 0.03. */
  function BassCircle(d: seq<byte>): (radius: Option<real>)
    requires |d| >= 16
    ensures radius.Some? <==> KickIntensity(d) > 0.03
    ensures radius.Some? ==> 112.0 < radius.value <= 500.0
  {
    var bass := KickIntensity(d);
    if bass > 0.03 then Some(100.0 + bass * 400.0) else None
  }

  /** The sum of the first 32 bins over 32 and 255 (fewer bins still divide by 32). */
  function AvgEnergy(d: seq<byte>): (e: real)
    ensures 0.0 <= e <= 1.0
  {
    var firsts := d[..MinInt(32, |d|)];
    Sum(firsts) as real / 32.0 / 255.0
  }

  /** The ambient glow's centre alpha, drawn only when the energy exceeds 0.1. */
  function Glow(d: seq<byte>): (alpha: Option<real>)
    ensures alpha.Some? <==> AvgEnergy(d) > 0.1
    ensures alpha.Some? ==> 0.01 < alpha.value <= 0.1
  {
    var e := AvgEnergy(d);
    if e > 0.1 then Some(e * 0.1) else None
  }

  /** One frame of the canvas: a translucent fade, then bars, circle and glow. */
  datatype Drawing = Drawing(bars: seq<Bar>, circle: Option<real>, glow: Option<real>)

  /** `draw`: with no spectrum received yet only the next frame is requested. */
  method Draw(current: Option<seq<byte>>, width: nat, height: nat) returns (frame: Option<Drawing>)
    requires current.Some? ==> |current.value| >= 16
    ensures current.None? ==> frame.None?
    ensures current.Some? ==>
      frame == Some(Drawing(DrawnBars(current.value, BarCount(|current.value|), width, height, BarCount(|current.value|)),
                            BassCircle(current.value), Glow(current.value)))
  {
    if current.None? {
      return None;
    }
    var d := current.value;
    var bars := DrawBars(d, width, height);
    frame := Some(Drawing(bars, BassCircle(d), Glow(d)));
  }

  /** What the canvas shows between effect runs. */
  datatype CanvasMode = Untouched | StaticFill | Animated

  datatype Background = Background(analyzerHeld: bool, frameScheduled: bool, mode: CanvasMode)

  /** The cleanup of the previous run: cancel the frame loop, release the analyser. */
  function BackgroundTeardown(b: Background): (r: Background)
    ensures !r.frameScheduled && !r.analyzerHeld && r.mode == b.mode
  {
    b.(frameScheduled := false, analyzerHeld := false)
  }

  /** The effect body: no canvas releases the analyser; not playing or no
      analyser paints the static colour and stops; otherwise animate. */
  function BackgroundEffect(b: Background, hasCanvas: bool, hasAnalyser: bool, isPlaying: bool): (r: Background)
    ensures !hasCanvas ==> !r.analyzerHeld && r.frameScheduled == b.frameScheduled && r.mode == b.mode
    ensures hasCanvas ==> r.mode != Untouched && (r.mode == Animated <==> hasAnalyser && isPlaying)
    ensures hasCanvas ==> r.analyzerHeld == (r.mode == Animated) && r.frameScheduled == (r.mode == Animated)
  {
    if !hasCanvas then b.(analyzerHeld := false)
    else if !isPlaying || !hasAnalyser then b.(mode := StaticFill, analyzerHeld := false, frameScheduled := false)
    else b.(mode := Animated, analyzerHeld := true, frameScheduled := true)
  }

  /** With a canvas, the background animates exactly when it plays with an analyser,
      and a static background holds no analyser and no frame loop. */
  lemma BackgroundAnimatesWhenPlaying(b: Background, hasAnalyser: bool, isPlaying: bool)
    ensures BackgroundEffect(BackgroundTeardown(b), true, hasAnalyser, isPlaying).mode == Animated
            <==> hasAnalyser && isPlaying
    ensures BackgroundEffect(BackgroundTeardown(b), true, hasAnalyser, isPlaying).mode == StaticFill ==>
      (!BackgroundEffect(BackgroundTeardown(b), true, hasAnalyser, isPlaying).analyzerHeld
       && !BackgroundEffect(BackgroundTeardown(b), true, hasAnalyser, isPlaying).frameScheduled)
  {
  }
}
