/** Beat detection over the analyser's byte spectrum, and the analyser's
    lifecycle (initialize, start the frame loop, stop, clean up). The browser's
    spectrum for each frame and the id `requestAnimationFrame` hands back are
    inputs; each analysed frame reports which callbacks fired and with what. */
module FrequencyAnalysis {
  import opened Common

  newtype byte = x: int | 0 <= x < 256

  /** Web Audio's `frequencyBinCount` is half an FFT size in [32, 32768]. */
  type BinCount = n: nat | 16 <= n <= 16384 witness 16

  /** `requestAnimationFrame` ids are positive. */
  type FrameId = n: nat | n > 0 witness 1

  const KickBins: nat := 8
  const SnareEnd: nat := 20
  const BeatThreshold: real := 0.05
  const BeatGain: real := 3.0

  function MaxOf(s: seq<byte>): (m: byte)
    requires |s| > 0
    ensures m in s
    ensures forall i :: 0 <= i < |s| ==> s[i] <= m
  {
    if |s| == 1 then s[0]
    else
      var m := MaxOf(s[1..]);
      if s[0] >= m then s[0] else m
  }

  function Sum(s: seq<byte>): (t: nat)
    ensures t <= 255 * |s|
  {
    if s == [] then 0 else s[0] as nat + Sum(s[1..])
  }

  /** The kick peak: the loudest of the first eight bins, scaled to [0, 1]. */
  function KickIntensity(d: seq<byte>): (r: real)
    requires |d| >= 16
    ensures 0.0 <= r <= 1.0
    ensures forall i :: 0 <= i < KickBins ==> d[i] as real <= 255.0 * r
    ensures exists i :: 0 <= i < KickBins && d[i] as real == 255.0 * r
  {
    var band := d[..KickBins];
    assert forall i :: 0 <= i < KickBins ==> d[i] == band[i];
    MaxOf(band) as real / 255.0
  }

  /** The snare peak: the loudest of bins 8 to 19, scaled to [0, 1]. */
  function SnareIntensity(d: seq<byte>): (r: real)
    requires |d| >= 16
    ensures 0.0 <= r <= 1.0
    ensures forall i :: KickBins <= i < MinInt(SnareEnd, |d|) ==> d[i] as real <= 255.0 * r
    ensures exists i :: KickBins <= i < MinInt(SnareEnd, |d|) && d[i] as real == 255.0 * r
  {
    var band := d[KickBins..MinInt(SnareEnd, |d|)];
    assert forall i :: KickBins <= i < MinInt(SnareEnd, |d|) ==> d[i] == band[i - KickBins];
    MaxOf(band) as real / 255.0
  }

  /** The mean of the first eight bins, scaled to [0, 1]. */
  function KickAverage(d: seq<byte>): (r: real)
    requires |d| >= 16
    ensures 0.0 <= r <= 1.0
  {
    Sum(d[..KickBins]) as real / KickBins as real / 255.0
  }

  /** The mean of all bins, scaled to [0, 1]. */
  function TotalEnergy(d: seq<byte>): (r: real)
    requires |d| >= 16
    ensures 0.0 <= r <= 1.0
  {
    Sum(d) as real / |d| as real / 255.0
  }

  /** The strongest of the kick peak, the boosted kick average, the damped snare
      peak and half the mean energy. */
  function OverallIntensity(d: seq<byte>): (o: real)
    requires |d| >= 16
    ensures o >= KickIntensity(d) && o >= 1.8 * KickAverage(d)
    ensures o >= 0.7 * SnareIntensity(d) && o >= 0.5 * TotalEnergy(d)
    ensures o == KickIntensity(d) || o == 1.8 * KickAverage(d)
         || o == 0.7 * SnareIntensity(d) || o == 0.5 * TotalEnergy(d)
  {
    MaxReal(MaxReal(KickIntensity(d), 1.8 * KickAverage(d)),
            MaxReal(0.7 * SnareIntensity(d), 0.5 * TotalEnergy(d)))
  }

  /** The intensity passed to the beat callback, present only above the threshold. */
  function BeatIntensity(d: seq<byte>): (r: Option<real>)
    requires |d| >= 16
    ensures r.Some? <==> OverallIntensity(d) > BeatThreshold
    ensures r.Some? ==> 0.15 < r.value <= 1.0
    ensures r.Some? ==> r.value == MinReal(BeatGain * OverallIntensity(d), 1.0)
  {
    var o := OverallIntensity(d);
    if o > BeatThreshold then Some(MinReal(o * BeatGain, 1.0)) else None
  }

  lemma {:induction false} ZeroSum(s: seq<byte>)
    requires forall i :: 0 <= i < |s| ==> s[i] == 0
    ensures Sum(s) == 0
  {
    if s != [] {
      ZeroSum(s[1..]);
    }
  }

  /** Silence: every measure is zero and the beat callback is not called. */
  lemma SilenceHasNoBeat(d: seq<byte>)
    requires |d| >= 16
    requires forall i :: 0 <= i < |d| ==> d[i] == 0
    ensures OverallIntensity(d) == 0.0
    ensures BeatIntensity(d).None?
  {
    ZeroSum(d[..KickBins]);
    ZeroSum(d);
    var k := MaxOf(d[..KickBins]);
    var sn := MaxOf(d[KickBins..MinInt(SnareEnd, |d|)]);
    assert k == 0 && sn == 0;
  }

  /** One kick bin above 12 of 255 is enough for a beat. */
  lemma LoudKickBeats(d: seq<byte>, i: nat)
    requires |d| >= 16 && i < KickBins && d[i] > 12
    ensures BeatIntensity(d).Some?
  {
    assert d[..KickBins][i] == d[i];
    assert MaxOf(d[..KickBins]) >= 13;
  }

  /** What one analysed frame delivers: the spectrum to the frequency callback
      and the intensity to the beat callback, each when registered. */
  datatype Frame = Frame(frequencyData: Option<seq<byte>>, beat: Option<real>)

  function AnalyzeFrame(d: seq<byte>, hasBeatCallback: bool, hasFrequencyCallback: bool): (f: Frame)
    requires |d| >= 16
    ensures f.frequencyData.Some? <==> hasFrequencyCallback
    ensures f.frequencyData.Some? ==> f.frequencyData.value == d
    ensures f.beat.Some? <==> hasBeatCallback && OverallIntensity(d) > BeatThreshold
    ensures hasBeatCallback ==> f.beat == BeatIntensity(d)
  {
    Frame(if hasFrequencyCallback then Some(d) else None,
          if hasBeatCallback then BeatIntensity(d) else None)
  }

  /** What `initialize` may be handed. */
  datatype AnalyserArg = NullArg | NotAnAnalyser | Analyser(frequencyBinCount: BinCount)

  datatype InitError = InvalidAnalyserNode

  class AudioAnalyzer {
    var bins: Option<BinCount>
    var dataArray: array?<byte>
    var animationFrameId: Option<FrameId>
    var onBeatDetected: bool
    var onFrequencyData: bool

    /** The buffer exists exactly while an analyser is held, one byte per bin. */
    ghost predicate Valid()
      reads this
    {
      (bins.Some? <==> dataArray != null)
      && (dataArray != null ==> dataArray.Length == bins.value)
    }

    constructor ()
      ensures Valid() && bins.None? && dataArray == null && animationFrameId.None?
      ensures !onBeatDetected && !onFrequencyData
    {
      bins, dataArray, animationFrameId := None, null, None;
      onBeatDetected, onFrequencyData := false, false;
    }

    /** Rejects anything but an analyser node; otherwise allocates a zeroed buffer of its bin count. */
    method Initialize(arg: AnalyserArg) returns (r: Option<InitError>)
      requires Valid()
      modifies this
      ensures Valid()
      ensures !arg.Analyser? ==> r == Some(InvalidAnalyserNode) && bins == old(bins) && dataArray == old(dataArray)
      ensures arg.Analyser? ==> r.None? && bins == Some(arg.frequencyBinCount) && fresh(dataArray)
      ensures arg.Analyser? ==> forall i :: 0 <= i < dataArray.Length ==> dataArray[i] == 0
      ensures animationFrameId == old(animationFrameId)
      ensures onBeatDetected == old(onBeatDetected) && onFrequencyData == old(onFrequencyData)
    {
      if !arg.Analyser? {
        return Some(InvalidAnalyserNode);
      }
      bins := Some(arg.frequencyBinCount);
      dataArray := new byte[arg.frequencyBinCount](_ => 0);
      r := None;
    }

    /** One run of the `analyze` closure: refill the buffer, report, schedule the next frame. */
    method Analyze(spectrum: seq<byte>, next: FrameId) returns (f: Option<Frame>)
      requires Valid() && (dataArray != null ==> |spectrum| == dataArray.Length)
      modifies this, dataArray
      ensures Valid() && bins == old(bins) && dataArray == old(dataArray)
      ensures onBeatDetected == old(onBeatDetected) && onFrequencyData == old(onFrequencyData)
      ensures dataArray == null ==> f.None? && animationFrameId == old(animationFrameId)
      ensures dataArray != null ==>
        (dataArray[..] == spectrum && animationFrameId == Some(next)
         && f == Some(AnalyzeFrame(spectrum, onBeatDetected, onFrequencyData)))
    {
      if bins.None? || dataArray == null {
        return None;
      }
      CopyInto(dataArray, spectrum);
      f := Some(AnalyzeFrame(dataArray[..], onBeatDetected, onFrequencyData));
      animationFrameId := Some(next);
    }

    /** `start`: does nothing without an analyser; otherwise records the
        callbacks and analyses the first frame at once. */
    method Start(beatCallback: bool, frequencyCallback: bool, spectrum: seq<byte>, next: FrameId)
      returns (f: Option<Frame>)
      requires Valid() && (dataArray != null ==> |spectrum| == dataArray.Length)
      modifies this, dataArray
      ensures Valid() && bins == old(bins) && dataArray == old(dataArray)
      ensures dataArray == null ==>
        (f.None? && animationFrameId == old(animationFrameId)
         && onBeatDetected == old(onBeatDetected) && onFrequencyData == old(onFrequencyData))
      ensures dataArray != null ==>
        (onBeatDetected == beatCallback && onFrequencyData == frequencyCallback
         && dataArray[..] == spectrum && animationFrameId == Some(next)
         && f == Some(AnalyzeFrame(spectrum, beatCallback, frequencyCallback)))
    {
      if bins.None? || dataArray == null {
        return None;
      }
      onBeatDetected := beatCallback;
      onFrequencyData := frequencyCallback;
      f := Analyze(spectrum, next);
    }

    /** `stop`: cancel the pending frame (if any) and drop both callbacks. */
    method Stop()
      requires Valid()
      modifies this
      ensures Valid() && bins == old(bins) && dataArray == old(dataArray)
      ensures animationFrameId.None? && !onBeatDetected && !onFrequencyData
    {
      if animationFrameId.Some? {
        animationFrameId := None;
      }
      onBeatDetected := false;
      onFrequencyData := false;
    }

    /** Refills the buffer and returns it, or nothing after cleanup. */
    method GetFrequencyData(spectrum: seq<byte>) returns (d: Option<seq<byte>>)
      requires Valid() && (dataArray != null ==> |spectrum| == dataArray.Length)
      modifies dataArray
      ensures dataArray == null ==> d.None?
      ensures dataArray != null ==> d == Some(spectrum) && dataArray[..] == spectrum
    {
      if bins.None? || dataArray == null {
        return None;
      }
      CopyInto(dataArray, spectrum);
      d := Some(dataArray[..]);
    }

    /** `cleanup`: `stop`, then forget the analyser (its owner disconnects it) and the buffer. */
    method Cleanup()
      requires Valid()
      modifies this
      ensures Valid() && bins.None? && dataArray == null
      ensures animationFrameId.None? && !onBeatDetected && !onFrequencyData
    {
      Stop();
      bins := None;
      dataArray := null;
    }
  }

  /** `getByteFrequencyData`: the browser writes the spectrum into the buffer. */
  method CopyInto(a: array<byte>, spectrum: seq<byte>)
    requires |spectrum| == a.Length
    modifies a
    ensures a[..] == spectrum
  {
    var i := 0;
    while i < a.Length
      invariant 0 <= i <= a.Length
      invariant a[..i] == spectrum[..i]
    {
      a[i] := spectrum[i];
      i := i + 1;
    }
  }
}
