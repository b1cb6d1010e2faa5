/** Waveform peaks for the seek bar: the first channel is cut into `samples`
    equal blocks, each block contributes its largest absolute sample, and the
    peaks are scaled so the loudest is 1. Decoding is done by the browser (or by
    WaveSurfer); its outcome is an input. */
module Waveform {
  import opened Common

  function Abs(x: real): (r: real)
    ensures r >= 0.0 && (r == x || r == -x)
  {
    if x < 0.0 then -x else x
  }

  /** The largest `|data[j]|` over `lo <= j < hi` and `j < |data|`; 0 for an empty range. */
  function BlockPeak(data: seq<real>, lo: nat, hi: nat): (r: real)
    ensures r >= 0.0
    decreases hi
  {
    if hi <= lo then 0.0
    else if hi - 1 >= |data| then BlockPeak(data, lo, hi - 1)
    else MaxReal(BlockPeak(data, lo, hi - 1), Abs(data[hi - 1]))
  }

  /** A block's peak bounds every absolute sample in the block and is one of
      them, unless it is 0. */
  lemma {:induction false} BlockPeakIsMax(data: seq<real>, lo: nat, hi: nat)
    ensures forall j :: lo <= j < hi && j < |data| ==> Abs(data[j]) <= BlockPeak(data, lo, hi)
    ensures BlockPeak(data, lo, hi) == 0.0
      || exists j :: lo <= j < hi && j < |data| && BlockPeak(data, lo, hi) == Abs(data[j])
    decreases hi
  {
    if hi > lo {
      BlockPeakIsMax(data, lo, hi - 1);
    }
  }

  /** Past the end of the data, widening a block changes nothing. */
  lemma {:induction false} BlockPeakBeyond(data: seq<real>, lo: nat, mid: nat, hi: nat)
    requires |data| <= mid <= hi
    ensures BlockPeak(data, lo, hi) == BlockPeak(data, lo, mid)
    decreases hi
  {
    if hi > mid {
      BlockPeakBeyond(data, lo, mid, hi - 1);
    }
  }

  /** `Math.floor(len / samples)`; with no samples the loop never runs, so its value is moot. */
  function BlockSize(len: nat, samples: nat): nat {
    if samples == 0 then 0 else len / samples
  }

  /** The raw peak of every block. */
  function RawPeaks(data: seq<real>, samples: nat): (r: seq<real>)
    ensures |r| == samples
    ensures forall i :: 0 <= i < samples ==> r[i] >= 0.0
  {
    var bs := BlockSize(|data|, samples);
    seq(samples, i requires 0 <= i < samples => BlockPeak(data, i * bs, i * bs + bs))
  }

  /** The larger of 0 and every peak. On non-negative peaks this is `Math.max(...peaks)`
      whenever that is positive, which is the only way the source uses it. */
  function PeakMax(s: seq<real>): (m: real)
    ensures m >= 0.0
  {
    if s == [] then 0.0 else MaxReal(s[0], PeakMax(s[1..]))
  }

  /** `PeakMax` bounds every peak and is one of them, unless it is 0. */
  lemma {:induction false} PeakMaxIsMax(s: seq<real>)
    ensures forall k :: 0 <= k < |s| ==> s[k] <= PeakMax(s)
    ensures PeakMax(s) == 0.0 || exists k :: 0 <= k < |s| && s[k] == PeakMax(s)
  {
    if s != [] {
      PeakMaxIsMax(s[1..]);
      assert forall k :: 1 <= k < |s| ==> s[k] == s[1..][k - 1];
    }
  }

  /** Scales the peaks by the largest one, or leaves them be when all are 0. */
  function Normalize(peaks: seq<real>): (r: seq<real>)
    requires forall k :: 0 <= k < |peaks| ==> peaks[k] >= 0.0
    ensures |r| == |peaks|
    ensures PeakMax(peaks) == 0.0 ==> r == peaks
    ensures PeakMax(peaks) > 0.0 ==> forall k :: 0 <= k < |r| ==> 0.0 <= r[k] <= 1.0
    ensures PeakMax(peaks) > 0.0 ==> exists k :: 0 <= k < |r| && r[k] == 1.0
    ensures PeakMax(peaks) > 0.0 ==> forall k :: 0 <= k < |r| ==> (r[k] == 0.0 <==> peaks[k] == 0.0)
    ensures PeakMax(peaks) > 0.0 ==> ScaledBy(r, peaks, PeakMax(peaks))
  {
    var m := PeakMax(peaks);
    PeakMaxIsMax(peaks);
    if m > 0.0 then
      var r := Scale(peaks, m);
      var w :| 0 <= w < |peaks| && peaks[w] == m;
      assert r[w] == 1.0;
      r
    else peaks
  }

  /** `r` times `m` gives back `peaks`, position by position. */
  predicate ScaledBy(r: seq<real>, peaks: seq<real>, m: real) {
    |r| == |peaks| && forall k :: 0 <= k < |r| ==> r[k] * m == peaks[k]
  }

  /** Every peak divided by `m`, a bound of them all. */
  function Scale(peaks: seq<real>, m: real): (r: seq<real>)
    requires m > 0.0 && forall k :: 0 <= k < |peaks| ==> 0.0 <= peaks[k] <= m
    ensures |r| == |peaks|
    ensures forall k :: 0 <= k < |r| ==> 0.0 <= r[k] <= 1.0 && (r[k] == 0.0 <==> peaks[k] == 0.0)
    ensures ScaledBy(r, peaks, m)
    ensures forall k :: 0 <= k < |r| && peaks[k] == m ==> r[k] == 1.0
  {
    var r := seq(|peaks|, k requires 0 <= k < |peaks| => peaks[k] / m);
    forall k | 0 <= k < |peaks|
      ensures 0.0 <= r[k] <= 1.0 && (r[k] == 0.0 <==> peaks[k] == 0.0)
      ensures r[k] * m == peaks[k]
      ensures peaks[k] == m ==> r[k] == 1.0
    {
      DivUnit(peaks[k], m);
    }
    r
  }

  lemma DivUnit(p: real, m: real)
    requires 0.0 <= p <= m && m > 0.0
    ensures 0.0 <= p / m <= 1.0
    ensures p / m == 0.0 <==> p == 0.0
    ensures p == m ==> p / m == 1.0
    ensures (p / m) * m == p
  {
  }

  /** The two nested loops. */
  method ComputePeaks(data: seq<real>, samples: nat) returns (peaks: seq<real>)
    ensures peaks == RawPeaks(data, samples)
  {
    var len := |data|;
    var blockSize := BlockSize(len, samples);
    ghost var spec := RawPeaks(data, samples);
    peaks := [];
    var i := 0;
    while i < samples
      invariant 0 <= i <= samples
      invariant peaks == spec[..i]
    {
      var start := i * blockSize;
      var end := start + blockSize;
      var max := 0.0;
      var j := start;
      while j < end && j < len
        invariant start <= j <= end
        invariant max == BlockPeak(data, start, j)
      {
        max := MaxReal(max, Abs(data[j]));
        j := j + 1;
      }
      if j < end {
        BlockPeakBeyond(data, start, j, end);
      }
      assert max == spec[i];
      peaks := peaks + [max];
      i := i + 1;
    }
  }

  datatype WaveformError = FailedToReadAudioFile | DecodeError | FailedToDecodeAudio | WaveSurferError

  datatype WaveformResult = Peaks(values: seq<real>) | Rejected(error: WaveformError)

  /** The outcome of reading and decoding the uploaded file: the reader's error,
      a decoding error, or the first channel of the decoded buffer. */
  datatype FileDecode = ReadFailed | DecodeFailed | FileDecoded(channel0: seq<real>)

  /** What the temporary WaveSurfer instance reports: an error, ready without
      decoded data, or ready with its first channel. */
  datatype WaveSurferLoad = LoadError | ReadyWithoutData | ReadyWithData(channel0: seq<real>)

  /** The specified result for one channel. */
  function WaveformOf(channel0: seq<real>, samples: nat): seq<real> {
    Normalize(RawPeaks(channel0, samples))
  }

  method GenerateWaveformPeaks(file: FileDecode, samples: nat) returns (r: WaveformResult)
    ensures file.ReadFailed? ==> r == Rejected(FailedToReadAudioFile)
    ensures file.DecodeFailed? ==> r == Rejected(DecodeError)
    ensures file.FileDecoded? ==> r == Peaks(WaveformOf(file.channel0, samples))
  {
    match file {
      case ReadFailed =>
        r := Rejected(FailedToReadAudioFile);
      case DecodeFailed =>
        r := Rejected(DecodeError);
      case FileDecoded(channel) =>
        var raw := ComputePeaks(channel, samples);
        r := Peaks(Normalize(raw));
    }
  }

  method GenerateWaveformWithWaveSurfer(load: WaveSurferLoad, samples: nat) returns (r: WaveformResult)
    ensures load.LoadError? ==> r == Rejected(WaveSurferError)
    ensures load.ReadyWithoutData? ==> r == Rejected(FailedToDecodeAudio)
    ensures load.ReadyWithData? ==> r == Peaks(WaveformOf(load.channel0, samples))
  {
    match load {
      case LoadError =>
        r := Rejected(WaveSurferError);
      case ReadyWithoutData =>
        r := Rejected(FailedToDecodeAudio);
      case ReadyWithData(channel) =>
        var raw := ComputePeaks(channel, samples);
        r := Peaks(Normalize(raw));
    }
  }

  /** Every block lies inside the data: blocks never overlap and the samples
      past `samples * blockSize` belong to none of them. */
  lemma BlocksInside(len: nat, samples: nat, i: nat)
    requires i < samples
    ensures i * BlockSize(len, samples) + BlockSize(len, samples) <= samples * BlockSize(len, samples) <= len
  {
    var bs := BlockSize(len, samples);
    assert i * bs + bs == (i + 1) * bs;
    assert (i + 1) * bs <= samples * bs by {
      MulMono(i + 1, samples, bs);
    }
    assert samples * bs <= len;
  }

  lemma MulMono(a: nat, b: nat, c: nat)
    requires a <= b
    ensures a * c <= b * c
  {
  }

  /** A silent channel, or one shorter than `samples`, yields all-zero peaks unchanged. */
  lemma QuietWaveform(data: seq<real>, samples: nat)
    requires |data| < samples || forall j :: 0 <= j < |data| ==> data[j] == 0.0
    ensures WaveformOf(data, samples) == seq(samples, i => 0.0)
  {
    var raw := RawPeaks(data, samples);
    var bs := BlockSize(|data|, samples);
    forall i | 0 <= i < samples
      ensures raw[i] == 0.0
    {
      if |data| < samples {
        assert bs == 0;
        assert raw[i] == BlockPeak(data, i * bs, i * bs);
      } else {
        SilentBlock(data, i * bs, i * bs + bs);
      }
    }
    ZeroPeakMax(raw);
    assert raw == seq(samples, i => 0.0);
  }

  /** A block of a silent channel peaks at 0. */
  lemma {:induction false} SilentBlock(data: seq<real>, lo: nat, hi: nat)
    requires forall j :: 0 <= j < |data| ==> data[j] == 0.0
    ensures BlockPeak(data, lo, hi) == 0.0
    decreases hi
  {
    if hi > lo {
      SilentBlock(data, lo, hi - 1);
    }
  }

  /** All-zero peaks have maximum 0. */
  lemma {:induction false} ZeroPeakMax(s: seq<real>)
    requires forall k :: 0 <= k < |s| ==> s[k] == 0.0
    ensures PeakMax(s) == 0.0
  {
    if s != [] {
      assert forall k :: 0 <= k < |s[1..]| ==> s[1..][k] == s[k + 1];
      ZeroPeakMax(s[1..]);
    }
  }
}
