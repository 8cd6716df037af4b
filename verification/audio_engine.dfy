/** The sample engine of services/audioEngine.ts: the id-keyed cache of
    decoded buffers, the parameters a playback voice is started with, and the
    level scan of `analyzeFeatures`.

    Fetching and decoding are the host's: their outcome is a parameter that
    the cache consults only on a miss. Samples are `real`s; the final
    `sqrt`, `log10` and `toFixed` are outside the model. For the peak it
    stops at the argument handed to `20 * log10(...)`; for the RMS level it
    stops at the square of that argument, since the RMS is carried as the
    mean square, before `sqrt`. */
module AudioEngine {
  import opened Wrappers

  /** A decoded sample: the samples of its first channel, its duration in
      seconds and its sample rate. */
  datatype AudioBuffer = AudioBuffer(channel0: seq<real>, duration: real, sampleRate: int)

  /** Why `loadSample` rejects: the fetch or the decode failed. */
  datatype LoadError = FetchFailed | DecodeFailed

  /** `buffers: Map<string, AudioBuffer>` */
  type Cache = map<string, AudioBuffer>

  /** `c'` keeps every entry of `c` as it was. */
  predicate Extends(c: Cache, c': Cache)
  {
    forall k :: k in c ==> k in c' && c'[k] == c[k]
  }

  /** The cache after the call, what the call resolves or rejects with, and
      whether it went to the network. */
  datatype LoadOutcome = LoadOutcome(cache: Cache, result: Result<AudioBuffer, LoadError>, fetched: bool)

  /** `loadSample(url, id)`. A hit returns the cached buffer and fetches
      nothing; a miss fetches and decodes (`decoded` is what that yields) and
      caches the buffer only once decoding succeeded. */
  function LoadSample(cache: Cache, id: string, decoded: Result<AudioBuffer, LoadError>): (r: LoadOutcome)
    ensures r.fetched <==> id !in cache
    ensures id in cache ==> r.cache == cache && r.result == Success(cache[id])
    ensures id !in cache && decoded.Success? ==>
              r.cache == cache[id := decoded.value] && r.result == decoded
    ensures id !in cache && decoded.Failure? ==> r.cache == cache && r.result == decoded
    ensures Extends(cache, r.cache)
  {
    if id in cache then LoadOutcome(cache, Success(cache[id]), false)
    else match decoded
      case Success(b) => LoadOutcome(cache[id := b], decoded, true)
      case Failure(_) => LoadOutcome(cache, decoded, true)
  }

  /** Once a load of `id` has succeeded, the next one returns the identical
      buffer without fetching, whatever the network would now deliver. */
  lemma SecondLoadHits(cache: Cache, id: string, first: Result<AudioBuffer, LoadError>,
                       second: Result<AudioBuffer, LoadError>)
    requires LoadSample(cache, id, first).result.Success?
    ensures var o1 := LoadSample(cache, id, first);
            var o2 := LoadSample(o1.cache, id, second);
            !o2.fetched && o2.result == o1.result && o2.cache == o1.cache
  {
  }

  /** One `loadSample` call of a sequence and the decode outcome it would meet. */
  datatype LoadRequest = LoadRequest(id: string, decoded: Result<AudioBuffer, LoadError>)

  /** The cache after a sequence of calls made one after another. */
  function LoadAll(cache: Cache, reqs: seq<LoadRequest>): (r: Cache)
    ensures Extends(cache, r)
    ensures forall k :: k in r ==> k in cache || exists i :: 0 <= i < |reqs| && reqs[i].id == k
    decreases |reqs|
  {
    if reqs == [] then cache
    else
      var next := LoadSample(cache, reqs[0].id, reqs[0].decoded).cache;
      var r := LoadAll(next, reqs[1..]);
      assert forall i :: 0 <= i < |reqs[1..]| ==> reqs[1..][i] == reqs[i + 1];
      r
  }

  /** A playback voice: the shared buffer, its playback rate and its gain. */
  datatype Voice = Voice(buffer: AudioBuffer, playbackRate: real, gain: real)

  /** `playBuffer(buffer, velocity = 1, pitch = 1)`: the rate is the pitch
      and the gain the velocity, each 1 when left out. */
  function PlayBuffer(buffer: AudioBuffer, velocity: Option<real>, pitch: Option<real>): (v: Voice)
    ensures v.buffer == buffer
    ensures velocity.None? ==> v.gain == 1.0
    ensures pitch.None? ==> v.playbackRate == 1.0
    ensures velocity.Some? ==> v.gain == velocity.value
    ensures pitch.Some? ==> v.playbackRate == pitch.value
  {
    Voice(buffer, pitch.GetOr(1.0), velocity.GetOr(1.0))
  }

  // ------------------------------------------------------------ level scan

  function Abs(x: real): real
  {
    if x < 0.0 then -x else x
  }

  /** The largest magnitude among `xs`, 0 when there is none. */
  function MaxAbs(xs: seq<real>): (m: real)
    ensures m >= 0.0
    ensures forall k :: 0 <= k < |xs| ==> Abs(xs[k]) <= m
    ensures m == 0.0 || exists k :: 0 <= k < |xs| && m == Abs(xs[k])
  {
    if xs == [] then 0.0
    else
      var m := MaxAbs(xs[..|xs| - 1]);
      var a := Abs(xs[|xs| - 1]);
      assert forall k :: 0 <= k < |xs| - 1 ==> xs[..|xs| - 1][k] == xs[k];
      if a > m then a else m
  }

  function Square(x: real): real
  {
    x * x
  }

  /** The sum of the squared samples. */
  function SumSquares(xs: seq<real>): real
  {
    if xs == [] then 0.0
    else SumSquares(xs[..|xs| - 1]) + Square(Abs(xs[|xs| - 1]))
  }

  predicate Silent(xs: seq<real>)
  {
    forall k :: 0 <= k < |xs| ==> xs[k] == 0.0
  }

  /** The sum of squares is never negative, and silence sums to zero. */
  lemma {:induction false} SumSquaresOfSilence(xs: seq<real>)
    ensures SumSquares(xs) >= 0.0
    ensures Silent(xs) ==> SumSquares(xs) == 0.0
  {
    if xs != [] {
      var init := xs[..|xs| - 1];
      SumSquaresOfSilence(init);
      assert forall k :: 0 <= k < |init| ==> init[k] == xs[k];
      var t := Abs(xs[|xs| - 1]);
      if t > 0.0 {
        SquarePositive(t);
      }
    }
  }

  /** Sound sums to a positive amount: one non-zero sample is enough. */
  lemma {:induction false} SumSquaresOfSound(xs: seq<real>)
    ensures !Silent(xs) ==> SumSquares(xs) > 0.0
  {
    if xs != [] {
      var init := xs[..|xs| - 1];
      SumSquaresOfSilence(init);
      SumSquaresOfSound(init);
      assert forall k :: 0 <= k < |init| ==> init[k] == xs[k];
      var t := Abs(xs[|xs| - 1]);
      if t > 0.0 {
        SquarePositive(t);
      } else if !Silent(xs) {
        assert xs[|xs| - 1] == 0.0 && Square(t) == 0.0;
        var k :| 0 <= k < |xs| && xs[k] != 0.0;
        assert init[k] != 0.0;
      }
    }
  }

  lemma SquarePositive(a: real)
    requires a > 0.0
    ensures Square(a) > 0.0
  {
    calc {
      Square(a);
    ==
      a * a;
    >
      0.0;
    }
  }

  /** What `20 * log10(...)` is applied to: the measured level or, when that
      level is zero (or NaN, for an empty channel), the floor 1e-6. */
  datatype LogArg = FloorArg | Level(x: real)

  const LevelFloor: real := 0.000001

  /** The argument `20 * log10` receives for the peak: the peak itself, or
      the floor. */
  function PeakArg(a: LogArg): real
  {
    match a
    case FloorArg => LevelFloor
    case Level(x) => x
  }

  /** The square of the argument `20 * log10` receives for the RMS level:
      the mean square, or the square of the floor, because the floor
      replaces the root and not the mean square. */
  function RmsArgSquared(a: LogArg): real
  {
    match a
    case FloorArg => LevelFloor * LevelFloor
    case Level(x) => x
  }

  /** The outcome of `analyzeFeatures`: the peak level, the RMS level carried
      as its square (the mean of the squared samples, before `sqrt`, which
      is zero exactly when its root is), the duration and the sample rate. */
  datatype Features = Features(peak: LogArg, meanSquare: LogArg, duration: real, sampleRate: int)

  /** The levels of a buffer, stated directly over its samples. */
  function FeaturesOf(b: AudioBuffer): Features
  {
    var xs := b.channel0;
    var peak := MaxAbs(xs);
    var ms := if |xs| == 0 || SumSquares(xs) == 0.0 then FloorArg
              else Level(SumSquares(xs) / |xs| as real);
    Features(if peak == 0.0 then FloorArg else Level(peak), ms, b.duration, b.sampleRate)
  }

  /** The loop of `analyzeFeatures`: one pass keeping the running peak and
      the running sum of squares. */
  method Scan(data: seq<real>) returns (peak: real, sumSq: real)
    ensures peak == MaxAbs(data)
    ensures sumSq == SumSquares(data)
  {
    peak := 0.0;
    sumSq := 0.0;
    var i := 0;
    while i < |data|
      invariant 0 <= i <= |data|
      invariant peak == MaxAbs(data[..i])
      invariant sumSq == SumSquares(data[..i])
    {
      var v := Abs(data[i]);
      SumStep(data, i);
      sumSq := sumSq + Square(v);
      PeakStep(data, i);
      if v > peak {
        peak := v;
      }
      i := i + 1;
    }
    assert data[..i] == data;
  }

  /** How the running peak moves when one more sample is taken in. */
  lemma PeakStep(data: seq<real>, i: nat)
    requires i < |data|
    ensures var v := Abs(data[i]);
            MaxAbs(data[..i + 1]) == (if v > MaxAbs(data[..i]) then v else MaxAbs(data[..i]))
  {
    var next := data[..i + 1];
    assert next[..|next| - 1] == data[..i] && next[|next| - 1] == data[i];
  }

  /** How the running sum of squares moves when one more sample is taken in. */
  lemma SumStep(data: seq<real>, i: nat)
    requires i < |data|
    ensures SumSquares(data[..i + 1]) == SumSquares(data[..i]) + Square(Abs(data[i]))
  {
    var next := data[..i + 1];
    assert next[..|next| - 1] == data[..i] && next[|next| - 1] == data[i];
  }

  /** `analyzeFeatures(buffer)`: the scan, then the zero-floor substitution
      (`rms || 1e-6`, `peak || 1e-6`). */
  method AnalyzeFeatures(b: AudioBuffer) returns (f: Features)
    ensures f == FeaturesOf(b)
  {
    var data := b.channel0;
    var peak, sumSq := Scan(data);
    var ms := if |data| == 0 || sumSq == 0.0 then FloorArg else Level(sumSq / |data| as real);
    f := Features(if peak == 0.0 then FloorArg else Level(peak), ms, b.duration, b.sampleRate);
  }

  /** The reported peak is the largest sample magnitude and is replaced by
      the floor exactly for a silent buffer; the mean square is the sum of
      squares over the length, replaced by the floor for an empty channel
      (where `0 / 0` is NaN) or a zero sum, which every silent buffer has. */
  lemma FeaturesOfLevels(b: AudioBuffer)
    ensures var f := FeaturesOf(b);
            && (f.peak.Level? ==>
                  && f.peak.x > 0.0
                  && (forall k :: 0 <= k < |b.channel0| ==> Abs(b.channel0[k]) <= f.peak.x)
                  && (exists k :: 0 <= k < |b.channel0| && f.peak.x == Abs(b.channel0[k])))
            && (f.peak == FloorArg <==> Silent(b.channel0))
            && (f.meanSquare == FloorArg <==> |b.channel0| == 0 || SumSquares(b.channel0) == 0.0)
            && (f.meanSquare == FloorArg <==> Silent(b.channel0))
            && (f.meanSquare.Level? ==> f.meanSquare.x > 0.0)
            && (f.meanSquare.Level? ==> f.meanSquare.x == SumSquares(b.channel0) / |b.channel0| as real)
  {
    SumSquaresOfSilence(b.channel0);
    SumSquaresOfSound(b.channel0);
    var xs := b.channel0;
    if MaxAbs(xs) == 0.0 {
      assert forall k :: 0 <= k < |xs| ==> Abs(xs[k]) <= 0.0;
    }
  }

  /** A silent buffer reports the floor for both levels, never a zero that
      `log10` would turn into minus infinity. */
  lemma SilentBufferFloors(b: AudioBuffer)
    requires Silent(b.channel0)
    ensures FeaturesOf(b).peak == FloorArg && FeaturesOf(b).meanSquare == FloorArg
    ensures PeakArg(FeaturesOf(b).peak) == LevelFloor
    ensures RmsArgSquared(FeaturesOf(b).meanSquare) == LevelFloor * LevelFloor
  {
    FeaturesOfLevels(b);
  }

  /** One full-scale sample among `n` zeros: the peak level is exactly 1
      (0 dB) and the mean square is 1 / (n + 1). */
  lemma OneFullScaleSample(n: nat, sign: real)
    requires sign == 1.0 || sign == -1.0
    ensures var b := AudioBuffer([sign] + seq(n, _ => 0.0), 1.0, 44100);
            FeaturesOf(b).peak == Level(1.0)
            && FeaturesOf(b).meanSquare == Level(1.0 / (n + 1) as real)
  {
    var xs := [sign] + seq(n, _ => 0.0);
    OneSampleSums(sign, n);
  }

  lemma {:induction false} OneSampleSums(sign: real, n: nat)
    requires sign == 1.0 || sign == -1.0
    ensures SumSquares([sign] + seq(n, _ => 0.0)) == 1.0
    ensures MaxAbs([sign] + seq(n, _ => 0.0)) == 1.0
  {
    var xs := [sign] + seq(n, _ => 0.0);
    if n > 0 {
      OneSampleSums(sign, n - 1);
      assert xs[..|xs| - 1] == [sign] + seq(n - 1, _ => 0.0);
    }
  }
}
