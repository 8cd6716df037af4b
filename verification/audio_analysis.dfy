/** The spectrum decimation of components/AudioAnalysis.tsx: each animation
    frame, the analyser's byte-valued frequency bins are thinned to every
    16th bin for the chart. Canvas drawing and the sonic-profile request of
    the same component are outside the model. */
module AudioAnalysis {
  import opened Bits

  /** One chart point `{ freq: i, amplitude: freqData[i] }`: the bin index
      and the bin's value. */
  datatype Point = Point(freq: int, amplitude: byte)

  /** The reference: bin 0 and then the decimation of what follows the
      first 16 bins. */
  function EverySixteenth(bins: seq<byte>, offset: int): seq<Point>
    decreases |bins|
  {
    if bins == [] then []
    else if |bins| <= 16 then [Point(offset, bins[0])]
    else [Point(offset, bins[0])] + EverySixteenth(bins[16..], offset + 16)
  }

  /** `for (let i = 0; i < freqData.length; i += 16) sampledFreq.push(...)`. */
  method SampleSpectrum(freqData: seq<byte>) returns (r: seq<Point>)
    ensures |r| == (|freqData| + 15) / 16
    ensures forall k :: 0 <= k < |r| ==> 16 * k < |freqData| && r[k] == Point(16 * k, freqData[16 * k])
    ensures forall j, k :: 0 <= j < k < |r| ==> r[j].freq < r[k].freq
    ensures freqData == [] <==> r == []
    ensures r == EverySixteenth(freqData, 0)
  {
    r := [];
    var i := 0;
    while i < |freqData|
      invariant i == 16 * |r|
      invariant i <= |freqData| + 15
      invariant forall k :: 0 <= k < |r| ==> 16 * k < |freqData| && r[k] == Point(16 * k, freqData[16 * k])
    {
      r := r + [Point(i, freqData[i])];
      i := i + 16;
    }
    SampleMatchesReference(freqData, 0);
  }

  /** The reference has one point per started block of 16 bins, and its
      point `k` is bin `16 * k`, tagged with that index shifted by `offset`. */
  lemma {:induction false} SampleMatchesReference(bins: seq<byte>, offset: int)
    ensures |EverySixteenth(bins, offset)| == (|bins| + 15) / 16
    ensures forall k :: 0 <= k < |EverySixteenth(bins, offset)| ==>
              16 * k < |bins| && EverySixteenth(bins, offset)[k] == Point(offset + 16 * k, bins[16 * k])
    decreases |bins|
  {
    if |bins| > 16 {
      var rest := bins[16..];
      SampleMatchesReference(rest, offset + 16);
      var r := EverySixteenth(bins, offset);
      forall k | 0 <= k < |r|
        ensures 16 * k < |bins| && r[k] == Point(offset + 16 * k, bins[16 * k])
      {
        if k > 0 {
          assert r[k] == EverySixteenth(rest, offset + 16)[k - 1];
          assert rest[16 * (k - 1)] == bins[16 * k];
        }
      }
    }
  }
}
