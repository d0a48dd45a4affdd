/** The tone burst `synthDrum(sampleRate, lengthMs, freq)`.

    Only the burst's length is modelled exactly. Each sample's value comes
    from a floating-point decaying sine; here it is the parameter `tone`,
    applied to the sample index and the burst length.
 */
module Synth {

  /** Samples in a burst of `lengthMs` milliseconds: the product truncated
      once by integer division. */
  function BurstLength(sampleRate: nat, lengthMs: nat): (n: nat)
    ensures n * 1000 <= sampleRate * lengthMs < (n + 1) * 1000
  {
    sampleRate * lengthMs / 1000
  }

  /** Builds the burst one sample at a time. */
  method SynthDrum(sampleRate: nat, lengthMs: nat, tone: (nat, nat) -> int) returns (buf: seq<int>)
    ensures |buf| == BurstLength(sampleRate, lengthMs)
    ensures forall i :: 0 <= i < |buf| ==> buf[i] == tone(i, |buf|)
  {
    var samples := BurstLength(sampleRate, lengthMs);
    buf := seq(samples, _ => 0);
    var i := 0;
    while i < samples
      invariant 0 <= i <= samples
      invariant |buf| == samples
      invariant forall k :: 0 <= k < i ==> buf[k] == tone(k, samples)
    {
      buf := buf[i := tone(i, samples)];
      i := i + 1;
    }
  }

  /** At 44100 Hz an 80 ms burst has 3528 samples. */
  lemma DefaultBurstLength()
    ensures BurstLength(44100, 80) == 3528
  {
  }
}
