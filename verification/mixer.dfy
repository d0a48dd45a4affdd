/** Placing and summing tone bursts on the output buffer.

    A beat lasts `60000 / bpm` milliseconds. The buffer holds
    `sampleRate * steps * beatMs / 1000` samples, and hit `i` starts at
    `i * sampleRate * beatMs / 1000`: one truncation after the whole product,
    not `i` times a truncated samples-per-beat. Each hit adds the burst into
    the buffer from its start on; only the burst's tail is cut at the buffer's
    end. Overlapping bursts are summed with no clamping.
 */
module Mixer {
  import Euclid

  /** Milliseconds per beat, truncated. */
  function BeatMs(bpm: int): (ms: nat)
    requires bpm > 0
    ensures ms * bpm <= 60000 < (ms + 1) * bpm
  {
    60000 / bpm
  }

  /** Length of the output buffer, truncated once after the full product. */
  function BufferLength(sampleRate: nat, steps: nat, beatMs: nat): (n: nat)
    ensures n * 1000 <= sampleRate * steps * beatMs < (n + 1) * 1000
  {
    sampleRate * steps * beatMs / 1000
  }

  /** First sample of step `i`, truncated once after the full product: the
      step starts exactly where a buffer of `i` steps would end. */
  function HitStart(i: nat, sampleRate: nat, beatMs: nat): (start: nat)
    ensures start * 1000 <= i * sampleRate * beatMs < (start + 1) * 1000
    ensures start == BufferLength(sampleRate, i, beatMs)
  {
    i * sampleRate * beatMs / 1000
  }

  /** What a step holding `v` and starting at `start` adds at position `k`:
      the burst sample `k - start` inside the burst's window, else nothing. */
  function Contribution(v: int, drum: seq<int>, start: nat, k: nat): int
  {
    if v == 1 && start <= k < start + |drum| then drum[k - start] else 0
  }

  /** Reference value of buffer position `k` after the first `n` steps have
      been placed: the sum of every step's contribution there. */
  function Mix(pattern: seq<int>, drum: seq<int>, sampleRate: nat, beatMs: nat, n: nat, k: nat): int
    requires n <= |pattern|
  {
    if n == 0 then 0
    else Mix(pattern, drum, sampleRate, beatMs, n - 1, k)
         + Contribution(pattern[n - 1], drum, HitStart(n - 1, sampleRate, beatMs), k)
  }

  /** Reference buffer of `n` samples once every step of the pattern has been
      placed. */
  function Mixed(pattern: seq<int>, drum: seq<int>, sampleRate: nat, beatMs: nat, n: nat): seq<int>
  {
    seq(n, k requires 0 <= k < n => Mix(pattern, drum, sampleRate, beatMs, |pattern|, k))
  }

  /** The inner loop: adds the burst into `buf` from `start` on while both
      the burst and the buffer last. Only the burst's tail is ever cut. */
  method AddBurst(buf: seq<int>, drum: seq<int>, start: nat) returns (out: seq<int>)
    ensures |out| == |buf|
    ensures forall k :: 0 <= k < |out| ==>
      out[k] == buf[k] + (if start <= k < start + |drum| then drum[k - start] else 0)
  {
    out := buf;
    var j := 0;
    while j < |drum| && start + j < |out|
      invariant 0 <= j <= |drum|
      invariant |out| == |buf|
      invariant forall k :: 0 <= k < |out| ==>
        out[k] == buf[k] + (if start <= k < start + j then drum[k - start] else 0)
    {
      out := out[start + j := out[start + j] + drum[j]];
      j := j + 1;
    }
  }

  /** The render loop: a zero buffer, then the burst added in at every hit. */
  method Render(pattern: seq<int>, drum: seq<int>, sampleRate: nat, steps: nat, bpm: int)
    returns (out: seq<int>)
    requires bpm > 0
    ensures |out| == BufferLength(sampleRate, steps, BeatMs(bpm))
    ensures forall k :: 0 <= k < |out| ==>
      out[k] == Mix(pattern, drum, sampleRate, BeatMs(bpm), |pattern|, k)
  {
    var beatMs := BeatMs(bpm);
    out := seq(BufferLength(sampleRate, steps, beatMs), _ => 0);
    var i := 0;
    while i < |pattern|
      invariant 0 <= i <= |pattern|
      invariant |out| == BufferLength(sampleRate, steps, beatMs)
      invariant forall k :: 0 <= k < |out| ==> out[k] == Mix(pattern, drum, sampleRate, beatMs, i, k)
    {
      if pattern[i] == 1 {
        out := AddBurst(out, drum, HitStart(i, sampleRate, beatMs));
      }
      i := i + 1;
    }
  }

  /** Later steps never start earlier. */
  lemma StartsOrdered(i: nat, i': nat, sampleRate: nat, beatMs: nat)
    requires i <= i'
    ensures HitStart(i, sampleRate, beatMs) <= HitStart(i', sampleRate, beatMs)
  {
    var d := sampleRate * beatMs;
    assert i * sampleRate * beatMs == i * d;
    assert i' * sampleRate * beatMs == i' * d;
    assert i * d <= i' * d by {
      assert i' * d == i * d + (i' - i) * d;
    }
  }

  /** Every step of the pattern starts inside the buffer or at its very end,
      so together with the buffer-length guard no write falls outside it. */
  lemma StartsInBuffer(i: nat, sampleRate: nat, steps: nat, beatMs: nat)
    requires i < steps
    ensures HitStart(i, sampleRate, beatMs) <= BufferLength(sampleRate, steps, beatMs)
  {
    var d := sampleRate * beatMs;
    assert i * sampleRate * beatMs == i * d;
    assert sampleRate * steps * beatMs == steps * d;
    assert i * d <= steps * d by {
      assert steps * d == i * d + (steps - i) * d;
    }
  }

  /** A pattern with no hits leaves every position at zero. */
  lemma {:induction false} SilentPattern(pattern: seq<int>, drum: seq<int>, sampleRate: nat,
                                         beatMs: nat, n: nat, k: nat)
    requires n <= |pattern|
    requires forall i :: 0 <= i < n ==> pattern[i] != 1
    ensures Mix(pattern, drum, sampleRate, beatMs, n, k) == 0
  {
    if n > 0 {
      SilentPattern(pattern, drum, sampleRate, beatMs, n - 1, k);
    }
  }

  /** A generated pattern with no pulses renders as silence. */
  lemma NoPulsesIsSilent(steps: nat, drum: seq<int>, sampleRate: nat, beatMs: nat, k: nat)
    ensures Mix(Euclid.Bjorklund(steps, 0), drum, sampleRate, beatMs, steps, k) == 0
  {
    SilentPattern(Euclid.Bjorklund(steps, 0), drum, sampleRate, beatMs, steps, k);
  }

  /** A lone hit at step `h` puts the burst, from its first sample, at the
      hit's start and nothing anywhere else. */
  lemma {:induction false} SingleHit(pattern: seq<int>, drum: seq<int>, sampleRate: nat,
                                     beatMs: nat, h: nat, n: nat, k: nat)
    requires n <= |pattern| && h < |pattern|
    requires pattern[h] == 1
    requires forall i :: 0 <= i < |pattern| && i != h ==> pattern[i] != 1
    ensures Mix(pattern, drum, sampleRate, beatMs, n, k)
         == if h < n then Contribution(1, drum, HitStart(h, sampleRate, beatMs), k) else 0
  {
    if n > 0 {
      SingleHit(pattern, drum, sampleRate, beatMs, h, n - 1, k);
    }
  }

  /** Superposition: when the hits of `a` are the disjoint union of those of
      `b` and `c`, the mix of `a` is the sum of the mixes of `b` and `c`. */
  lemma {:induction false} HitsAdd(a: seq<int>, b: seq<int>, c: seq<int>, drum: seq<int>,
                                   sampleRate: nat, beatMs: nat, n: nat, k: nat)
    requires n <= |a| && n <= |b| && n <= |c|
    requires forall i :: 0 <= i < n ==> (a[i] == 1 <==> b[i] == 1 || c[i] == 1)
    requires forall i :: 0 <= i < n ==> !(b[i] == 1 && c[i] == 1)
    ensures Mix(a, drum, sampleRate, beatMs, n, k)
         == Mix(b, drum, sampleRate, beatMs, n, k) + Mix(c, drum, sampleRate, beatMs, n, k)
  {
    if n > 0 {
      HitsAdd(a, b, c, drum, sampleRate, beatMs, n - 1, k);
    }
  }

  /** Two overlapping bursts add past the 16-bit sample range: nothing clamps. */
  lemma OverlapIsNotClamped()
    ensures BufferLength(1000, 2, BeatMs(60000)) == 2
    ensures Mix([1, 1], [20000, 20000], 1000, BeatMs(60000), 2, 1) == 40000 > 32767
  {
  }

  /** At 110 BPM a beat is 545 ms and the third step starts at sample 48069,
      one past twice the second step's start: each start is truncated on its
      own, not derived from a truncated samples-per-beat. */
  lemma StartsTruncateOnce()
    ensures BeatMs(110) == 545
    ensures HitStart(1, 44100, 545) == 24034
    ensures HitStart(2, 44100, 545) == 48069 != 2 * HitStart(1, 44100, 545)
  {
  }
}
