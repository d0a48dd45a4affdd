/** The textual view of a pattern: `X` for a hit, `.` for anything else. */
module Display {
  import Euclid

  function Glyph(v: int): char
  {
    if v == 1 then 'X' else '.'
  }

  /** One character per entry, appended in pattern order. */
  function FormatPattern(pattern: seq<int>): (r: string)
    ensures |r| == |pattern|
    ensures forall k :: 0 <= k < |pattern| ==> (r[k] == 'X' <==> pattern[k] == 1)
    ensures forall k :: 0 <= k < |pattern| ==> (r[k] == '.' <==> pattern[k] != 1)
  {
    if |pattern| == 0 then ""
    else FormatPattern(pattern[..|pattern| - 1]) + [Glyph(pattern[|pattern| - 1])]
  }

  /** Each character depends only on its own entry, so formatting distributes
      over concatenation. */
  lemma {:induction false} FormatConcat(a: seq<int>, b: seq<int>)
    ensures FormatPattern(a + b) == FormatPattern(a) + FormatPattern(b)
  {
    var lhs, rhs := FormatPattern(a + b), FormatPattern(a) + FormatPattern(b);
    forall k | 0 <= k < |lhs|
      ensures lhs[k] == rhs[k]
    {
      if k < |a| {
        assert (a + b)[k] == a[k];
      } else {
        assert (a + b)[k] == b[k - |a|];
      }
    }
  }

  /** The number of `X` characters is the number of entries equal to 1. */
  lemma {:induction false} HitsShown(pattern: seq<int>)
    ensures multiset(FormatPattern(pattern))['X'] == multiset(pattern)[1]
  {
    if |pattern| > 0 {
      var front := pattern[..|pattern| - 1];
      assert pattern == front + [pattern[|pattern| - 1]];
      HitsShown(front);
    }
  }

  /** On hit/rest patterns formatting loses nothing: equal strings come from
      equal patterns. */
  lemma {:induction false} FormatInjective(a: seq<int>, b: seq<int>)
    requires Euclid.Binary(a) && Euclid.Binary(b)
    requires FormatPattern(a) == FormatPattern(b)
    ensures a == b
  {
    assert |a| == |b|;
    forall k | 0 <= k < |a|
      ensures a[k] == b[k]
    {
      assert FormatPattern(a)[k] == FormatPattern(b)[k];
    }
  }

  /** A generated pattern shows exactly `pulses` hits. */
  lemma GeneratedHitsShown(steps: nat, pulses: nat)
    requires pulses <= steps
    ensures |FormatPattern(Euclid.Bjorklund(steps, pulses))| == steps
    ensures multiset(FormatPattern(Euclid.Bjorklund(steps, pulses)))['X'] == pulses
  {
    Euclid.PulseCount(steps, pulses);
    HitsShown(Euclid.Bjorklund(steps, pulses));
  }
}
