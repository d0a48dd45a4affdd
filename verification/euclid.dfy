/** The rhythm pattern generator `bjorklund(steps, pulses)`.

    The two edge cases return directly. Otherwise the generator starts from
    `steps` single-symbol groups, hits first, runs pairing passes until one
    merges nothing, and flattens the groups. A single pass already pairs every
    minority symbol with a majority symbol, so the result is `[1, 0]` repeated
    `min(pulses, steps - pulses)` times followed by the leftover majority
    symbol (see `BjorklundClosedForm`).
 */
module Euclid {
  import opened Groups

  function Min(a: int, b: int): int
  {
    if a <= b then a else b
  }

  /** `n` copies of symbol `v`. */
  function Fill(n: nat, v: int): seq<int>
  {
    seq(n, _ => v)
  }

  /** Every entry is a hit (1) or a rest (0). */
  predicate Binary(pattern: seq<int>)
  {
    forall k :: 0 <= k < |pattern| ==> pattern[k] == 0 || pattern[k] == 1
  }

  /** The starting groups: one per step, the first `pulses` of them hits. */
  function Initial(steps: nat, pulses: int): seq<Group>
  {
    seq(steps, i => if i < pulses then [1] else [0])
  }

  /** The pattern generator. Nothing guards `pulses` against `steps`: a
      negative count yields only rests and an excessive one only hits. */
  function Bjorklund(steps: nat, pulses: int): (r: seq<int>)
    ensures |r| == steps
    ensures Binary(r)
  {
    if pulses == 0 then Fill(steps, 0)
    else if pulses == steps then Fill(steps, 1)
    else
      SettledKeepsSymbols(steps, pulses);
      Flatten(Settle(Initial(steps, pulses)))
  }

  lemma InitialFlattens(steps: nat, pulses: int)
    ensures Flatten(Initial(steps, pulses)) == seq(steps, i => if i < pulses then 1 else 0)
  {
    FlattenSingletons(Initial(steps, pulses));
  }

  /** The passes only move symbols: the settled groups flatten to `steps`
      hits and rests. */
  lemma SettledKeepsSymbols(steps: nat, pulses: int)
    ensures |Flatten(Settle(Initial(steps, pulses)))| == steps
    ensures Binary(Flatten(Settle(Initial(steps, pulses))))
  {
    var start := Flatten(Initial(steps, pulses));
    var r := Flatten(Settle(Initial(steps, pulses)));
    InitialFlattens(steps, pulses);
    assert multiset(r) == multiset(start);
    assert |r| == |multiset(r)| == |multiset(start)| == |start|;
    forall k | 0 <= k < |r|
      ensures r[k] == 0 || r[k] == 1
    {
      assert r[k] in multiset(r);
      assert r[k] in start;
    }
  }

  /** Independent statement of what the generator returns for
      `0 <= pulses <= steps`: `[1, 0]` repeated `m = min(pulses, steps - pulses)`
      times, then `steps - 2m` copies of the majority symbol. */
  function ClosedForm(steps: nat, pulses: nat): seq<int>
    requires pulses <= steps
  {
    var m := Min(pulses, steps - pulses);
    var tail := if pulses > steps - pulses then 1 else 0;
    seq(steps, k => if k < 2 * m then (if k % 2 == 0 then 1 else 0) else tail)
  }

  /** The group list after `m` merges: `m` pairs `[1, 0]`, then `a` single
      hits, then `b` single rests. */
  function Shape(m: nat, a: nat, b: nat): seq<Group>
  {
    seq(m + a + b, k => if k < m then [1, 0] else if k < m + a then [1] else [0])
  }

  /** The flattened form of `Shape(m, a, b)`: alternating hit and rest for
      `2m` entries, then `a` hits, then `b` rests. */
  function Spread(m: nat, a: nat, b: nat): seq<int>
  {
    seq(2 * m + a + b, k => if k < 2 * m then (if k % 2 == 0 then 1 else 0)
                            else if k < 2 * m + a then 1 else 0)
  }

  lemma SpreadStartsWithPair(m: nat, a: nat, b: nat)
    requires m > 0
    ensures Spread(m, a, b) == [1, 0] + Spread(m - 1, a, b)
  {
    var lhs, rhs := Spread(m, a, b), [1, 0] + Spread(m - 1, a, b);
    assert |lhs| == |rhs|;
    forall k | 2 <= k < |lhs|
      ensures lhs[k] == rhs[k]
    {
      assert rhs[k] == Spread(m - 1, a, b)[k - 2];
      assert (k - 2) % 2 == k % 2;
    }
  }

  lemma {:induction false} FlattenShape(m: nat, a: nat, b: nat)
    ensures Flatten(Shape(m, a, b)) == Spread(m, a, b)
    decreases m + a + b
  {
    var g := Shape(m, a, b);
    if m > 0 {
      assert g[1..] == Shape(m - 1, a, b);
      FlattenShape(m - 1, a, b);
      SpreadStartsWithPair(m, a, b);
    } else if a > 0 {
      assert g[1..] == Shape(0, a - 1, b);
      FlattenShape(0, a - 1, b);
      assert Spread(0, a, b) == [1] + Spread(0, a - 1, b);
    } else if b > 0 {
      assert g[1..] == Shape(0, 0, b - 1);
      FlattenShape(0, 0, b - 1);
      assert Spread(0, 0, b) == [0] + Spread(0, 0, b - 1);
    }
  }

  /** Once hits or rests are used up, no pass from any index merges. */
  lemma {:induction false} ShapeIsQuiet(m: nat, a: nat, b: nat, j: nat)
    requires a == 0 || b == 0
    ensures Pass(Shape(m, a, b), j) == Round(Shape(m, a, b), 0)
    decreases m + a + b - j
  {
    var g := Shape(m, a, b);
    if j + 1 < |g| {
      assert !Mergeable(g, j);
      ShapeIsQuiet(m, a, b, j + 1);
    }
  }

  /** A merge at index m turns the first single hit into a pair, consuming
      one rest from the tail. */
  lemma MergeShape(m: nat, a: nat, b: nat)
    requires a > 0 && b > 0
    ensures m < |Shape(m, a, b)| - 1 && Mergeable(Shape(m, a, b), m)
    ensures Merge(Shape(m, a, b), m) == Shape(m + 1, a - 1, b - 1)
  {
    var g := Shape(m, a, b);
    assert Mergeable(g, m);
    var merged, next := Merge(g, m), Shape(m + 1, a - 1, b - 1);
    assert |merged| == |next|;
    forall k | 0 <= k < |merged|
      ensures merged[k] == next[k]
    {
      if k == m {
        assert merged[k] == [1] + [0];
      } else {
        assert merged[k] == g[k];
      }
    }
  }

  /** A pass that merges at index i counts that merge and continues on the
      shortened list from i + 1. */
  lemma PassMerges(gs: seq<Group>, i: nat)
    requires i < |gs| - 1 && Mergeable(gs, i)
    ensures Pass(gs, i).groups == Pass(Merge(gs, i), i + 1).groups
    ensures Pass(gs, i).merges == Pass(Merge(gs, i), i + 1).merges + 1
  {
  }

  /** What the first pass leaves from index m on: as many pairs as both
      single hits and single rests allow, and that many merges. */
  function FirstPassResult(m: nat, a: nat, b: nat): Round
  {
    var k := Min(a, b);
    Round(Shape(m + k, a - k, b - k), k)
  }

  /** The first pass, from index m: every index while both single hits and
      single rests remain merges a hit with a rest from the tail, and nothing
      merges afterwards. */
  lemma {:induction false} FirstPass(m: nat, a: nat, b: nat)
    ensures Pass(Shape(m, a, b), m) == FirstPassResult(m, a, b)
    decreases a
  {
    if a == 0 || b == 0 {
      FirstPassDone(m, a, b);
    } else {
      FirstPass(m + 1, a - 1, b - 1);
      FirstPassStep(m, a, b);
    }
  }

  /** The first pass ends once hits or rests are used up. */
  lemma FirstPassDone(m: nat, a: nat, b: nat)
    requires a == 0 || b == 0
    ensures Pass(Shape(m, a, b), m) == FirstPassResult(m, a, b)
  {
    ShapeIsQuiet(m, a, b, m);
    assert Min(a, b) == 0;
  }

  /** One merge of the first pass, given the rest of the pass. */
  lemma FirstPassStep(m: nat, a: nat, b: nat)
    requires a > 0 && b > 0
    requires Pass(Shape(m + 1, a - 1, b - 1), m + 1) == FirstPassResult(m + 1, a - 1, b - 1)
    ensures Pass(Shape(m, a, b), m) == FirstPassResult(m, a, b)
  {
    var g, next := Shape(m, a, b), Shape(m + 1, a - 1, b - 1);
    MergeShape(m, a, b);
    PassMerges(g, m);
    assert Pass(g, m).groups == Pass(next, m + 1).groups;
    assert Pass(g, m).merges == Pass(next, m + 1).merges + 1;
  }

  lemma InitialIsShape(steps: nat, pulses: nat)
    requires pulses <= steps
    ensures Initial(steps, pulses) == Shape(0, pulses, steps - pulses)
  {
  }

  /** For `0 < pulses < steps` the first pass merges `min(pulses, steps - pulses)`
      times and the second pass never merges. */
  lemma SecondPassQuiet(steps: nat, pulses: nat)
    requires 0 < pulses < steps
    ensures Pass(Initial(steps, pulses), 0).merges == Min(pulses, steps - pulses)
    ensures Pass(Pass(Initial(steps, pulses), 0).groups, 0).merges == 0
  {
    var q := steps - pulses;
    var m := Min(pulses, q);
    InitialIsShape(steps, pulses);
    FirstPass(0, pulses, q);
    ShapeIsQuiet(m, pulses - m, q - m, 0);
  }

  /** The generator's output equals the closed form for every valid spec. */
  lemma BjorklundClosedForm(steps: nat, pulses: nat)
    requires pulses <= steps
    ensures Bjorklund(steps, pulses) == ClosedForm(steps, pulses)
  {
    if pulses == 0 {
      assert ClosedForm(steps, pulses) == Fill(steps, 0);
    } else if pulses == steps {
      assert ClosedForm(steps, pulses) == Fill(steps, 1);
    } else {
      SettleInitial(steps, pulses);
      SettledShapeIsClosedForm(steps, pulses);
      assert Bjorklund(steps, pulses) == Flatten(Settle(Initial(steps, pulses)));
    }
  }

  lemma SettledShapeIsClosedForm(steps: nat, pulses: nat)
    requires 0 < pulses < steps
    ensures Flatten(Shape(Min(pulses, steps - pulses), pulses - Min(pulses, steps - pulses),
                          steps - pulses - Min(pulses, steps - pulses)))
         == ClosedForm(steps, pulses)
  {
    var m := Min(pulses, steps - pulses);
    FlattenShape(m, pulses - m, steps - pulses - m);
  }

  /** Two passes settle the initial groups into `m` pairs and the leftover
      majority singletons. */
  lemma SettleInitial(steps: nat, pulses: nat)
    requires 0 < pulses < steps
    ensures Settle(Initial(steps, pulses))
         == Shape(Min(pulses, steps - pulses), pulses - Min(pulses, steps - pulses),
                  steps - pulses - Min(pulses, steps - pulses))
  {
    var q := steps - pulses;
    var m := Min(pulses, q);
    var settled := Shape(m, pulses - m, q - m);
    var start := Initial(steps, pulses);
    assert Pass(start, 0) == Round(settled, m) by {
      InitialIsShape(steps, pulses);
      FirstPass(0, pulses, q);
      assert FirstPassResult(0, pulses, q) == Round(settled, m);
    }
    assert Pass(settled, 0).merges == 0 by {
      ShapeIsQuiet(m, pulses - m, q - m, 0);
    }
    SettleTwoRounds(start, settled, m);
  }

  /** A list whose first pass merges and whose second pass merges nothing
      settles after those two passes. */
  lemma SettleTwoRounds(gs: seq<Group>, settled: seq<Group>, merges: nat)
    requires merges > 0 && Pass(gs, 0) == Round(settled, merges)
    requires Pass(settled, 0).merges == 0
    ensures Settle(gs) == settled
  {
    SettleContinues(gs);
    SettleStops(settled);
  }

  /** A merging pass is followed by another round of passes. */
  lemma SettleContinues(gs: seq<Group>)
    requires Pass(gs, 0).merges > 0
    ensures Settle(gs) == Settle(Pass(gs, 0).groups)
  {
  }

  /** A pass that merges nothing ends the repetition. */
  lemma SettleStops(gs: seq<Group>)
    requires Pass(gs, 0).merges == 0
    ensures Settle(gs) == gs
  {
  }

  lemma {:induction false} FillCount(n: nat, v: int, w: int)
    ensures multiset(Fill(n, v))[w] == if w == v then n else 0
  {
    if n > 0 {
      assert Fill(n, v) == Fill(n - 1, v) + [v];
      FillCount(n - 1, v, w);
    }
  }

  /** For `0 <= pulses <= steps` the pattern has `steps` entries, exactly
      `pulses` hits and `steps - pulses` rests. Proved from conservation of
      symbols through the passes, independently of the closed form. */
  lemma PulseCount(steps: nat, pulses: nat)
    requires pulses <= steps
    ensures |Bjorklund(steps, pulses)| == steps
    ensures multiset(Bjorklund(steps, pulses))[1] == pulses
    ensures multiset(Bjorklund(steps, pulses))[0] == steps - pulses
  {
    if pulses == 0 {
      FillCount(steps, 0, 1);
      FillCount(steps, 0, 0);
    } else if pulses == steps {
      FillCount(steps, 1, 1);
      FillCount(steps, 1, 0);
    } else {
      SettledCounts(steps, pulses);
      assert Bjorklund(steps, pulses) == Flatten(Settle(Initial(steps, pulses)));
    }
  }

  lemma SettledCounts(steps: nat, pulses: nat)
    requires 0 < pulses < steps
    ensures multiset(Flatten(Settle(Initial(steps, pulses))))[1] == pulses
    ensures multiset(Flatten(Settle(Initial(steps, pulses))))[0] == steps - pulses
  {
    var start := Initial(steps, pulses);
    InitialSplits(steps, pulses);
    SplitCounts(pulses, steps - pulses);
    SameCounts(Flatten(Settle(start)), Flatten(start), pulses, steps - pulses);
  }

  lemma SameCounts(a: seq<int>, b: seq<int>, ones: nat, zeros: nat)
    requires multiset(a) == multiset(b)
    requires multiset(b)[1] == ones && multiset(b)[0] == zeros
    ensures multiset(a)[1] == ones && multiset(a)[0] == zeros
  {
  }

  /** The initial groups flatten to the hits followed by the rests. */
  lemma InitialSplits(steps: nat, pulses: nat)
    requires pulses <= steps
    ensures Flatten(Initial(steps, pulses)) == Fill(pulses, 1) + Fill(steps - pulses, 0)
  {
    InitialFlattens(steps, pulses);
  }

  /** `p` hits followed by `q` rests hold `p` ones and `q` zeros. */
  lemma SplitCounts(p: nat, q: nat)
    ensures multiset(Fill(p, 1) + Fill(q, 0))[1] == p
    ensures multiset(Fill(p, 1) + Fill(q, 0))[0] == q
  {
    FillCount(p, 1, 1);
    FillCount(p, 1, 0);
    FillCount(q, 0, 1);
    FillCount(q, 0, 0);
  }

  /** With no guard, `pulses > steps` marks every initial group a hit; no
      merge fires and the result is `steps` hits, not `pulses`. */
  lemma OverfullPulses(steps: nat, pulses: int)
    requires pulses > steps
    ensures Bjorklund(steps, pulses) == Fill(steps, 1)
    ensures multiset(Bjorklund(steps, pulses))[1] != pulses
  {
    assert Initial(steps, pulses) == Shape(0, steps, 0);
    ShapeIsQuiet(0, steps, 0, 0);
    FlattenShape(0, steps, 0);
    FillCount(steps, 1, 1);
  }

  /** A negative pulse count marks every initial group a rest. */
  lemma NegativePulses(steps: nat, pulses: int)
    requires pulses < 0
    ensures Bjorklund(steps, pulses) == Fill(steps, 0)
  {
    assert Initial(steps, pulses) == Shape(0, 0, steps);
    ShapeIsQuiet(0, 0, steps, 0);
    FlattenShape(0, 0, steps);
  }

  /** The two edge cases, returned before any grouping. */
  lemma EdgeCases(steps: nat)
    ensures Bjorklund(steps, 0) == Fill(steps, 0)
    ensures Bjorklund(steps, steps) == Fill(steps, 1)
    ensures multiset(Bjorklund(steps, steps))[1] == steps
  {
    FillCount(steps, 1, 1);
  }

  /** The documented 16-step, 6-pulse example holds. */
  lemma SixteenSixExample()
    ensures Bjorklund(16, 6) == [1, 0, 1, 0, 1, 0, 1, 0, 1, 0, 1, 0, 0, 0, 0, 0]
  {
    BjorklundClosedForm(16, 6);
    ClosedFormSixteenSix();
  }

  lemma ClosedFormSixteenSix()
    ensures ClosedForm(16, 6) == [1, 0, 1, 0, 1, 0, 1, 0, 1, 0, 1, 0, 0, 0, 0, 0]
  {
  }

  lemma ClosedFormEightThree()
    ensures ClosedForm(8, 3) == [1, 0, 1, 0, 1, 0, 0, 0]
  {
  }

  /** The documented 8-step, 3-pulse example (the tresillo `1,0,0,1,0,0,1,0`)
      does not hold: the generator returns `1,0,1,0,1,0,0,0`. */
  lemma EightThreeIsNotTresillo()
    ensures Bjorklund(8, 3) == [1, 0, 1, 0, 1, 0, 0, 0]
    ensures Bjorklund(8, 3) != [1, 0, 0, 1, 0, 0, 1, 0]
  {
    BjorklundClosedForm(8, 3);
    ClosedFormEightThree();
    assert Bjorklund(8, 3)[2] == 1;
  }
}
