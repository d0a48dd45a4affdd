/** The group-rewriting core of the rhythm generator.

    A pattern under construction is a list of groups of symbols (1 = hit,
    0 = rest). One pairing pass walks the list from left to right and, at
    every index i before the last group, merges the last group into group i
    when both are single symbols and the symbols differ. Passes repeat until
    one of them merges nothing; the groups are then flattened in order.
 */
module Groups {

  /** One group of pattern symbols. */
  type Group = seq<int>

  /** All groups concatenated, in order. */
  function Flatten(gs: seq<Group>): seq<int>
  {
    if |gs| == 0 then [] else gs[0] + Flatten(gs[1..])
  }

  lemma {:induction false} FlattenConcat(a: seq<Group>, b: seq<Group>)
    ensures Flatten(a + b) == Flatten(a) + Flatten(b)
  {
    if |a| == 0 {
      assert a + b == b;
    } else {
      assert (a + b)[1..] == a[1..] + b;
      FlattenConcat(a[1..], b);
    }
  }

  /** Flattening a list of single-symbol groups lists their symbols. */
  lemma {:induction false} FlattenSingletons(gs: seq<Group>)
    requires forall i :: 0 <= i < |gs| ==> |gs[i]| == 1
    ensures Flatten(gs) == seq(|gs|, i requires 0 <= i < |gs| => gs[i][0])
  {
    if |gs| > 0 {
      FlattenSingletons(gs[1..]);
    }
  }

  /** The pass may merge group i into place: group i and the last group are
      both single symbols, and the symbols differ. */
  predicate Mergeable(gs: seq<Group>, i: nat)
    requires i < |gs|
  {
    |gs[i]| == 1 && |gs[|gs| - 1]| == 1 && gs[i][0] != gs[|gs| - 1][0]
  }

  /** The fixed point at which the generator stops: no group before the
      last can be merged with the last one. */
  predicate Stable(gs: seq<Group>)
  {
    forall i :: 0 <= i < |gs| - 1 ==> !Mergeable(gs, i)
  }

  /** One merge: the last group's symbol is appended to group i and the
      last group is dropped. */
  function Merge(gs: seq<Group>, i: nat): (r: seq<Group>)
    requires i < |gs| - 1 && Mergeable(gs, i)
    ensures |r| == |gs| - 1
    ensures r[i] == gs[i] + [gs[|gs| - 1][0]] && |r[i]| == 2
    ensures forall j :: 0 <= j < |r| && j != i ==> r[j] == gs[j]
  {
    gs[i := gs[i] + [gs[|gs| - 1][0]]][..|gs| - 1]
  }

  /** A merge keeps every symbol; only the moved symbol's place changes. */
  lemma MergeConserves(gs: seq<Group>, i: nat)
    requires i < |gs| - 1 && Mergeable(gs, i)
    ensures multiset(Flatten(Merge(gs, i))) == multiset(Flatten(gs))
  {
    var last := |gs| - 1;
    var pre, mid, x := gs[..i], gs[i + 1..last], gs[last][0];
    MergeSplits(gs, i);
    FlattenConcat(pre + [gs[i]] + mid, [[x]]);
    assert Flatten([[x]]) == [x];
    FlattenAround(pre, gs[i], mid);
    FlattenAround(pre, gs[i] + [x], mid);
  }

  /** The list around group i, before and after the merge. */
  lemma MergeSplits(gs: seq<Group>, i: nat)
    requires i < |gs| - 1 && Mergeable(gs, i)
    ensures gs == gs[..i] + [gs[i]] + gs[i + 1..|gs| - 1] + [[gs[|gs| - 1][0]]]
    ensures Merge(gs, i) == gs[..i] + [gs[i] + [gs[|gs| - 1][0]]] + gs[i + 1..|gs| - 1]
  {
    assert gs[|gs| - 1] == [gs[|gs| - 1][0]];
  }

  lemma FlattenAround(pre: seq<Group>, g: Group, post: seq<Group>)
    ensures Flatten(pre + [g] + post) == Flatten(pre) + g + Flatten(post)
  {
    FlattenConcat(pre + [g], post);
    FlattenConcat(pre, [g]);
    assert Flatten([g]) == g;
  }

  /** No index from `i` to the one before last can be merged with the last group. */
  predicate NoMergeFrom(gs: seq<Group>, i: nat)
  {
    forall j :: i <= j < |gs| - 1 ==> !Mergeable(gs, j)
  }

  /** Outcome of one pairing pass: the rewritten groups and how many merges
      the pass made. */
  datatype Round = Round(groups: seq<Group>, merges: nat)

  /** The pairing pass from index i on. The list shrinks as it goes, so the
      bound is re-read after every merge, as the loop condition does. */
  function Pass(gs: seq<Group>, i: nat): (r: Round)
    ensures |r.groups| + r.merges == |gs|
    ensures r.merges == 0 ==> r.groups == gs
    ensures r.merges == 0 ==> NoMergeFrom(gs, i)
    decreases |gs| - i
  {
    if i + 1 < |gs| then
      if Mergeable(gs, i) then
        var next := Pass(Merge(gs, i), i + 1);
        Round(next.groups, next.merges + 1)
      else
        Pass(gs, i + 1)
    else
      Round(gs, 0)
  }

  /** A pass keeps every symbol. */
  lemma {:induction false} PassConserves(gs: seq<Group>, i: nat)
    ensures multiset(Flatten(Pass(gs, i).groups)) == multiset(Flatten(gs))
    decreases |gs| - i
  {
    if i + 1 < |gs| {
      if Mergeable(gs, i) {
        MergeConserves(gs, i);
        PassConserves(Merge(gs, i), i + 1);
      } else {
        PassConserves(gs, i + 1);
      }
    }
  }

  /** Passes repeated until one merges nothing. Each pass that merges
      shortens the list, which is why the repetition ends. */
  function Settle(gs: seq<Group>): (r: seq<Group>)
    ensures Stable(r)
    ensures multiset(Flatten(r)) == multiset(Flatten(gs))
    ensures |r| <= |gs|
    decreases |gs|
  {
    var round := Pass(gs, 0);
    PassConserves(gs, 0);
    if round.merges == 0 then
      assert NoMergeFrom(gs, 0);
      round.groups
    else
      Settle(round.groups)
  }
}
