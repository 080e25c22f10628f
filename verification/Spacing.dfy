/** Times at least a cooldown apart. */
module Spacing {
  /** Each time is at least `gap` after the one before it. */
  predicate Spaced(times: seq<real>, gap: real) {
    forall k :: 0 < k < |times| ==> times[k - 1] + gap <= times[k]
  }

  lemma {:induction false} SpacedSnoc(times: seq<real>, t: real, gap: real)
    requires Spaced(times, gap) && (times != [] ==> times[|times| - 1] + gap <= t)
    ensures Spaced(times + [t], gap)
  {
  }

  lemma {:induction false} SpacedBetween(times: seq<real>, gap: real, i: nat, j: nat)
    requires Spaced(times, gap) && i <= j < |times|
    ensures (j - i) as real * gap <= times[j] - times[i]
    decreases j
  {
    if i < j {
      SpacedBetween(times, gap, i, j - 1);
      assert times[j - 1] + gap <= times[j];
      assert (j - i) as real * gap == (j - 1 - i) as real * gap + gap;
    }
  }

  /** In an interval of length `span` there are at most floor(span / gap) + 1 of them. */
  lemma {:induction false} SpacedCount(times: seq<real>, gap: real, i: nat, j: nat, span: real)
    requires Spaced(times, gap) && gap > 0.0 && i <= j < |times| && times[j] - times[i] <= span
    ensures j - i + 1 <= (span / gap).Floor + 1
  {
    SpacedBetween(times, gap, i, j);
    var n := (j - i) as real;
    assert n <= span / gap by {
      assert n * gap <= span;
      DivideBoth(n, gap, span);
    }
  }

  lemma {:induction false} DivideBoth(n: real, gap: real, span: real)
    requires gap > 0.0 && n * gap <= span
    ensures n <= span / gap
  {
    var q := span / gap;
    assert q * gap == span;
    if n > q {
      assert (n - q) * gap > 0.0;
    }
  }
}
