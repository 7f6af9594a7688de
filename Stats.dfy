/**
 * A player's recent-performance record: a FIFO window of the last
 * MaxScores match scores, and the skill derived from it (their mean).
 * Skill is an exact rational (`real`) rather than a 32-bit float.
 */
module Stats {

  /** The window size hard-coded in AddMatchScore. */
  const MaxScores: nat := 5

  /** A window that holds no more than MaxScores scores. */
  predicate Bounded(w: seq<int>)
  {
    |w| <= MaxScores
  }

  /** Sum of a sequence of scores, peeled from the back so that a
      left-to-right accumulation loop matches it prefix by prefix. */
  function Sum(s: seq<int>): int
  {
    if s == [] then 0 else Sum(s[..|s| - 1]) + s[|s| - 1]
  }

  /** Smallest and largest score of a non-empty window. */
  function Least(s: seq<int>): (r: int)
    requires s != []
    ensures r in s && forall x :: x in s ==> r <= x
  {
    if |s| == 1 then s[0]
    else
      var m := Least(s[..|s| - 1]);
      assert forall x :: x in s ==> x in s[..|s| - 1] || x == s[|s| - 1];
      if s[|s| - 1] < m then s[|s| - 1] else m
  }

  function Greatest(s: seq<int>): (r: int)
    requires s != []
    ensures r in s && forall x :: x in s ==> x <= r
  {
    if |s| == 1 then s[0]
    else
      var m := Greatest(s[..|s| - 1]);
      assert forall x :: x in s ==> x in s[..|s| - 1] || x == s[|s| - 1];
      if s[|s| - 1] > m then s[|s| - 1] else m
  }

  /** The skill of a window: the arithmetic mean of its scores, or 0 when
      no score has been recorded. */
  function Mean(s: seq<int>): (r: real)
    ensures s == [] ==> r == 0.0
    ensures s != [] ==> r * (|s| as real) == Sum(s) as real
  {
    if s == [] then 0.0 else Sum(s) as real / |s| as real
  }

  /** The window after recording `x`: append, then evict the oldest entry
      if the window has grown past MaxScores. */
  function Window(s: seq<int>, x: int): (r: seq<int>)
    ensures |r| > 0 && r[|r| - 1] == x
    ensures |s| < MaxScores ==> r == s + [x]
    ensures |s| >= MaxScores ==> r == s[1..] + [x] && |r| == |s|
    ensures Bounded(s) ==> Bounded(r)
  {
    var t := s + [x];
    if |t| > MaxScores then t[1..] else t
  }

  /** The window after recording every score of `xs`, in order, starting
      from window `w`. */
  function Replay(w: seq<int>, xs: seq<int>): seq<int>
    decreases |xs|
  {
    if xs == [] then w else Replay(Window(w, xs[0]), xs[1..])
  }

  /** The last min(|s|, n) elements of `s`. */
  function Suffix(s: seq<int>, n: nat): seq<int>
  {
    if |s| <= n then s else s[|s| - n..]
  }

  /** Putting one more element in front of a sequence that already holds
      `n` elements does not change its last `n`. */
  lemma SuffixIgnoresFront(a: int, u: seq<int>, n: nat)
    requires |u| >= n
    ensures Suffix([a] + u, n) == Suffix(u, n)
  {
    assert ([a] + u)[|u| + 1 - n..] == u[|u| - n..];
  }

  /** Recording a score onto a window does not change the last MaxScores
      scores of the window followed by whatever is recorded next. */
  lemma WindowKeepsSuffix(w: seq<int>, x: int, rest: seq<int>)
    requires Bounded(w)
    ensures Suffix(Window(w, x) + rest, MaxScores) == Suffix(w + ([x] + rest), MaxScores)
  {
    var t := w + [x];
    assert w + ([x] + rest) == t + rest;
    if |w| == MaxScores {
      assert t + rest == [t[0]] + (Window(w, x) + rest);
      SuffixIgnoresFront(t[0], Window(w, x) + rest, MaxScores);
    }
  }

  /** Replaying scores onto a window that respects the bound keeps exactly
      the MaxScores most recent scores of everything recorded. */
  lemma {:induction false} ReplayKeepsMostRecent(w: seq<int>, xs: seq<int>)
    requires Bounded(w)
    ensures Replay(w, xs) == Suffix(w + xs, MaxScores)
    decreases |xs|
  {
    if xs == [] {
      assert w + xs == w;
    } else {
      ReplayKeepsMostRecent(Window(w, xs[0]), xs[1..]);
      WindowKeepsSuffix(w, xs[0], xs[1..]);
      assert xs == [xs[0]] + xs[1..];
    }
  }

  /** From an empty window, the window holds the last min(|xs|, 5) scores
      recorded, in the order they were recorded. */
  lemma {:induction false} FreshWindowKeepsLastScores(xs: seq<int>)
    ensures var k := if |xs| < MaxScores then |xs| else MaxScores;
            Replay([], xs) == xs[|xs| - k..]
  {
    ReplayKeepsMostRecent([], xs);
    assert [] + xs == xs;
  }

  /** A lower and an upper bound on every score bound the sum. */
  lemma {:induction false} SumBetween(s: seq<int>, lo: int, hi: int)
    requires forall i :: 0 <= i < |s| ==> lo <= s[i] <= hi
    ensures |s| * lo <= Sum(s) <= |s| * hi
    decreases |s|
  {
    if s != [] {
      var k := |s| - 1;
      SumBetween(s[..k], lo, hi);
      assert |s| * lo == k * lo + lo;
      assert |s| * hi == k * hi + hi;
    }
  }

  /** Dividing both sides of `a * n <= b * n` by a positive `n`. */
  lemma CancelPositive(a: real, b: real, n: real)
    requires n > 0.0 && a * n <= b * n
    ensures a <= b
  {
  }

  /** Converting a product of integers to a real. */
  lemma ProductAsReal(x: int, y: int)
    ensures (x * y) as real == x as real * y as real
  {
  }

  lemma MeanAtLeast(s: seq<int>, lo: int)
    requires s != [] && |s| * lo <= Sum(s)
    ensures lo as real <= Mean(s)
  {
    ProductAsReal(|s|, lo);
    CancelPositive(lo as real, Mean(s), |s| as real);
  }

  lemma MeanAtMost(s: seq<int>, hi: int)
    requires s != [] && Sum(s) <= |s| * hi
    ensures Mean(s) <= hi as real
  {
    ProductAsReal(|s|, hi);
    CancelPositive(Mean(s), hi as real, |s| as real);
  }

  /** Bounds on every score of a non-empty window bound its mean. */
  lemma MeanBetween(s: seq<int>, lo: int, hi: int)
    requires s != []
    requires forall i :: 0 <= i < |s| ==> lo <= s[i] <= hi
    ensures lo as real <= Mean(s) <= hi as real
  {
    SumBetween(s, lo, hi);
    MeanAtLeast(s, lo);
    MeanAtMost(s, hi);
  }

  /** The skill of a non-empty window lies between its lowest and highest
      score. */
  lemma MeanWithinScores(s: seq<int>)
    requires s != []
    ensures Least(s) as real <= Mean(s) <= Greatest(s) as real
  {
    forall i | 0 <= i < |s|
      ensures Least(s) <= s[i] <= Greatest(s)
    {
      assert s[i] in s;
    }
    MeanBetween(s, Least(s), Greatest(s));
  }

  /** Scores 10, 20 and 30 give a skill of 20. */
  lemma MeanOfThreeScores()
    ensures Mean([10, 20, 30]) == 20.0
  {
    assert [10, 20, 30][..2] == [10, 20] && [10, 20][..1] == [10] && [10][..0] == [];
    assert Sum([10, 20, 30]) == 60;
  }

  /** One player's statistics, updated in place. */
  class PlayerStats {
    var Scores: seq<int>

    /** The bound the window keeps when nothing else writes Scores. */
    ghost predicate Valid()
      reads this
    {
      Bounded(Scores)
    }

    constructor ()
      ensures Scores == [] && Valid()
    {
      Scores := [];
    }

    method AddMatchScore(score: int)
      modifies this
      ensures Scores == Window(old(Scores), score)
      ensures old(Valid()) ==> Valid()
    {
      Scores := Scores + [score];
      if |Scores| > MaxScores {
        Scores := Scores[1..];
      }
    }

    method CalculateSkill() returns (skill: real)
      ensures skill == Mean(Scores)
    {
      if |Scores| == 0 {
        return 0.0;
      }
      var total := 0.0;
      for i := 0 to |Scores|
        invariant total == Sum(Scores[..i]) as real
      {
        assert Scores[..i + 1][..i] == Scores[..i];
        total := total + Scores[i] as real;
      }
      assert Scores[..|Scores|] == Scores;
      skill := total / |Scores| as real;
    }
  }
}
