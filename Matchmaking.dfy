/**
 * The match pool: players are registered one at a time (duplicates
 * allowed, never removed) and a match is the MatchSize lowest-skilled
 * players, in ascending order of skill. The players' skill is read from
 * their current score windows whenever a match is requested.
 */
module Matchmaking {
  import opened Stats

  /** The number of players FindMatch selects, hard-coded in the source. */
  const MatchSize: nat := 2

  /** The current skill of a player, as CalculateSkill computes it: the
      mean of the player's window, 0 before any score is recorded. */
  function SkillOf(p: PlayerStats): (r: real)
    reads p
    ensures p.Scores == [] ==> r == 0.0
    ensures r * (|p.Scores| as real) == Sum(p.Scores) as real
  {
    Mean(p.Scores)
  }

  /** Players in ascending order of skill; equal skills may come in any order. */
  ghost predicate SortedBySkill(s: seq<PlayerStats>)
    reads s
  {
    forall i, j :: 0 <= i < j < |s| ==> SkillOf(s[i]) <= SkillOf(s[j])
  }

  /** No player of `pool` left out of `m` has a lower skill than a player in `m`.
      A player is left out when the pool holds more copies of it than `m`
      does, so a player registered twice counts as two candidates. */
  ghost predicate LowestSkills(pool: seq<PlayerStats>, m: seq<PlayerStats>)
    reads pool, m
  {
    forall i, j :: 0 <= i < |m| && 0 <= j < |pool| && multiset(m)[pool[j]] < multiset(pool)[pool[j]] ==>
      SkillOf(m[i]) <= SkillOf(pool[j])
  }

  /** What a match drawn from `pool` is: min(MatchSize, |pool|) of its players,
      taken from the pool, the lowest-skilled ones, in ascending order of skill. */
  ghost predicate IsMatch(pool: seq<PlayerStats>, m: seq<PlayerStats>)
    reads pool, m
  {
    && |m| == (if |pool| < MatchSize then |pool| else MatchSize)
    && multiset(m) <= multiset(pool)
    && SortedBySkill(m)
    && LowestSkills(pool, m)
  }

  /** Sorts an array of players in place by ascending skill (insertion sort).
      Like the engine's sort, it promises nothing about the order of equal skills. */
  method SortBySkill(a: array<PlayerStats>)
    modifies a
    ensures SortedBySkill(a[..])
    ensures multiset(a[..]) == multiset(old(a[..]))
  {
    for i := 0 to a.Length
      invariant SortedBySkill(a[..i])
      invariant multiset(a[..]) == multiset(old(a[..]))
    {
      InsertBySkill(a, i);
    }
    assert a[..a.Length] == a[..];
  }

  /** One insertion-sort step: moves a[i] left past every player of higher
      skill, so that a[..i + 1] is sorted when a[..i] was. */
  method InsertBySkill(a: array<PlayerStats>, i: nat)
    requires i < a.Length && SortedBySkill(a[..i])
    modifies a
    ensures SortedBySkill(a[..i + 1])
    ensures multiset(a[..]) == multiset(old(a[..]))
    ensures a[i + 1..] == old(a[i + 1..])
  {
    var j := i;
    InsertingStart(a[..], i);
    while j > 0 && Matchmaker.CompareSkill(a[j], a[j - 1])
      invariant 0 <= j && Inserting(a[..], i, j)
      invariant multiset(a[..]) == multiset(old(a[..]))
      invariant a[i + 1..] == old(a[i + 1..])
    {
      InsertingStep(a[..], i, j);
      SwapWithPrevious(a, j);
      j := j - 1;
    }
    InsertingDone(a[..], i, j);
  }

  /** Exchanges a[j - 1] and a[j]. */
  method SwapWithPrevious(a: array<PlayerStats>, j: nat)
    requires 0 < j < a.Length
    modifies a
    ensures a[..] == old(a[..])[j - 1 := old(a[j])][j := old(a[j - 1])]
    ensures multiset(a[..]) == multiset(old(a[..]))
  {
    a[j - 1], a[j] := a[j], a[j - 1];
  }

  /** The state of InsertBySkill's loop: the player being inserted sits at
      `j`, every other player of s[..i + 1] is in order, and every player
      it has already passed has a higher skill. */
  ghost predicate Inserting(s: seq<PlayerStats>, i: nat, j: nat)
    reads s
  {
    && j <= i < |s|
    && (forall k, l :: 0 <= k < l <= i && k != j && l != j ==> SkillOf(s[k]) <= SkillOf(s[l]))
    && (forall l :: j < l <= i ==> SkillOf(s[j]) < SkillOf(s[l]))
  }

  lemma InsertingStart(s: seq<PlayerStats>, i: nat)
    requires i < |s| && SortedBySkill(s[..i])
    ensures Inserting(s, i, i)
  {
    assert forall k :: 0 <= k < i ==> s[..i][k] == s[k];
  }

  lemma InsertingStep(s: seq<PlayerStats>, i: nat, j: nat)
    requires Inserting(s, i, j) && 0 < j && SkillOf(s[j]) < SkillOf(s[j - 1])
    ensures Inserting(s[j - 1 := s[j]][j := s[j - 1]], i, j - 1)
  {
  }

  lemma InsertingDone(s: seq<PlayerStats>, i: nat, j: nat)
    requires Inserting(s, i, j) && (j == 0 || SkillOf(s[j - 1]) <= SkillOf(s[j]))
    ensures SortedBySkill(s[..i + 1])
  {
  }

  /** A player that the first `k` entries of `s` hold fewer times than `s`
      itself occurs at or after position `k`. */
  lemma LeftOutOfPrefix(s: seq<PlayerStats>, k: nat, y: PlayerStats)
    requires k <= |s| && multiset(s[..k])[y] < multiset(s)[y]
    ensures exists l :: k <= l < |s| && s[l] == y
  {
    assert s == s[..k] + s[k..];
    assert multiset(s) == multiset(s[..k]) + multiset(s[k..]);
    assert y in s[k..];
    var l :| 0 <= l < |s| - k && s[k..][l] == y;
    assert s[k + l] == y;
  }

  /** The first `k` players of a sorted sequence are sorted, drawn from it,
      and no player left out of them has a lower skill. */
  lemma SortedPrefixIsLowest(s: seq<PlayerStats>, k: nat)
    requires SortedBySkill(s) && k <= |s|
    ensures SortedBySkill(s[..k])
    ensures multiset(s[..k]) <= multiset(s)
    ensures LowestSkills(s, s[..k])
  {
    assert s == s[..k] + s[k..];
    forall i, j | 0 <= i < k && 0 <= j < |s| && multiset(s[..k])[s[j]] < multiset(s)[s[j]]
      ensures SkillOf(s[..k][i]) <= SkillOf(s[j])
    {
      LeftOutOfPrefix(s, k, s[j]);
      var l :| k <= l < |s| && s[l] == s[j];
      assert s[..k][i] == s[i];
    }
  }

  /** The first player of a match has the lowest skill in the whole pool. */
  lemma MatchHeadIsLowest(pool: seq<PlayerStats>, m: seq<PlayerStats>)
    requires IsMatch(pool, m) && |m| > 0
    ensures forall j :: 0 <= j < |pool| ==> SkillOf(m[0]) <= SkillOf(pool[j])
  {
    forall j | 0 <= j < |pool|
      ensures SkillOf(m[0]) <= SkillOf(pool[j])
    {
      if multiset(m)[pool[j]] >= multiset(pool)[pool[j]] {
        assert pool[j] in multiset(m);
        var l :| 0 <= l < |m| && m[l] == pool[j];
      }
    }
  }

  lemma PairMultiset(s: seq<PlayerStats>)
    requires |s| == 2
    ensures multiset(s) == multiset{s[0]} + multiset{s[1]}
  {
    assert s == [s[0]] + [s[1]];
  }

  /** Two matches drawn from the same pool start with players of equal skill. */
  lemma HeadsAgree(pool: seq<PlayerStats>, m1: seq<PlayerStats>, m2: seq<PlayerStats>)
    requires IsMatch(pool, m1) && IsMatch(pool, m2) && |m1| > 0
    ensures SkillOf(m1[0]) == SkillOf(m2[0])
  {
    MatchHeadIsLowest(pool, m1);
    MatchHeadIsLowest(pool, m2);
    assert m1[0] in multiset(pool) && m2[0] in multiset(pool);
    var j1 :| 0 <= j1 < |pool| && pool[j1] == m1[0];
    var j2 :| 0 <= j2 < |pool| && pool[j2] == m2[0];
  }

  /** Of two matches of size two drawn from the same pool, the second player
      of one is never of lower skill than the second player of the other
      and vice versa, whichever of several equal-skill players each took. */
  lemma SecondNotAbove(pool: seq<PlayerStats>, m1: seq<PlayerStats>, m2: seq<PlayerStats>)
    requires IsMatch(pool, m1) && IsMatch(pool, m2) && |m1| == 2
    ensures SkillOf(m2[1]) <= SkillOf(m1[1])
  {
    var a, b := m1[0], m1[1];
    PairMultiset(m1);
    PairMultiset(m2);
    if multiset(m2)[b] >= multiset(pool)[b] && b == m2[0] && multiset(m2)[a] >= multiset(pool)[a] {
      if a == b {
        assert multiset(m2)[a] >= 2;
      } else {
        assert a in multiset(m2);
      }
    }
  }

  /** Any two matches drawn from the same pool, with no change to it or to any
      player's scores in between, list the same skills in the same order, so
      two FindMatch calls agree up to which of several equal-skill players
      they pick. */
  lemma MatchSkillsAgree(pool: seq<PlayerStats>, m1: seq<PlayerStats>, m2: seq<PlayerStats>)
    requires IsMatch(pool, m1) && IsMatch(pool, m2)
    ensures |m1| == |m2|
    ensures forall i :: 0 <= i < |m1| ==> SkillOf(m1[i]) == SkillOf(m2[i])
  {
    forall i | 0 <= i < |m1|
      ensures SkillOf(m1[i]) == SkillOf(m2[i])
    {
      if i == 0 {
        HeadsAgree(pool, m1, m2);
      } else {
        SecondNotAbove(pool, m1, m2);
        SecondNotAbove(pool, m2, m1);
      }
    }
  }

  /** An empty pool gives an empty match and a one-player pool gives that player. */
  lemma SmallPoolMatch(pool: seq<PlayerStats>, m: seq<PlayerStats>)
    requires IsMatch(pool, m) && |pool| <= 1
    ensures m == pool
  {
    if |pool| == 1 {
      assert m[0] in multiset(pool);
    }
  }

  /** Players of skills 30, 10 and 20, registered in that order, give the
      10-player then the 20-player. */
  lemma ThreePlayerMatch(p30: PlayerStats, p10: PlayerStats, p20: PlayerStats, m: seq<PlayerStats>)
    requires SkillOf(p30) == 30.0 && SkillOf(p10) == 10.0 && SkillOf(p20) == 20.0
    requires IsMatch([p30, p10, p20], m)
    ensures m == [p10, p20]
  {
    var pool := [p30, p10, p20];
    assert p10 in pool;
    MatchHeadIsLowest(pool, m);
    assert m[0] in multiset(pool) && m[1] in multiset(pool);
    assert m[0] == p10;
    PairMultiset(m);
    assert p20 in multiset(pool);
  }

  /** The comparison FindMatch sorts with is a strict weak order on players:
      irreflexive, transitive, and "neither is lower" means equal skill. */
  lemma CompareSkillIsStrictWeakOrder(a: PlayerStats, b: PlayerStats, c: PlayerStats)
    ensures !Matchmaker.CompareSkill(a, a)
    ensures Matchmaker.CompareSkill(a, b) && Matchmaker.CompareSkill(b, c) ==> Matchmaker.CompareSkill(a, c)
    ensures Matchmaker.CompareSkill(a, b) ==> !Matchmaker.CompareSkill(b, a)
    ensures !Matchmaker.CompareSkill(a, b) && !Matchmaker.CompareSkill(b, a) <==> SkillOf(a) == SkillOf(b)
  {
  }

  /** The matchmaker: a pool of registered players. */
  class Matchmaker {
    var Players: seq<PlayerStats>

    constructor ()
      ensures Players == []
    {
      Players := [];
    }

    /** Strict comparison of two players by their current skill: true when
        the mean of `a`'s window is below the mean of `b`'s. */
    static function CompareSkill(a: PlayerStats, b: PlayerStats): (r: bool)
      reads a, b
      ensures a == b ==> !r
      ensures r <==> Mean(a.Scores) < Mean(b.Scores)
    {
      SkillOf(a) < SkillOf(b)
    }

    method AddPlayer(player: PlayerStats)
      modifies this
      ensures Players == old(Players) + [player]
    {
      Players := Players + [player];
    }

    /** Copies the pool, sorts the copy by skill and takes its first MatchSize
        players. Nothing is modified: the pool and every player's scores are
        left as they were. */
    method FindMatch() returns (m: seq<PlayerStats>)
      ensures IsMatch(Players, m)
    {
      var pool := Players;
      var sorted := new PlayerStats[|pool|](i requires 0 <= i < |pool| => pool[i]);
      assert sorted[..] == pool;
      SortBySkill(sorted);
      m := [];
      var i := 0;
      while i < MatchSize && i < sorted.Length
        invariant i <= sorted.Length
        invariant i <= MatchSize
        invariant m == sorted[..i]
      {
        m := m + [sorted[i]];
        i := i + 1;
      }
      SortedPrefixIsLowest(sorted[..], i);
    }

    /** Two FindMatch calls with nothing in between: since FindMatch changes
        neither the pool nor any scores, both results are matches of the same
        pool and so list the same skills in the same order. */
    method FindMatchTwice() returns (m1: seq<PlayerStats>, m2: seq<PlayerStats>)
      ensures |m1| == |m2|
      ensures forall i :: 0 <= i < |m1| ==> SkillOf(m1[i]) == SkillOf(m2[i])
    {
      m1 := FindMatch();
      m2 := FindMatch();
      MatchSkillsAgree(Players, m1, m2);
    }
  }
}
