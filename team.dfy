/**
 * The team-based game: an alternating split of the ranked roster into two
 * teams, and points in proportion to the losing team's score.
 */
module TeamGame {
  import opened Wrappers
  import opened Sorting
  import opened Roster
  import opened GameResults

  datatype TeamState = TeamState(teamA: seq<Player>, teamB: seq<Player>, scoreA: int, scoreB: int)

  /** The players at even positions: 0, 2, 4, ... */
  function Evens(s: seq<Player>): (r: seq<Player>)
    ensures |r| == (|s| + 1) / 2
    ensures forall k :: 0 <= k < |r| ==> r[k] == s[2 * k]
  {
    seq((|s| + 1) / 2, k requires 0 <= k < (|s| + 1) / 2 => s[2 * k])
  }

  /** The players at odd positions: 1, 3, 5, ... */
  function Odds(s: seq<Player>): (r: seq<Player>)
    ensures |r| == |s| / 2
    ensures forall k :: 0 <= k < |r| ==> r[k] == s[2 * k + 1]
  {
    seq(|s| / 2, k requires 0 <= k < |s| / 2 => s[2 * k + 1])
  }

  /** `createTeamBasedGame`: rank by points, then even positions to team A and odd ones to team B. */
  method CreateTeamBasedGame(players: seq<Player>) returns (g: TeamState)
    ensures g.teamA == Evens(RankByPoints(players)) && g.teamB == Odds(RankByPoints(players))
    ensures g.scoreA == 0 && g.scoreB == 0
  {
    var sorted := RankByPoints(players);
    var teamA: seq<Player> := [];
    var teamB: seq<Player> := [];
    for index := 0 to |sorted|
      invariant |teamA| == (index + 1) / 2 && |teamB| == index / 2
      invariant forall k :: 0 <= k < |teamA| ==> teamA[k] == sorted[2 * k]
      invariant forall k :: 0 <= k < |teamB| ==> teamB[k] == sorted[2 * k + 1]
    {
      if index % 2 == 0 {
        teamA := teamA + [sorted[index]];
      } else {
        teamB := teamB + [sorted[index]];
      }
    }
    g := TeamState(teamA, teamB, 0, 0);
  }

  lemma {:induction false} EvensOddsPartition(s: seq<Player>)
    ensures multiset(Evens(s)) + multiset(Odds(s)) == multiset(s)
    decreases |s|
  {
    if |s| >= 2 {
      var t := s[2..];
      EvensOddsPartition(t);
      EvensCons(s, t);
      OddsCons(s, t);
      PairJoin(s[0], s[1], Evens(t), Odds(t), t, Evens(s), Odds(s), s);
    } else if |s| == 1 {
      assert Evens(s) == s;
    }
  }

  lemma {:induction false} EvensCons(s: seq<Player>, t: seq<Player>)
    requires |s| >= 2 && t == s[2..]
    ensures Evens(s) == [s[0]] + Evens(t)
  {
    var a, b := Evens(s), [s[0]] + Evens(t);
    forall k | 0 <= k < |a| ensures a[k] == b[k] {
      if k > 0 { assert b[k] == Evens(t)[k - 1] == t[2 * (k - 1)]; }
    }
  }

  lemma {:induction false} OddsCons(s: seq<Player>, t: seq<Player>)
    requires |s| >= 2 && t == s[2..]
    ensures Odds(s) == [s[1]] + Odds(t)
  {
    var a, b := Odds(s), [s[1]] + Odds(t);
    forall k | 0 <= k < |a| ensures a[k] == b[k] {
      if k > 0 { assert b[k] == Odds(t)[k - 1] == t[2 * (k - 1) + 1]; }
    }
  }

  lemma {:induction false} PairJoin(x: Player, y: Player, e: seq<Player>, o: seq<Player>, t: seq<Player>,
                                    e': seq<Player>, o': seq<Player>, s: seq<Player>)
    requires multiset(e) + multiset(o) == multiset(t)
    requires e' == [x] + e && o' == [y] + o && |s| >= 2 && x == s[0] && y == s[1] && t == s[2..]
    ensures multiset(e') + multiset(o') == multiset(s)
  {
    assert s == [x, y] + t;
    assert multiset(s) == multiset{x, y} + multiset(t);
  }

  /**
   * The two teams split the roster: together they hold every player once,
   * team A is never smaller and never more than one larger, and each team A
   * seat has at least the points of the team B seat beside it.
   */
  lemma {:induction false} TeamSplit(players: seq<Player>)
    ensures var a := Evens(RankByPoints(players)); var b := Odds(RankByPoints(players));
      multiset(a) + multiset(b) == multiset(players)
      && |b| <= |a| <= |b| + 1
      && forall k :: 0 <= k < |b| ==> a[k].points >= b[k].points
  {
    var s := RankByPoints(players);
    EvensOddsPartition(s);
    forall k | 0 <= k < |Odds(s)| ensures Evens(s)[k].points >= Odds(s)[k].points {
      assert s[2 * k].points >= s[2 * k + 1].points;
    }
  }

  // ----------------------------------------------------------------- Finish

  /**
   * `Math.round(num / den)` on the exact quotient: the nearest integer, with
   * halves rounded up.
   */
  function RoundHalfUp(num: int, den: int): (r: int)
    requires den != 0
    ensures den > 0 ==> (2 * r - 1) * den <= 2 * num < (2 * r + 1) * den
    ensures den < 0 ==> (2 * r - 1) * -den <= -2 * num < (2 * r + 1) * -den
  {
    if den > 0 then (2 * num + den) / (2 * den) else (-2 * num - den) / (-2 * den)
  }

  /** Every member of `team` with the same points and rank. */
  function Award(team: seq<Player>, points: int, rank: int): (r: seq<ResultEntry>)
    ensures |r| == |team| && EntryIds(r) == Ids(team)
    ensures forall i :: 0 <= i < |r| ==> r[i].name == team[i].name && r[i].points == points && r[i].rank == rank && r[i].record == None
  {
    seq(|team|, i requires 0 <= i < |team| => ResultEntry(team[i].id, team[i].name, points, rank, None))
  }

  /** The tie list: every player 0 points, ranked by list position. */
  function TieResults(ps: seq<Player>): (r: seq<ResultEntry>)
    ensures |r| == |ps| && EntryIds(r) == Ids(ps)
    ensures forall i :: 0 <= i < |r| ==> r[i].name == ps[i].name && r[i].points == 0 && r[i].rank == i + 1 && r[i].record == None
  {
    seq(|ps|, i requires 0 <= i < |ps| => ResultEntry(ps[i].id, ps[i].name, 0, i + 1, None))
  }

  function Max(a: int, b: int): int { if a >= b then a else b }
  function Min(a: int, b: int): int { if a <= b then a else b }

  /** The team `handleFinish` ranks first: A only with a strictly higher score. */
  function Winners(g: TeamState): seq<Player> { if g.scoreA > g.scoreB then g.teamA else g.teamB }
  function Losers(g: TeamState): seq<Player> { if g.scoreA > g.scoreB then g.teamB else g.teamA }

  /** The losing team's share: `round(losing / winning * totalPlayers)`. */
  function LoserPoints(g: TeamState): int
    requires Max(g.scoreA, g.scoreB) != 0
  {
    RoundHalfUp(Min(g.scoreA, g.scoreB) * (|g.teamA| + |g.teamB|), Max(g.scoreA, g.scoreB))
  }

  /** `TeamBasedGame.handleFinish`. */
  function TeamFinish(g: TeamState): (r: GameResult)
    ensures r.gameType == Team && |r.results| == |g.teamA| + |g.teamB|
    ensures r.gameName == (if Max(g.scoreA, g.scoreB) == 0 then "Team Game (Tie)" else "Team Game")
    ensures Max(g.scoreA, g.scoreB) == 0 ==> r.results == TieResults(g.teamA + g.teamB)
    ensures Max(g.scoreA, g.scoreB) != 0 ==>
      r.results[..|Winners(g)|] == Award(Winners(g), |g.teamA| + |g.teamB|, 1)
      && r.results[|Winners(g)|..] == Award(Losers(g), LoserPoints(g), |Winners(g)| + 1)
  {
    var total := |g.teamA| + |g.teamB|;
    if Max(g.scoreA, g.scoreB) == 0 then
      GameResult("Team Game (Tie)", Team, TieResults(g.teamA + g.teamB))
    else
      var w := Award(Winners(g), total, 1);
      var l := Award(Losers(g), LoserPoints(g), |Winners(g)| + 1);
      assert (w + l)[..|w|] == w && (w + l)[|w|..] == l;
      GameResult("Team Game", Team, w + l)
  }

  /** Every player of both teams appears in the result exactly once per roster seat. */
  lemma {:induction false} TeamFinishCoversTeams(g: TeamState)
    ensures multiset(EntryIds(TeamFinish(g).results)) == multiset(Ids(g.teamA)) + multiset(Ids(g.teamB))
  {
    var r := TeamFinish(g).results;
    if Max(g.scoreA, g.scoreB) == 0 {
      IdsAppend(g.teamA, g.teamB, g.teamA + g.teamB);
    } else {
      var n := |Winners(g)|;
      EntryIdsSplit(r, n, r[..n], r[n..]);
      assert multiset(Ids(Winners(g))) + multiset(Ids(Losers(g))) == multiset(Ids(g.teamA)) + multiset(Ids(g.teamB));
    }
  }

  lemma {:induction false} IdsAppend(a: seq<Player>, b: seq<Player>, c: seq<Player>)
    requires c == a + b
    ensures Ids(c) == Ids(a) + Ids(b)
  {
  }

  lemma {:induction false} EntryIdsSplit(r: seq<ResultEntry>, n: nat, x: seq<ResultEntry>, y: seq<ResultEntry>)
    requires n <= |r| && x == r[..n] && y == r[n..]
    ensures EntryIds(r) == EntryIds(x) + EntryIds(y)
  {
  }

  lemma {:induction false} MulLess(a: int, b: int, d: int)
    requires d > 0 && a * d < b * d
    ensures a < b
  {
    assert (b - a) * d == b * d - a * d;
  }

  lemma {:induction false} MulLe(a: int, b: int, c: int)
    requires a <= b && c >= 0
    ensures a * c <= b * c
  {
    var x := b - a;
    assert x * c >= 0;
    assert x * c == b * c - a * c;
  }

  /** Rounding a quotient that is already an integer gives that integer back. */
  lemma {:induction false} RoundHalfUpExact(k: int, d: int)
    requires d != 0
    ensures RoundHalfUp(k * d, d) == k
  {
    var r := RoundHalfUp(k * d, d);
    if d > 0 {
      ExactQuotient(k, d, k * d, r);
    } else {
      assert -(k * d) == k * -d;
      ExactQuotient(k, -d, -(k * d), r);
    }
  }

  lemma {:induction false} ExactQuotient(k: int, e: int, n: int, r: int)
    requires e > 0 && n == k * e
    requires (2 * r - 1) * e <= 2 * n < (2 * r + 1) * e
    ensures r == k
  {
    assert 2 * n == (2 * k) * e;
    MulLess(2 * r - 1, 2 * k + 1, e);
    MulLess(2 * k, 2 * r + 1, e);
  }

  /** A quotient between 0 and `t` rounds to a value between 0 and `t`. */
  lemma {:induction false} RoundHalfUpBounds(n: int, d: int, t: int)
    requires d > 0 && 0 <= n <= t * d
    ensures 0 <= RoundHalfUp(n, d) <= t
  {
    var r := RoundHalfUp(n, d);
    MulLess(2 * r - 1, 2 * t + 1, d);
    assert 0 * d < (2 * r + 1) * d;
    MulLess(0, 2 * r + 1, d);
  }

  /**
   * With non-negative scores and a positive winning score, the losing team
   * gets between 0 and the winners' points, the full share when the scores
   * are equal, and nothing when it scored nothing.
   */
  lemma {:induction false} LoserPointsBounds(g: TeamState)
    requires g.scoreA >= 0 && g.scoreB >= 0 && Max(g.scoreA, g.scoreB) != 0
    ensures 0 <= LoserPoints(g) <= |g.teamA| + |g.teamB|
    ensures g.scoreA == g.scoreB ==> LoserPoints(g) == |g.teamA| + |g.teamB|
    ensures Min(g.scoreA, g.scoreB) == 0 ==> LoserPoints(g) == 0
  {
    var t := |g.teamA| + |g.teamB|;
    var l := Min(g.scoreA, g.scoreB);
    var w := Max(g.scoreA, g.scoreB);
    MulLe(l, w, t);
    assert l * t <= t * w;
    RoundHalfUpBounds(l * t, w, t);
    if l == w {
      assert l * t == t * w;
      RoundHalfUpExact(t, w);
    }
    if l == 0 {
      assert l * t == 0 * w;
      RoundHalfUpExact(0, w);
    }
  }

  /**
   * The losers get the full share exactly when their score is within half a
   * point per player of the winners' (the rounding of `Math.round`), so also
   * at some unequal scores: 99 to 100 with four players gives 3.96, rounded to 4.
   */
  lemma {:induction false} LoserPointsFull(g: TeamState)
    requires g.scoreA >= 0 && g.scoreB >= 0 && Max(g.scoreA, g.scoreB) != 0
    ensures LoserPoints(g) == |g.teamA| + |g.teamB| <==>
      (2 * (|g.teamA| + |g.teamB|) - 1) * Max(g.scoreA, g.scoreB) <= 2 * (Min(g.scoreA, g.scoreB) * (|g.teamA| + |g.teamB|))
  {
    var t := |g.teamA| + |g.teamB|;
    var l := Min(g.scoreA, g.scoreB);
    var w := Max(g.scoreA, g.scoreB);
    var r := LoserPoints(g);
    if (2 * t - 1) * w <= 2 * (l * t) {
      MulLe(l, w, t);
      assert 2 * (l * t) <= 2 * (w * t) < (2 * t + 1) * w;
      MulLess(2 * r - 1, 2 * t + 1, w);
      MulLess(2 * t - 1, 2 * r + 1, w);
    }
  }

  /** Four players, 99 to 100: the losers' share rounds up to the full 4. */
  lemma LoserPointsNearTie()
    ensures LoserPoints(TeamState([Player("a", "A", 0), Player("b", "B", 0)], [Player("c", "C", 0), Player("d", "D", 0)], 99, 100)) == 4
  {
  }

  /** Equal non-zero scores: team B is listed first at rank 1, but both teams get the same points. */
  lemma {:induction false} EqualScoresFavourB(g: TeamState)
    requires g.scoreA == g.scoreB && g.scoreA != 0
    ensures Winners(g) == g.teamB
    ensures forall i :: 0 <= i < |TeamFinish(g).results| ==> TeamFinish(g).results[i].points == |g.teamA| + |g.teamB|
  {
    var t := |g.teamA| + |g.teamB|;
    assert g.scoreA * t == t * g.scoreA;
    RoundHalfUpExact(t, g.scoreA);
    assert LoserPoints(g) == t;
    var res := TeamFinish(g).results;
    forall i | 0 <= i < |res| ensures res[i].points == t {
      if i < |g.teamB| {
        assert res[i] == res[..|g.teamB|][i];
      } else {
        assert res[i] == res[|g.teamB|..][i - |g.teamB|];
      }
    }
  }
}
