/**
 * The Swiss standings table (recomputed from every round) and the finish
 * step that turns it into a competition-ranked 1v1 result.
 */
module SwissStandings {
  import opened Wrappers
  import opened Sorting
  import opened Roster
  import opened Swiss
  import opened GameResults

  /** A standings row: `{ ...p, wins: 0, losses: 0 }` as far as the table reads it. */
  datatype Standing = Standing(id: string, name: string, wins: int, losses: int)

  function Blank(ps: seq<SwissPlayer>): (r: seq<Standing>)
    ensures |r| == |ps|
    ensures forall i :: 0 <= i < |ps| ==> r[i] == Standing(ps[i].id, ps[i].name, 0, 0)
  {
    seq(|ps|, i requires 0 <= i < |ps| => Standing(ps[i].id, ps[i].name, 0, 0))
  }

  predicate DistinctRowIds(rs: seq<Standing>) {
    forall i, j :: 0 <= i < j < |rs| ==> rs[i].id != rs[j].id
  }

  predicate FirstRow(rs: seq<Standing>, i: int, id: string)
    requires 0 <= i < |rs|
  {
    rs[i].id == id && forall j :: 0 <= j < i ==> rs[j].id != id
  }

  /** `winner.wins++` on the row `.find` returns. */
  function AddWin(rs: seq<Standing>, id: string): (r: seq<Standing>)
    ensures |r| == |rs|
  {
    seq(|rs|, i requires 0 <= i < |rs| => if FirstRow(rs, i, id) then rs[i].(wins := rs[i].wins + 1) else rs[i])
  }

  /** `loser.losses++` on the row `.find` returns. */
  function AddLoss(rs: seq<Standing>, id: string): (r: seq<Standing>)
    ensures |r| == |rs|
  {
    seq(|rs|, i requires 0 <= i < |rs| => if FirstRow(rs, i, id) then rs[i].(losses := rs[i].losses + 1) else rs[i])
  }

  /**
   * The seat charged with a loss: for a decided match against a real
   * opponent, `p2` if `p1` won and `p1` otherwise.  A BYE charges nobody.
   */
  function LoserOf(m: Match): Option<string> {
    if m.winner.Some? && m.p2.Vs? then Some(if m.p1 == m.winner.value then m.p2.id else m.p1) else None
  }

  /** One decided match counted into the table. */
  function TallyMatch(rs: seq<Standing>, m: Match): (r: seq<Standing>)
    ensures |r| == |rs|
  {
    if m.winner.None? then rs
    else
      var rs1 := AddWin(rs, m.winner.value);
      if LoserOf(m).Some? then AddLoss(rs1, LoserOf(m).value) else rs1
  }

  /** All matches counted in order (a left fold, written from the end). */
  function TallyAll(rs: seq<Standing>, ms: seq<Match>): (r: seq<Standing>)
    ensures |r| == |rs|
  {
    if ms == [] then rs else TallyMatch(TallyAll(rs, ms[..|ms| - 1]), ms[|ms| - 1])
  }

  /** The number of matches charged as a loss to `id`. */
  function Lost(ms: seq<Match>, id: string): nat {
    if ms == [] then 0 else Lost(ms[..|ms| - 1], id) + (if LoserOf(ms[|ms| - 1]) == Some(id) then 1 else 0)
  }

  /** The comparator `b.wins - a.wins || a.losses - b.losses`. */
  function StandingKey(s: Standing): SortKey {
    SortKey(s.wins, -s.losses)
  }

  /** The `standings` memo: the table over every round, sorted. */
  function StandingsSpec(t: Tournament): (r: seq<Standing>)
    ensures |r| == |t.players|
    ensures multiset(r) == multiset(TallyAll(Blank(t.players), Flat(t.rounds)))
    ensures forall i, j :: 0 <= i < j < |r| ==>
      r[i].wins > r[j].wins || (r[i].wins == r[j].wins && r[i].losses <= r[j].losses)
  {
    var r := SortBy(TallyAll(Blank(t.players), Flat(t.rounds)), StandingKey);
    assert forall i, j :: 0 <= i < j < |r| ==> !Precedes(StandingKey(r[j]), StandingKey(r[i]));
    r
  }

  lemma {:induction false} TallyAllConcat(rs: seq<Standing>, a: seq<Match>, b: seq<Match>)
    ensures TallyAll(rs, a + b) == TallyAll(TallyAll(rs, a), b)
    decreases |b|
  {
    if b == [] {
      assert a + b == a;
    } else {
      assert (a + b)[..|a + b| - 1] == a + b[..|b| - 1];
      TallyAllConcat(rs, a, b[..|b| - 1]);
    }
  }

  /** The inner `round.matches.forEach`. */
  method TallyRound(rs: seq<Standing>, ms: seq<Match>) returns (r: seq<Standing>)
    ensures r == TallyAll(rs, ms)
  {
    r := rs;
    for k := 0 to |ms|
      invariant r == TallyAll(rs, ms[..k])
    {
      assert ms[..k + 1][..k] == ms[..k];
      r := TallyMatch(r, ms[k]);
    }
    assert ms[..|ms|] == ms;
  }

  /** The `standings` computation: fresh rows, every round's decided matches, then the sort. */
  method Standings(t: Tournament) returns (r: seq<Standing>)
    ensures r == StandingsSpec(t)
  {
    var records := Blank(t.players);
    for ri := 0 to |t.rounds|
      invariant records == TallyAll(Blank(t.players), Flat(t.rounds[..ri]))
    {
      assert t.rounds[..ri + 1][..ri] == t.rounds[..ri];
      TallyAllConcat(Blank(t.players), Flat(t.rounds[..ri]), t.rounds[ri].matches);
      records := TallyRound(records, t.rounds[ri].matches);
    }
    assert t.rounds[..|t.rounds|] == t.rounds;
    r := SortBy(records, StandingKey);
  }

  // ------------------------------------------------------------ Per player

  lemma {:induction false} AddWinAt(rs: seq<Standing>, id: string, i: int)
    requires DistinctRowIds(rs) && 0 <= i < |rs|
    ensures AddWin(rs, id)[i] == if rs[i].id == id then rs[i].(wins := rs[i].wins + 1) else rs[i]
  {
    assert FirstRow(rs, i, id) <==> rs[i].id == id;
  }

  lemma {:induction false} AddLossAt(rs: seq<Standing>, id: string, i: int)
    requires DistinctRowIds(rs) && 0 <= i < |rs|
    ensures AddLoss(rs, id)[i] == if rs[i].id == id then rs[i].(losses := rs[i].losses + 1) else rs[i]
  {
    assert FirstRow(rs, i, id) <==> rs[i].id == id;
  }

  lemma {:induction false} TallyMatchAt(rs: seq<Standing>, m: Match, i: int)
    requires DistinctRowIds(rs) && 0 <= i < |rs|
    ensures TallyMatch(rs, m)[i] == rs[i].(wins := rs[i].wins + (if m.winner == Some(rs[i].id) then 1 else 0),
                                           losses := rs[i].losses + (if LoserOf(m) == Some(rs[i].id) then 1 else 0))
    ensures DistinctRowIds(TallyMatch(rs, m))
  {
    var r := TallyMatch(rs, m);
    if m.winner.Some? {
      var rs1 := AddWin(rs, m.winner.value);
      forall j | 0 <= j < |rs| ensures rs1[j].id == rs[j].id { AddWinAt(rs, m.winner.value, j); }
      AddWinAt(rs, m.winner.value, i);
      if LoserOf(m).Some? {
        AddLossAt(rs1, LoserOf(m).value, i);
        forall j | 0 <= j < |rs| ensures r[j].id == rs[j].id { AddLossAt(rs1, LoserOf(m).value, j); }
      }
    }
  }

  /**
   * Each row counts exactly the matches its player won and the matches
   * charged to it as a loss (App.js:376-385).
   */
  lemma {:induction false} TallyAt(ps: seq<SwissPlayer>, ms: seq<Match>, i: int)
    requires DistinctSwissIds(ps) && 0 <= i < |ps|
    ensures DistinctRowIds(TallyAll(Blank(ps), ms))
    ensures TallyAll(Blank(ps), ms)[i] == Standing(ps[i].id, ps[i].name, Won(ms, ps[i].id), Lost(ms, ps[i].id))
    decreases |ms|
  {
    if ms != [] {
      var front := ms[..|ms| - 1];
      TallyAt(ps, front, i);
      TallyMatchAt(TallyAll(Blank(ps), front), ms[|ms| - 1], i);
    }
  }

  /**
   * When the recorded winner sits in the match and the two seats differ, a
   * loss is charged exactly to the seated player who did not win, and never
   * for a BYE.
   */
  lemma {:induction false} LoserIsOtherSeat(m: Match, id: string)
    requires m.winner.Some? ==> m.winner.value in Seats(m)
    requires m.p2.Vs? ==> m.p1 != m.p2.id
    ensures LoserOf(m) == Some(id) <==> m.winner.Some? && m.p2.Vs? && id in Seats(m) && m.winner != Some(id)
  {
  }

  // ----------------------------------------------------------------- Finish

  /** Same wins and same losses: the two rows tie. */
  predicate Tied(a: Standing, b: Standing) {
    a.wins == b.wins && a.losses == b.losses
  }

  /** The rank `handleFinishTournament` assigns at position `i`. */
  function RankAt(st: seq<Standing>, i: nat): (r: nat)
    requires i < |st|
    ensures 1 <= r <= i + 1
  {
    if i == 0 then 1 else if Tied(st[i], st[i - 1]) then RankAt(st, i - 1) else i + 1
  }

  /** One result row: `maxPoints - rank + 1` points and the 1v1 record. */
  function FinishEntry(st: seq<Standing>, i: nat, rosterSize: int): ResultEntry
    requires i < |st|
  {
    ResultEntry(st[i].id, st[i].name, rosterSize - RankAt(st, i) + 1, RankAt(st, i), Some(WinLoss(st[i].wins, st[i].losses)))
  }

  function FinishSpec(st: seq<Standing>, rosterSize: int, date: string): (r: GameResult)
    ensures r.gameName == "1v1 Tournament - " + date && r.gameType == OneVsOne
    ensures |r.results| == |st|
    ensures forall i :: 0 <= i < |st| ==> r.results[i].id == st[i].id && r.results[i].name == st[i].name
    ensures forall i :: 0 <= i < |st| ==> r.results[i].rank == RankAt(st, i)
    ensures forall i :: 0 <= i < |st| ==> r.results[i].points == rosterSize - r.results[i].rank + 1
    ensures forall i :: 0 <= i < |st| ==> r.results[i].record == Some(WinLoss(st[i].wins, st[i].losses))
  {
    GameResult("1v1 Tournament - " + date, OneVsOne, seq(|st|, i requires 0 <= i < |st| => FinishEntry(st, i, rosterSize)))
  }

  /** `handleFinishTournament`: the `for` loop carrying `currentRank` and pushing results. */
  method FinishTournament(standings: seq<Standing>, rosterSize: int, date: string) returns (res: GameResult)
    ensures res == FinishSpec(standings, rosterSize, date)
  {
    var results: seq<ResultEntry> := [];
    var currentRank := 1;
    for i := 0 to |standings|
      invariant |results| == i
      invariant forall k :: 0 <= k < i ==> results[k] == FinishEntry(standings, k, rosterSize)
    {
      var player := standings[i];
      var rankToAssign := currentRank;
      if i > 0 && player.wins == standings[i - 1].wins && player.losses == standings[i - 1].losses {
        rankToAssign := results[i - 1].rank;
      } else {
        rankToAssign := i + 1;
        currentRank := i + 1;
      }
      results := results + [ResultEntry(player.id, player.name, rosterSize - rankToAssign + 1, rankToAssign,
                                        Some(WinLoss(player.wins, player.losses)))];
    }
    res := GameResult("1v1 Tournament - " + date, OneVsOne, results);
  }

  /**
   * On a sorted table the rank is competition ranking: the players strictly
   * ahead of position `i` are exactly the first `rank - 1`.
   */
  lemma {:induction false} RankCountsBetter(st: seq<Standing>, i: nat)
    requires i < |st| && SortedBy(st, StandingKey)
    ensures forall j :: 0 <= j < |st| ==> (Precedes(StandingKey(st[j]), StandingKey(st[i])) <==> j < RankAt(st, i) - 1)
    decreases i
  {
    var r := RankAt(st, i);
    if i > 0 && Tied(st[i], st[i - 1]) {
      RankCountsBetter(st, i - 1);
      assert StandingKey(st[i]) == StandingKey(st[i - 1]);
    } else {
      forall j | 0 <= j < |st| ensures Precedes(StandingKey(st[j]), StandingKey(st[i])) <==> j < r - 1 {
        if j < i {
          assert !Precedes(StandingKey(st[i]), StandingKey(st[j]));
          if j == i - 1 {
            assert !Tied(st[i], st[i - 1]);
          } else {
            assert !Precedes(StandingKey(st[i - 1]), StandingKey(st[j]));
            assert !Precedes(StandingKey(st[i]), StandingKey(st[i - 1]));
          }
        } else if j > i {
          assert !Precedes(StandingKey(st[j]), StandingKey(st[i]));
        }
      }
    }
  }

  /** Two players share a rank exactly when they tie on wins and losses. */
  lemma {:induction false} RankTies(st: seq<Standing>, i: nat, j: nat)
    requires i < |st| && j < |st| && SortedBy(st, StandingKey)
    ensures RankAt(st, i) == RankAt(st, j) <==> Tied(st[i], st[j])
  {
    RankCountsBetter(st, i);
    RankCountsBetter(st, j);
    if Tied(st[i], st[j]) {
      assert StandingKey(st[i]) == StandingKey(st[j]);
      var p, q := RankAt(st, i) - 1, RankAt(st, j) - 1;
      var m := if p < q then p else q;
      assert Precedes(StandingKey(st[m]), StandingKey(st[i])) == Precedes(StandingKey(st[m]), StandingKey(st[j]));
    } else {
      var a := StandingKey(st[i]);
      var b := StandingKey(st[j]);
      assert a != b;
      if Precedes(a, b) {
        assert i < RankAt(st, j) - 1;
        assert !(i < RankAt(st, i) - 1) by { assert !Precedes(a, a); }
      } else {
        assert Precedes(b, a);
        assert j < RankAt(st, i) - 1;
        assert !(j < RankAt(st, j) - 1) by { assert !Precedes(b, b); }
      }
    }
  }

  /** Ranks never go down the table, so points never go up it. */
  lemma {:induction false} RankMonotone(st: seq<Standing>, i: nat, j: nat)
    requires i <= j < |st| && SortedBy(st, StandingKey)
    ensures RankAt(st, i) <= RankAt(st, j)
  {
    RankCountsBetter(st, i);
    RankCountsBetter(st, j);
    var k := RankAt(st, j) - 1;
    assert !Precedes(StandingKey(st[k]), StandingKey(st[j]));
    if i < j {
      assert !Precedes(StandingKey(st[j]), StandingKey(st[i]));
    }
    assert !Precedes(StandingKey(st[k]), StandingKey(st[i]));
  }

  /**
   * On the tournament's own standings, with the roster size as the scale,
   * every player gets between 1 and `n` points and the leader gets `n`.
   */
  lemma {:induction false} FinishPointsRange(t: Tournament, date: string)
    requires |t.players| > 0
    ensures var r := FinishSpec(StandingsSpec(t), |t.players|, date).results;
      (forall i :: 0 <= i < |r| ==> 1 <= r[i].points <= |t.players|) && r[0].points == |t.players| && r[0].rank == 1
  {
  }
}
