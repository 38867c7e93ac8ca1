/** The free-for-all game: one score per player, ranked on the fixed scale. */
module FreeForAllGame {
  import opened Sorting
  import opened Roster
  import opened GameResults

  datatype FfaState = FfaState(players: seq<Player>, scores: map<string, int>)

  /** `createFreeForAllGame`: the roster as it is, every score at 0. */
  method CreateFreeForAllGame(players: seq<Player>) returns (g: FfaState)
    ensures g.players == players && g.scores == ZeroMap(players)
  {
    var initialScores := ZeroScores(players);
    g := FfaState(players, initialScores);
  }

  /**
   * The ranking `handleFinish` builds: players by score, ties in roster order.
   * `JustFu.RankFinal` is the same sort on one Just Fu final; both name the
   * shared `Roster.RankByScore` on their own game's state.
   */
  function FfaRanking(g: FfaState): (r: seq<Player>)
    ensures multiset(r) == multiset(g.players)
    ensures forall i, j :: 0 <= i < j < |r| ==> ScoreOf(g.scores, r[i].id) >= ScoreOf(g.scores, r[j].id)
  {
    RankByScore(g.players, g.scores)
  }

  /** `FreeForAllGame.handleFinish`: rank i + 1 and `n - i` points down the ranking. */
  function FfaFinish(g: FfaState): (r: GameResult)
    ensures r.gameName == "Free For All" && r.gameType == FreeForAll
    ensures r.results == Positional(FfaRanking(g))
  {
    GameResult("Free For All", FreeForAll, Positional(FfaRanking(g)))
  }

  /**
   * Every player gets exactly one result row, and a strictly higher score
   * always earns strictly more points.
   */
  lemma {:induction false} FfaFinishFair(g: FfaState)
    ensures multiset(EntryIds(FfaFinish(g).results)) == multiset(Ids(g.players))
    ensures var r := FfaFinish(g).results;
      forall i, j :: 0 <= i < |r| && 0 <= j < |r| && ScoreOf(g.scores, r[i].id) > ScoreOf(g.scores, r[j].id) ==>
        r[i].points > r[j].points
  {
    var rank := FfaRanking(g);
    IdsPermutation(rank, g.players);
    var r := FfaFinish(g).results;
    assert forall i :: 0 <= i < |r| ==> r[i].id == rank[i].id by {
      assert EntryIds(r) == Ids(rank);
    }
  }

  /** A game finished with every score still 0 ranks the players in roster order. */
  lemma {:induction false} FfaUnscoredKeepsRosterOrder(players: seq<Player>)
    ensures FfaRanking(FfaState(players, ZeroMap(players))) == players
  {
    var scores := ZeroMap(players);
    forall i | 0 <= i < |players| ensures ScoreKey(scores)(players[i]) == SortKey(0, 0) {
    }
    SortByConstant(players, ScoreKey(scores), SortKey(0, 0));
  }
}
