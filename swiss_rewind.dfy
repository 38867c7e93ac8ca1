/**
 * "Edit Previous Round": dropping the current round and rebuilding the
 * players' wins and opponents from the rounds that remain.
 *
 * The code replays every remaining round, including the one that becomes
 * current again; `handleNextRound` records that round a second time when it
 * is started again.  `GoBackAsWritten` models the code, `GoBackCorrected`
 * replays only the rounds before the new current one, and the lemmas below
 * show the difference.
 */
module SwissRewind {
  import opened Wrappers
  import opened Sorting
  import opened Roster
  import opened Swiss
  import opened SwissAdvance

  /**
   * The players carry exactly the decided matches of every round before the
   * current one: what `handleNextRound` leaves behind.
   */
  predicate Consistent(t: Tournament)
    requires |t.rounds| > 0
  {
    t.players == ReplayAll(Reset(t.players), Flat(t.rounds[..|t.rounds| - 1]))
  }

  /** The `onConfirm` of `handleGoBack`, as the code does it. */
  function GoBackAsWritten(t: Tournament): (r: Tournament)
    requires |t.rounds| > 1
    ensures r.rounds == t.rounds[..|t.rounds| - 1]
    ensures SwissIds(r.players) == SwissIds(t.players)
  {
    var rounds := t.rounds[..|t.rounds| - 1];
    Tournament(ReplayAll(Reset(t.players), Flat(rounds)), rounds)
  }

  /** The rewind as intended: the new current round is left for `handleNextRound` to record. */
  function GoBackCorrected(t: Tournament): (r: Tournament)
    requires |t.rounds| > 1
    ensures r.rounds == t.rounds[..|t.rounds| - 1]
    ensures SwissIds(r.players) == SwissIds(t.players)
  {
    var rounds := t.rounds[..|t.rounds| - 1];
    Tournament(ReplayAll(Reset(t.players), Flat(rounds[..|rounds| - 1])), rounds)
  }

  /** The two nested `forEach` loops: every decided match of every round, in order. */
  method ReplayRounds(players: seq<SwissPlayer>, rounds: seq<Round>) returns (r: seq<SwissPlayer>)
    ensures r == ReplayAll(players, Flat(rounds))
  {
    r := players;
    for ri := 0 to |rounds|
      invariant r == ReplayAll(players, Flat(rounds[..ri]))
    {
      assert rounds[..ri + 1][..ri] == rounds[..ri];
      ReplayAllConcat(players, Flat(rounds[..ri]), rounds[ri].matches);
      var ms := rounds[ri].matches;
      ghost var before := r;
      for k := 0 to |ms|
        invariant r == ReplayAll(before, ms[..k])
      {
        assert ms[..k + 1][..k] == ms[..k];
        if ms[k].winner.Some? {
          r := RecordMatch(r, ms[k]);
        }
      }
      assert ms[..|ms|] == ms;
    }
    assert rounds[..|rounds|] == rounds;
  }

  /** `handleGoBack` confirmed: pop the current round, reset, replay the rest. */
  method GoBack(t: Tournament) returns (r: Tournament)
    requires |t.rounds| > 1
    ensures r == GoBackAsWritten(t)
  {
    var rounds := t.rounds[..|t.rounds| - 1];
    var players := ReplayRounds(Reset(t.players), rounds);
    r := Tournament(players, rounds);
  }

  // ------------------------------------------------------------------ Algebra

  lemma {:induction false} ReplayAllConcat(ps: seq<SwissPlayer>, a: seq<Match>, b: seq<Match>)
    ensures ReplayAll(ps, a + b) == ReplayAll(ReplayAll(ps, a), b)
    decreases |b|
  {
    if b == [] {
      assert a + b == a;
    } else {
      assert (a + b)[..|a + b| - 1] == a + b[..|b| - 1];
      ReplayAllConcat(ps, a, b[..|b| - 1]);
    }
  }

  lemma {:induction false} ResetCredit(ps: seq<SwissPlayer>, id: string)
    ensures Reset(Credit(ps, id)) == Reset(ps)
  {
  }

  lemma {:induction false} ResetMeet(ps: seq<SwissPlayer>, id: string, other: string)
    ensures Reset(Meet(ps, id, other)) == Reset(ps)
  {
  }

  /** Recording a match touches only wins and opponents, which a reset clears. */
  lemma {:induction false} ResetRecordMatch(ps: seq<SwissPlayer>, m: Match)
    ensures Reset(RecordMatch(ps, m)) == Reset(ps)
  {
    var ps1 := if m.winner.Some? then Credit(ps, m.winner.value) else ps;
    if m.winner.Some? { ResetCredit(ps, m.winner.value); }
    if m.p2.Vs? && m.p1 in SwissIds(ps1) && m.p2.id in SwissIds(ps1) {
      ResetMeet(ps1, m.p1, m.p2.id);
      ResetMeet(Meet(ps1, m.p1, m.p2.id), m.p2.id, m.p1);
    }
  }

  lemma {:induction false} ResetRecordAll(ps: seq<SwissPlayer>, ms: seq<Match>)
    ensures Reset(RecordAll(ps, ms)) == Reset(ps)
    decreases |ms|
  {
    if ms != [] {
      ResetRecordAll(ps, ms[..|ms| - 1]);
      ResetRecordMatch(RecordAll(ps, ms[..|ms| - 1]), ms[|ms| - 1]);
    }
  }

  lemma {:induction false} ResetReplayAll(ps: seq<SwissPlayer>, ms: seq<Match>)
    ensures Reset(ReplayAll(ps, ms)) == Reset(ps)
    decreases |ms|
  {
    if ms != [] {
      ResetReplayAll(ps, ms[..|ms| - 1]);
      ResetRecordMatch(ReplayAll(ps, ms[..|ms| - 1]), ms[|ms| - 1]);
    }
  }

  lemma {:induction false} ResetReset(ps: seq<SwissPlayer>)
    ensures Reset(Reset(ps)) == Reset(ps)
  {
  }

  lemma {:induction false} FlatSnoc(rs: seq<Round>, r: Round)
    ensures Flat(rs + [r]) == Flat(rs) + r.matches
  {
    assert (rs + [r])[..|rs|] == rs;
  }

  // ---------------------------------------------------------- The invariant

  /** A freshly created tournament is consistent: nobody has played yet. */
  lemma {:induction false} CreateConsistent(players: seq<Player>, first: Round)
    ensures Consistent(Tournament(Enter(players), [first]))
  {
    var ps := Enter(players);
    assert [first][..0] == [];
    assert Reset(ps) == ps;
  }

  /** Choosing a winner changes only the current round, which the invariant does not read. */
  lemma {:induction false} SelectWinnerConsistent(t: Tournament, id: MatchId, who: string)
    requires |t.rounds| > 0 && Consistent(t)
    ensures Consistent(SelectWinner(t, id, who))
  {
  }

  /** Starting the next round from a complete round keeps the players in step. */
  lemma {:induction false} NextRoundConsistent(t: Tournament, draw: map<string, int>)
    requires |t.rounds| > 0 && Consistent(t) && RoundComplete(CurrentRound(t))
    ensures Consistent(NextRoundSpec(t, draw))
  {
    var t' := NextRoundSpec(t, draw);
    var ps := RecordAll(t.players, CurrentRound(t).matches);
    assert t'.players == ps;
    assert t'.rounds[..|t'.rounds| - 1] == t.rounds;
    ReplayThroughCurrent(t, ps);
  }

  /** The players after recording the current round are the replay of every round so far. */
  lemma {:induction false} ReplayThroughCurrent(t: Tournament, ps: seq<SwissPlayer>)
    requires |t.rounds| > 0 && Consistent(t) && RoundComplete(CurrentRound(t))
    requires ps == RecordAll(t.players, CurrentRound(t).matches)
    ensures ps == ReplayAll(Reset(ps), Flat(t.rounds))
  {
    var n := |t.rounds|;
    var cur := CurrentRound(t);
    var front := Flat(t.rounds[..n - 1]);
    ResetRecordAll(t.players, cur.matches);
    assert Flat(t.rounds) == front + cur.matches by {
      assert t.rounds == t.rounds[..n - 1] + [cur];
      FlatSnoc(t.rounds[..n - 1], cur);
    }
    ReplayAllConcat(Reset(t.players), front, cur.matches);
    ReplayAllDecided(t.players, cur.matches);
  }

  /** The corrected rewind leaves a consistent tournament. */
  lemma {:induction false} GoBackCorrectedConsistent(t: Tournament)
    requires |t.rounds| > 1
    ensures Consistent(GoBackCorrected(t))
  {
    var rounds := t.rounds[..|t.rounds| - 1];
    var ms := Flat(rounds[..|rounds| - 1]);
    ResetReplayAll(Reset(t.players), ms);
    ResetReset(t.players);
  }

  /**
   * The corrected rewind undoes `handleNextRound` exactly: the tournament is
   * back to the completed round with the same players.
   */
  lemma {:induction false} GoBackCorrectedUndoesNextRound(t: Tournament, draw: map<string, int>)
    requires |t.rounds| > 0 && Consistent(t) && RoundComplete(CurrentRound(t))
    ensures GoBackCorrected(NextRoundSpec(t, draw)) == t
  {
    var t' := NextRoundSpec(t, draw);
    assert t'.rounds[..|t'.rounds| - 1] == t.rounds;
    ResetRecordAll(t.players, CurrentRound(t).matches);
  }

  /**
   * What the code does instead: the rounds go back, but the players keep the
   * round that is current again already recorded.
   */
  lemma {:induction false} GoBackAsWrittenAfterNextRound(t: Tournament, draw: map<string, int>)
    requires |t.rounds| > 0 && Consistent(t) && RoundComplete(CurrentRound(t))
    ensures GoBackAsWritten(NextRoundSpec(t, draw)) == Tournament(RecordAll(t.players, CurrentRound(t).matches), t.rounds)
  {
    var t' := NextRoundSpec(t, draw);
    assert t'.rounds[..|t'.rounds| - 1] == t.rounds;
    NextRoundConsistent(t, draw);
  }

  // --------------------------------------------------------------- Example

  /** Two players, Ann beats Ben in round 1. */
  function Example(): Tournament {
    Tournament([SwissPlayer("ann", "Ann", 5, 0, []), SwissPlayer("ben", "Ben", 3, 0, [])],
               [Round(1, [Match(MatchId(1, 1), "ann", Vs("ben"), Some("ann"))])])
  }

  /**
   * Start round 2, go back, and start round 2 again: with the code as
   * written Ann's single win is counted twice.
   */
  lemma {:induction false} GoBackAsWrittenDoubleCounts(draw: map<string, int>, draw': map<string, int>)
    ensures Consistent(Example()) && RoundComplete(CurrentRound(Example()))
    ensures Won(Flat(Example().rounds), "ann") == 1
    ensures GoBackAsWritten(NextRoundSpec(Example(), draw)).players[0].wins == 1
    ensures NextRoundSpec(GoBackAsWritten(NextRoundSpec(Example(), draw)), draw').players[0].wins == 2
    ensures GoBackCorrected(NextRoundSpec(Example(), draw)).players[0].wins == 0
  {
    var t := Example();
    var ms := CurrentRound(t).matches;
    ExampleComplete();
    GoBackAsWrittenAfterNextRound(t, draw);
    GoBackCorrectedUndoesNextRound(t, draw);
    var ps := RecordAll(t.players, ms);
    var back := GoBackAsWritten(NextRoundSpec(t, draw));
    var ps2 := RecordAll(ps, ms);
    var round := CurrentRound(back).number + 1;
    var gs := GroupsAt(ps2, Levels(ps2), draw');
    NextRoundParts(back, draw', ps2, round, gs);
    ExampleWins(t.players, ms);
  }

  lemma {:induction false} ExampleComplete()
    ensures Consistent(Example()) && RoundComplete(CurrentRound(Example()))
    ensures Won(Flat(Example().rounds), "ann") == 1
  {
    var t := Example();
    var ms := CurrentRound(t).matches;
    assert t.rounds[..0] == [];
    assert Reset(t.players) == t.players;
    assert Flat(t.rounds) == ms;
    assert ms[..0] == [];
  }

  /** Ann's win recorded once, then once more. */
  lemma {:induction false} ExampleWins(ps: seq<SwissPlayer>, ms: seq<Match>)
    requires ps == Example().players && ms == CurrentRound(Example()).matches
    ensures RecordAll(ps, ms)[0].wins == 1
    ensures RecordAll(RecordAll(ps, ms), ms)[0].wins == 2
  {
    assert ms[..0] == [];
    assert Won(ms, "ann") == 1;
    RecordAllAt(ps, ms, 0);
    RecordAllEntrants(ps, ms);
    RecordAllAt(RecordAll(ps, ms), ms, 0);
  }
}
