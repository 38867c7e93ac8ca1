/**
 * The Swiss-system 1v1 tournament: its state, the first-round seeding, the
 * winner toggle, the round gates, and the per-match bookkeeping that the
 * advance and rewind steps share.
 */
module Swiss {
  import opened Wrappers
  import opened Sorting
  import opened Roster

  /** A tournament player: a roster player plus a win count and the ids already met. */
  datatype SwissPlayer = SwissPlayer(id: string, name: string, points: int, wins: int, opponents: seq<string>)

  /** The second seat of a match: a real player, or the `{ id: 'bye' }` placeholder. */
  datatype Opponent = Bye | Vs(id: string)

  /** The match id `R{round}M{index}`. */
  datatype MatchId = MatchId(round: nat, index: nat)

  datatype Match = Match(matchId: MatchId, p1: string, p2: Opponent, winner: Option<string>)

  datatype Round = Round(number: nat, matches: seq<Match>)

  datatype Tournament = Tournament(players: seq<SwissPlayer>, rounds: seq<Round>)

  /** `Roster.Ids` for tournament players. */
  function SwissIds(ps: seq<SwissPlayer>): (r: seq<string>)
    ensures |r| == |ps|
    ensures forall i :: 0 <= i < |ps| ==> r[i] == ps[i].id
  {
    seq(|ps|, i requires 0 <= i < |ps| => ps[i].id)
  }

  predicate DistinctSwissIds(ps: seq<SwissPlayer>) {
    forall i, j :: 0 <= i < j < |ps| ==> ps[i].id != ps[j].id
  }

  /** The ids seated in a match: `p1`, then `p2` unless it is the BYE. */
  function Seats(m: Match): seq<string> {
    [m.p1] + (if m.p2.Vs? then [m.p2.id] else [])
  }

  /** The seats of a list of matches, in order. */
  function AllSeats(ms: seq<Match>): seq<string> {
    if ms == [] then [] else Seats(ms[0]) + AllSeats(ms[1..])
  }

  lemma {:induction false} AllSeatsConcat(a: seq<Match>, b: seq<Match>)
    ensures AllSeats(a + b) == AllSeats(a) + AllSeats(b)
    decreases |a|
  {
    if a == [] {
      assert a + b == b;
    } else {
      assert (a + b)[0] == a[0] && (a + b)[1..] == a[1..] + b;
      AllSeatsConcat(a[1..], b);
    }
  }

  // ---------------------------------------------------------------- Seeding

  /** Entering the tournament: `{ ...p, wins: 0, opponents: [] }`. */
  function Enter(ps: seq<Player>): (r: seq<SwissPlayer>)
    ensures |r| == |ps| && SwissIds(r) == Ids(ps)
    ensures forall i :: 0 <= i < |ps| ==>
      r[i].name == ps[i].name && r[i].points == ps[i].points && r[i].wins == 0 && r[i].opponents == []
  {
    seq(|ps|, i requires 0 <= i < |ps| => SwissPlayer(ps[i].id, ps[i].name, ps[i].points, 0, []))
  }

  /** The `k`-th first-round pairing of the seeded list `s`: seats `2k` and `2k+1`, or a BYE. */
  function FirstRoundPair(s: seq<Player>, k: nat): Match
    requires 2 * k < |s|
  {
    if 2 * k + 1 < |s| then Match(MatchId(1, k + 1), s[2 * k].id, Vs(s[2 * k + 1].id), None)
    else Match(MatchId(1, k + 1), s[2 * k].id, Bye, Some(s[2 * k].id))
  }

  /** The first round: adjacent seeds paired, one match per two players. */
  function FirstRound(s: seq<Player>): (r: seq<Match>)
    ensures |r| == (|s| + 1) / 2
  {
    seq((|s| + 1) / 2, k requires 0 <= k < (|s| + 1) / 2 => FirstRoundPair(s, k))
  }

  /**
   * `create1v1Tournament`: seed by points, pair neighbours with a step-2 loop,
   * and enter the players in roster order with no wins and no opponents.
   */
  method Create1v1Tournament(players: seq<Player>) returns (t: Tournament)
    ensures t.players == Enter(players)
    ensures t.rounds == [Round(1, FirstRound(RankByPoints(players)))]
  {
    var sorted := RankByPoints(players);
    var pairings: seq<Match> := [];
    var i := 0;
    while i < |sorted|
      invariant 0 <= i <= |sorted| + 1 && i % 2 == 0
      invariant |pairings| == i / 2
      invariant forall k :: 0 <= k < i / 2 ==> pairings[k] == FirstRoundPair(sorted, k)
    {
      if i + 1 < |sorted| {
        pairings := pairings + [Match(MatchId(1, i / 2 + 1), sorted[i].id, Vs(sorted[i + 1].id), None)];
      } else {
        pairings := pairings + [Match(MatchId(1, i / 2 + 1), sorted[i].id, Bye, Some(sorted[i].id))];
      }
      i := i + 2;
    }
    assert pairings == FirstRound(sorted);
    t := Tournament(Enter(players), [Round(1, pairings)]);
  }

  /** Every seeded player sits in exactly one first-round match, in seed order. */
  lemma {:induction false} FirstRoundSeats(s: seq<Player>)
    ensures AllSeats(FirstRound(s)) == Ids(s)
  {
    FirstRoundSeatsFrom(s, 0);
    assert FirstRound(s)[0..] == FirstRound(s);
    assert Ids(s)[0..] == Ids(s);
  }

  lemma {:induction false} FirstRoundSeatsFrom(s: seq<Player>, j: nat)
    requires 2 * j <= |s|
    ensures AllSeats(FirstRound(s)[j..]) == Ids(s)[2 * j..]
    decreases |s| - 2 * j
  {
    var r, ids := FirstRound(s), Ids(s);
    if 2 * j == |s| {
      assert r[j..] == [];
    } else if 2 * j + 1 == |s| {
      SeatsOfLast(s, j, r, ids);
    } else {
      FirstRoundSeatsFrom(s, j + 1);
      SeatsOfPair(s, j, r, ids);
    }
  }

  lemma {:induction false} SeatsOfLast(s: seq<Player>, j: nat, r: seq<Match>, ids: seq<string>)
    requires 2 * j + 1 == |s| && r == FirstRound(s) && ids == Ids(s)
    ensures AllSeats(r[j..]) == ids[2 * j..]
  {
    var a := r[j..];
    assert a == [r[j]] && a[1..] == [];
    assert Seats(r[j]) == [s[2 * j].id];
    assert ids[2 * j..] == [ids[2 * j]];
  }

  lemma {:induction false} SeatsOfPair(s: seq<Player>, j: nat, r: seq<Match>, ids: seq<string>)
    requires 2 * j + 1 < |s| && r == FirstRound(s) && ids == Ids(s)
    requires AllSeats(r[j + 1..]) == ids[2 * j + 2..]
    ensures AllSeats(r[j..]) == ids[2 * j..]
  {
    var a := r[j..];
    assert a[0] == r[j] && a[1..] == r[j + 1..];
    assert Seats(r[j]) == [s[2 * j].id, s[2 * j + 1].id];
    assert ids[2 * j..] == [ids[2 * j], ids[2 * j + 1]] + ids[2 * j + 2..];
  }

  /**
   * The first round has a BYE exactly when the roster is odd, only in its
   * last match, and that match is already won by its only player.
   */
  lemma {:induction false} FirstRoundBye(s: seq<Player>)
    ensures (exists k :: 0 <= k < |FirstRound(s)| && FirstRound(s)[k].p2.Bye?) <==> |s| % 2 == 1
    ensures forall k :: 0 <= k < |FirstRound(s)| && FirstRound(s)[k].p2.Bye? ==>
      k == |FirstRound(s)| - 1 && FirstRound(s)[k].winner == Some(FirstRound(s)[k].p1)
    ensures forall k :: 0 <= k < |FirstRound(s)| ==>
      FirstRound(s)[k].matchId == MatchId(1, k + 1) && (FirstRound(s)[k].p2.Vs? <==> FirstRound(s)[k].winner.None?)
  {
    var r := FirstRound(s);
    if |s| % 2 == 1 {
      assert r[|r| - 1].p2.Bye?;
    }
  }

  // ---------------------------------------------------------- Winner toggle

  function CurrentRound(t: Tournament): Round
    requires |t.rounds| > 0
  {
    t.rounds[|t.rounds| - 1]
  }

  /** `matches.find(m => m.matchId === id)`, as an index. */
  function FindMatch(ms: seq<Match>, id: MatchId): (r: Option<nat>)
    ensures r.Some? ==> r.value < |ms| && ms[r.value].matchId == id
    ensures r.Some? ==> forall k :: 0 <= k < r.value ==> ms[k].matchId != id
    ensures r.None? ==> forall k :: 0 <= k < |ms| ==> ms[k].matchId != id
  {
    if ms == [] then None
    else if ms[0].matchId == id then Some(0)
    else match FindMatch(ms[1..], id)
      case None => None
      case Some(k) => Some(k + 1)
  }

  /**
   * `handleSelectWinner`: in the current round, the match with that id has its
   * winner cleared if it was `who` and set to `who` otherwise.
   */
  function SelectWinner(t: Tournament, id: MatchId, who: string): (r: Tournament)
    requires |t.rounds| > 0
    ensures r.players == t.players && |r.rounds| == |t.rounds|
    ensures r.rounds[..|t.rounds| - 1] == t.rounds[..|t.rounds| - 1]
    ensures CurrentRound(r).number == CurrentRound(t).number
    ensures |CurrentRound(r).matches| == |CurrentRound(t).matches|
    ensures forall k :: 0 <= k < |CurrentRound(t).matches| && Some(k) != FindMatch(CurrentRound(t).matches, id) ==>
      CurrentRound(r).matches[k] == CurrentRound(t).matches[k]
    ensures FindMatch(CurrentRound(t).matches, id).None? ==> r == t
    ensures FindMatch(CurrentRound(t).matches, id).Some? ==>
      var k := FindMatch(CurrentRound(t).matches, id).value;
      var before := CurrentRound(t).matches[k];
      var after := CurrentRound(r).matches[k];
      after.matchId == before.matchId && after.p1 == before.p1 && after.p2 == before.p2
      && (before.winner == Some(who) ==> after.winner == None)
      && (before.winner != Some(who) ==> after.winner == Some(who))
  {
    var n := |t.rounds| - 1;
    var cur := t.rounds[n];
    match FindMatch(cur.matches, id)
    case None => t
    case Some(k) =>
      var m := cur.matches[k];
      var m' := m.(winner := if m.winner == Some(who) then None else Some(who));
      var rounds := t.rounds[n := cur.(matches := cur.matches[k := m'])];
      assert rounds[..n] == t.rounds[..n];
      t.(rounds := rounds)
  }

  /**
   * Clicking the same seat twice restores the tournament exactly when the
   * match was undecided or already won by that seat; if the other player had
   * won, the match is left undecided instead.
   */
  lemma {:induction false} SelectWinnerTwice(t: Tournament, id: MatchId, who: string)
    requires |t.rounds| > 0
    ensures SelectWinner(SelectWinner(t, id, who), id, who) == t <==>
      (FindMatch(CurrentRound(t).matches, id).None? ||
       CurrentRound(t).matches[FindMatch(CurrentRound(t).matches, id).value].winner in {None, Some(who)})
  {
    var cur := CurrentRound(t);
    var f := FindMatch(cur.matches, id);
    if f.Some? {
      var k := f.value;
      var t1 := SelectWinner(t, id, who);
      assert CurrentRound(t1).matches[..k] == cur.matches[..k];
      assert FindMatch(CurrentRound(t1).matches, id) == f by {
        FindMatchPrefix(cur.matches, CurrentRound(t1).matches, id, k);
      }
      var t2 := SelectWinner(t1, id, who);
      if cur.matches[k].winner !in {None, Some(who)} {
        assert CurrentRound(t2).matches[k].winner == None;
        assert CurrentRound(t2) != CurrentRound(t);
      } else {
        assert CurrentRound(t2).matches == cur.matches;
        assert t2.rounds == t.rounds;
      }
    }
  }

  /** Two match lists that agree up to the first `id` at index `k` find it at `k`. */
  lemma {:induction false} FindMatchPrefix(a: seq<Match>, b: seq<Match>, id: MatchId, k: nat)
    requires FindMatch(a, id) == Some(k) && |b| == |a|
    requires b[..k] == a[..k] && b[k].matchId == id
    ensures FindMatch(b, id) == Some(k)
  {
    var f := FindMatch(b, id);
    assert forall j :: 0 <= j < k ==> b[j] == a[j];
  }

  // ------------------------------------------------------------------ Gates

  /** `currentRound.matches.every(m => m.winner)`. */
  predicate RoundComplete(r: Round) {
    forall k :: 0 <= k < |r.matches| ==> r.matches[k].winner.Some?
  }

  function Pow2(k: nat): (r: nat)
    ensures r >= 1
  {
    if k == 0 then 1 else 2 * Pow2(k - 1)
  }

  /** `Math.ceil(Math.log2(n))` on exact integers: the least `k` with `2^k >= n`. */
  function CeilLog2(n: nat): (k: nat)
    ensures Pow2(k) >= n
    ensures k > 0 ==> Pow2(k - 1) < n
  {
    if n <= 1 then 0 else 1 + CeilLog2((n + 1) / 2)
  }

  lemma {:induction false} Pow2Monotone(a: nat, b: nat)
    requires a <= b
    ensures Pow2(a) <= Pow2(b)
    decreases b
  {
    if a < b {
      Pow2Monotone(a, b - 1);
    }
  }

  datatype Gate = Waiting | OfferNextRound | OfferFinish

  /**
   * The buttons under the round (App.js:574-575): none until the round is
   * complete; then "next round" while `2^round` is still below the roster
   * size, and "finish" once it is not.
   */
  function RoundGate(t: Tournament, rosterSize: nat): (g: Gate)
    requires |t.rounds| > 0
    ensures g == Waiting <==> !RoundComplete(CurrentRound(t))
    ensures g == OfferNextRound <==> (RoundComplete(CurrentRound(t)) && Pow2(CurrentRound(t).number) < rosterSize)
    ensures g == OfferFinish <==> (RoundComplete(CurrentRound(t)) && Pow2(CurrentRound(t).number) >= rosterSize)
  {
    var cur := CurrentRound(t);
    var total := CeilLog2(rosterSize);
    if !RoundComplete(cur) then Waiting
    else if cur.number < total then
      Pow2Monotone(cur.number, total - 1);
      OfferNextRound
    else
      Pow2Monotone(total, cur.number);
      OfferFinish
  }

  // ------------------------------------------------------ Match bookkeeping

  /** True for the first player in `ps` whose id is `id` (what `.find` returns). */
  predicate IsFirst(ps: seq<SwissPlayer>, i: int, id: string)
    requires 0 <= i < |ps|
  {
    ps[i].id == id && forall j :: 0 <= j < i ==> ps[j].id != id
  }

  /** `winner.wins++` on the player `.find` returns for `id`. */
  function Credit(ps: seq<SwissPlayer>, id: string): (r: seq<SwissPlayer>)
    ensures SwissIds(r) == SwissIds(ps)
  {
    seq(|ps|, i requires 0 <= i < |ps| => if IsFirst(ps, i, id) then ps[i].(wins := ps[i].wins + 1) else ps[i])
  }

  /** `p.opponents.push(other)` on the player `.find` returns for `id`. */
  function Meet(ps: seq<SwissPlayer>, id: string, other: string): (r: seq<SwissPlayer>)
    ensures SwissIds(r) == SwissIds(ps)
  {
    seq(|ps|, i requires 0 <= i < |ps| =>
      if IsFirst(ps, i, id) then ps[i].(opponents := ps[i].opponents + [other]) else ps[i])
  }

  /**
   * One match as `handleNextRound` records it: credit the winner if there is
   * one, and if both seats are tournament players, each gets the other
   * appended to its opponents.
   */
  function RecordMatch(ps: seq<SwissPlayer>, m: Match): (r: seq<SwissPlayer>)
    ensures SwissIds(r) == SwissIds(ps)
  {
    var ps1 := if m.winner.Some? then Credit(ps, m.winner.value) else ps;
    if m.p2.Vs? && m.p1 in SwissIds(ps1) && m.p2.id in SwissIds(ps1) then
      Meet(Meet(ps1, m.p1, m.p2.id), m.p2.id, m.p1)
    else ps1
  }

  /** Every match of a list recorded in order (a left fold, written from the end). */
  function RecordAll(ps: seq<SwissPlayer>, ms: seq<Match>): (r: seq<SwissPlayer>)
    ensures SwissIds(r) == SwissIds(ps)
  {
    if ms == [] then ps else RecordMatch(RecordAll(ps, ms[..|ms| - 1]), ms[|ms| - 1])
  }

  /** The number of matches recorded as won by `id`. */
  function Won(ms: seq<Match>, id: string): nat {
    if ms == [] then 0 else Won(ms[..|ms| - 1], id) + (if ms[|ms| - 1].winner == Some(id) then 1 else 0)
  }

  /** What one match appends to the opponents of `id`, given the tournament ids. */
  function Against(m: Match, id: string, ids: seq<string>): seq<string> {
    if m.p2.Vs? && m.p1 in ids && m.p2.id in ids then
      (if m.p1 == id then [m.p2.id] else []) + (if m.p2.id == id then [m.p1] else [])
    else []
  }

  /** Everything the matches append to the opponents of `id`, in order. */
  function Met(ms: seq<Match>, id: string, ids: seq<string>): seq<string> {
    if ms == [] then [] else Met(ms[..|ms| - 1], id, ids) + Against(ms[|ms| - 1], id, ids)
  }

  /** Only `wins` and `opponents` change: ids, names and points are kept. */
  predicate SameEntrants(a: seq<SwissPlayer>, b: seq<SwissPlayer>) {
    |a| == |b| && forall i :: 0 <= i < |a| ==> a[i].id == b[i].id && a[i].name == b[i].name && a[i].points == b[i].points
  }

  lemma {:induction false} CreditAt(ps: seq<SwissPlayer>, id: string, i: int)
    requires DistinctSwissIds(ps) && 0 <= i < |ps|
    ensures SameEntrants(Credit(ps, id), ps) && DistinctSwissIds(Credit(ps, id))
    ensures Credit(ps, id)[i] == if ps[i].id == id then ps[i].(wins := ps[i].wins + 1) else ps[i]
  {
    assert IsFirst(ps, i, id) <==> ps[i].id == id;
  }

  lemma {:induction false} MeetAt(ps: seq<SwissPlayer>, id: string, other: string, i: int)
    requires DistinctSwissIds(ps) && 0 <= i < |ps|
    ensures SameEntrants(Meet(ps, id, other), ps) && DistinctSwissIds(Meet(ps, id, other))
    ensures Meet(ps, id, other)[i] == if ps[i].id == id then ps[i].(opponents := ps[i].opponents + [other]) else ps[i]
  {
    assert IsFirst(ps, i, id) <==> ps[i].id == id;
  }

  lemma {:induction false} RecordMatchAt(ps: seq<SwissPlayer>, m: Match, i: int)
    requires DistinctSwissIds(ps) && 0 <= i < |ps|
    ensures SameEntrants(RecordMatch(ps, m), ps) && DistinctSwissIds(RecordMatch(ps, m))
    ensures RecordMatch(ps, m)[i] == ps[i].(wins := ps[i].wins + (if m.winner == Some(ps[i].id) then 1 else 0),
                                             opponents := ps[i].opponents + Against(m, ps[i].id, SwissIds(ps)))
  {
    var ps1 := if m.winner.Some? then Credit(ps, m.winner.value) else ps;
    var r := RecordMatch(ps, m);
    CreditStage(ps, m, i, ps1);
    MeetStage(ps, ps1, m, i, r);
    SameEntrantsTrans(r, ps1, ps);
  }

  /** The first half of `RecordMatch`: the winner's credit. */
  lemma {:induction false} CreditStage(ps: seq<SwissPlayer>, m: Match, i: int, ps1: seq<SwissPlayer>)
    requires DistinctSwissIds(ps) && 0 <= i < |ps|
    requires ps1 == if m.winner.Some? then Credit(ps, m.winner.value) else ps
    ensures SameEntrants(ps1, ps) && DistinctSwissIds(ps1) && SwissIds(ps1) == SwissIds(ps)
    ensures ps1[i] == ps[i].(wins := ps[i].wins + (if m.winner == Some(ps[i].id) then 1 else 0))
  {
    if m.winner.Some? { CreditAt(ps, m.winner.value, i); }
  }

  /** The second half of `RecordMatch`: each player appended to the other's opponents. */
  lemma {:induction false} MeetStage(ps: seq<SwissPlayer>, ps1: seq<SwissPlayer>, m: Match, i: int, r: seq<SwissPlayer>)
    requires DistinctSwissIds(ps1) && 0 <= i < |ps1|
    requires ps1 == (if m.winner.Some? then Credit(ps, m.winner.value) else ps) && r == RecordMatch(ps, m)
    ensures SameEntrants(r, ps1) && DistinctSwissIds(r)
    ensures r[i] == ps1[i].(opponents := ps1[i].opponents + Against(m, ps1[i].id, SwissIds(ps1)))
  {
    if m.p2.Vs? && m.p1 in SwissIds(ps1) && m.p2.id in SwissIds(ps1) {
      var ps2 := Meet(ps1, m.p1, m.p2.id);
      MeetAt(ps1, m.p1, m.p2.id, i);
      MeetAt(ps2, m.p2.id, m.p1, i);
      SameEntrantsTrans(r, ps2, ps1);
    }
  }

  lemma {:induction false} SameEntrantsTrans(a: seq<SwissPlayer>, b: seq<SwissPlayer>, c: seq<SwissPlayer>)
    requires SameEntrants(a, b) && SameEntrants(b, c)
    ensures SameEntrants(a, c)
  {
  }

  /**
   * Recording a list of matches adds to each player the matches it won and,
   * in match order, the opponents it met (App.js:403-408).
   */
  lemma {:induction false} RecordAllEntrants(ps: seq<SwissPlayer>, ms: seq<Match>)
    requires DistinctSwissIds(ps)
    ensures SameEntrants(RecordAll(ps, ms), ps) && DistinctSwissIds(RecordAll(ps, ms))
    decreases |ms|
  {
    if ms != [] {
      var front := ms[..|ms| - 1];
      RecordAllEntrants(ps, front);
      var q := RecordAll(ps, front);
      if |ps| > 0 { RecordMatchAt(q, ms[|ms| - 1], 0); }
    }
  }

  lemma {:induction false} RecordAllAt(ps: seq<SwissPlayer>, ms: seq<Match>, i: int)
    requires DistinctSwissIds(ps) && 0 <= i < |ps|
    ensures RecordAll(ps, ms)[i] == ps[i].(wins := ps[i].wins + Won(ms, ps[i].id),
                                            opponents := ps[i].opponents + Met(ms, ps[i].id, SwissIds(ps)))
    decreases |ms|
  {
    if ms != [] {
      var front := ms[..|ms| - 1];
      var m := ms[|ms| - 1];
      RecordAllAt(ps, front, i);
      RecordAllEntrants(ps, front);
      var q := RecordAll(ps, front);
      RecordMatchAt(q, m, i);
      var ids := SwissIds(ps);
      var id := ps[i].id;
      RecordAllSnoc(ps, ms, front, m);
      WonSnoc(ms, front, m, id);
      MetSnoc(ms, front, m, id, ids);
      RecordCompose(ps[i], q[i], RecordMatch(q, m)[i], Won(front, id), Met(front, id, ids),
                    if m.winner == Some(id) then 1 else 0, Against(m, id, ids));
    }
  }

  lemma {:induction false} RecordAllSnoc(ps: seq<SwissPlayer>, ms: seq<Match>, front: seq<Match>, m: Match)
    requires ms != [] && front == ms[..|ms| - 1] && m == ms[|ms| - 1]
    ensures RecordAll(ps, ms) == RecordMatch(RecordAll(ps, front), m)
  {
  }

  lemma {:induction false} WonSnoc(ms: seq<Match>, front: seq<Match>, m: Match, id: string)
    requires ms != [] && front == ms[..|ms| - 1] && m == ms[|ms| - 1]
    ensures Won(ms, id) == Won(front, id) + (if m.winner == Some(id) then 1 else 0)
  {
  }

  lemma {:induction false} MetSnoc(ms: seq<Match>, front: seq<Match>, m: Match, id: string, ids: seq<string>)
    requires ms != [] && front == ms[..|ms| - 1] && m == ms[|ms| - 1]
    ensures Met(ms, id, ids) == Met(front, id, ids) + Against(m, id, ids)
  {
  }

  /** Two rounds of bookkeeping on one player add up. */
  lemma {:induction false} RecordCompose(b: SwissPlayer, a: SwissPlayer, c: SwissPlayer,
                                         w0: nat, o0: seq<string>, dw: nat, o1: seq<string>)
    requires a == b.(wins := b.wins + w0, opponents := b.opponents + o0)
    requires c == a.(wins := a.wins + dw, opponents := a.opponents + o1)
    ensures c == b.(wins := b.wins + (w0 + dw), opponents := b.opponents + (o0 + o1))
  {
    assert (b.opponents + o0) + o1 == b.opponents + (o0 + o1);
  }

  /** Reset for a rewind: `{ ...p, wins: 0, opponents: [] }`. */
  function Reset(ps: seq<SwissPlayer>): (r: seq<SwissPlayer>)
    ensures |r| == |ps| && SwissIds(r) == SwissIds(ps)
    ensures forall i :: 0 <= i < |ps| ==>
      r[i].name == ps[i].name && r[i].points == ps[i].points && r[i].wins == 0 && r[i].opponents == []
  {
    seq(|ps|, i requires 0 <= i < |ps| => ps[i].(wins := 0, opponents := []))
  }

  /** The matches of all rounds, round after round. */
  function Flat(rs: seq<Round>): seq<Match> {
    if rs == [] then [] else Flat(rs[..|rs| - 1]) + rs[|rs| - 1].matches
  }

  /** One match as a rewind replays it: only a decided match counts. */
  function ReplayMatch(ps: seq<SwissPlayer>, m: Match): (r: seq<SwissPlayer>)
    ensures SwissIds(r) == SwissIds(ps)
  {
    if m.winner.Some? then RecordMatch(ps, m) else ps
  }

  function ReplayAll(ps: seq<SwissPlayer>, ms: seq<Match>): (r: seq<SwissPlayer>)
    ensures SwissIds(r) == SwissIds(ps)
  {
    if ms == [] then ps else ReplayMatch(ReplayAll(ps, ms[..|ms| - 1]), ms[|ms| - 1])
  }

  /** On a list of decided matches, replaying and recording agree. */
  lemma {:induction false} ReplayAllDecided(ps: seq<SwissPlayer>, ms: seq<Match>)
    requires forall k :: 0 <= k < |ms| ==> ms[k].winner.Some?
    ensures ReplayAll(ps, ms) == RecordAll(ps, ms)
    decreases |ms|
  {
    if ms != [] {
      ReplayAllDecided(ps, ms[..|ms| - 1]);
    }
  }
}
