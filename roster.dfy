/**
 * The room roster as the engine reads it: players with an opaque id, a
 * display name and a running point total, plus the lookups every format uses.
 */
module Roster {
  import opened Wrappers
  import opened Sorting

  datatype Player = Player(id: string, name: string, points: int)

  /**
   * The ids of a list of players, in order.  `Swiss.SwissIds` and
   * `GameResults.EntryIds` are the same projection for tournament players and
   * result rows: each datatype has its own `id` field.
   */
  function Ids(ps: seq<Player>): (r: seq<string>)
    ensures |r| == |ps|
    ensures forall i :: 0 <= i < |ps| ==> r[i] == ps[i].id
  {
    seq(|ps|, i requires 0 <= i < |ps| => ps[i].id)
  }

  predicate DistinctIds(ps: seq<Player>) {
    forall i, j :: 0 <= i < j < |ps| ==> ps[i].id != ps[j].id
  }

  /** The comparator `(a, b) => b.points - a.points`: more points first. */
  function PointsKey(p: Player): SortKey {
    SortKey(p.points, 0)
  }

  /** `[...players].sort((a, b) => b.points - a.points)` (App.js:1151, 1165, 1198, 1224). */
  function RankByPoints(ps: seq<Player>): (r: seq<Player>)
    ensures multiset(r) == multiset(ps)
    ensures forall i, j :: 0 <= i < j < |r| ==> r[i].points >= r[j].points
  {
    var r := SortBy(ps, PointsKey);
    assert forall i, j :: 0 <= i < j < |r| ==> !Precedes(PointsKey(r[j]), PointsKey(r[i]));
    r
  }

  /** Players with equal points stay in roster order. */
  lemma {:induction false} RankByPointsStable(ps: seq<Player>, k: SortKey)
    ensures WithKey(RankByPoints(ps), PointsKey, k) == WithKey(ps, PointsKey, k)
  {
    SortByStable(ps, PointsKey, k);
  }

  /** A score map entry, read as `scores[id] || 0`: a missing entry counts as 0. */
  function ScoreOf(scores: map<string, int>, id: string): int {
    if id in scores then scores[id] else 0
  }

  /** The comparator `(a, b) => b.score - a.score` over the scores in `scores`. */
  function ScoreKey(scores: map<string, int>): Player -> SortKey {
    (p: Player) => SortKey(ScoreOf(scores, p.id), 0)
  }

  /** `list.sort((a, b) => b.score - a.score)` where each score is read from `scores`. */
  function RankByScore(ps: seq<Player>, scores: map<string, int>): (r: seq<Player>)
    ensures multiset(r) == multiset(ps)
    ensures forall i, j :: 0 <= i < j < |r| ==> ScoreOf(scores, r[i].id) >= ScoreOf(scores, r[j].id)
  {
    var r := SortBy(ps, ScoreKey(scores));
    assert forall i, j :: 0 <= i < j < |r| ==> !Precedes(ScoreKey(scores)(r[j]), ScoreKey(scores)(r[i]));
    r
  }

  /** The position of the first player with that id. */
  function FindIndex(ps: seq<Player>, id: string): (r: Option<nat>)
    ensures r.Some? ==> r.value < |ps| && ps[r.value].id == id
    ensures r.Some? ==> forall j :: 0 <= j < r.value ==> ps[j].id != id
    ensures r.None? ==> forall j :: 0 <= j < |ps| ==> ps[j].id != id
  {
    if ps == [] then None
    else if ps[0].id == id then Some(0)
    else match FindIndex(ps[1..], id)
      case Some(k) => Some(k + 1)
      case None => None
  }

  /** `players.find(p => p.id === id)`: the first player with that id. */
  function FindById(ps: seq<Player>, id: string): (r: Option<Player>)
    ensures r.Some? <==> id in Ids(ps)
    ensures r.Some? ==> r.value in ps && r.value.id == id
    ensures r.Some? ==> exists i :: 0 <= i < |ps| && ps[i] == r.value
                                  && forall j :: 0 <= j < i ==> ps[j].id != id
  {
    match FindIndex(ps, id)
    case Some(i) =>
      assert Ids(ps)[i] == id;
      Some(ps[i])
    case None =>
      assert forall j :: 0 <= j < |ps| ==> Ids(ps)[j] != id;
      None
  }

  /** The map `{id: 0}` a `forEach` builds for every player (App.js:1181-1183, 1242, 189). */
  function ZeroMap(ps: seq<Player>): (m: map<string, int>)
    ensures m.Keys == set i | 0 <= i < |ps| :: ps[i].id
    ensures forall id :: id in m ==> m[id] == 0
  {
    map i | 0 <= i < |ps| :: ps[i].id := 0
  }

  /** The `forEach` loop that starts every player's score at 0. */
  method ZeroScores(ps: seq<Player>) returns (m: map<string, int>)
    ensures m == ZeroMap(ps)
  {
    m := map[];
    for i := 0 to |ps|
      invariant m.Keys == set j | 0 <= j < i :: ps[j].id
      invariant forall id :: id in m ==> m[id] == 0
    {
      m := m[ps[i].id := 0];
    }
  }
}
