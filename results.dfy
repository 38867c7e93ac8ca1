/**
 * The normalized outcome every format produces, the manual "add points"
 * builder that confirms it, and the ledger update that applies it.
 */
module GameResults {
  import opened Wrappers
  import opened Sorting
  import opened Roster

  datatype GameType = Manual | OneVsOne | Team | FreeForAll | MarioKart | JustFu

  /** The `wins` / `losses` fields only 1v1 results carry. */
  datatype WinLoss = WinLoss(wins: int, losses: int)

  datatype ResultEntry = ResultEntry(id: string, name: string, points: int, rank: int, record: Option<WinLoss>)

  datatype GameResult = GameResult(gameName: string, gameType: GameType, results: seq<ResultEntry>)

  /** `Roster.Ids` for result rows. */
  function EntryIds(rs: seq<ResultEntry>): (r: seq<string>)
    ensures |r| == |rs|
    ensures forall i :: 0 <= i < |rs| ==> r[i] == rs[i].id
  {
    seq(|rs|, i requires 0 <= i < |rs| => rs[i].id)
  }

  predicate DistinctEntryIds(rs: seq<ResultEntry>) {
    forall i, j :: 0 <= i < j < |rs| ==> rs[i].id != rs[j].id
  }

  /**
   * The fixed scale of free-for-all, Mario Kart and Just Fu: the player at
   * position i gets rank i + 1 and `n - i` points.
   */
  function Positional(ps: seq<Player>): (r: seq<ResultEntry>)
    ensures |r| == |ps| && EntryIds(r) == Ids(ps)
    ensures forall i :: 0 <= i < |r| ==> r[i].name == ps[i].name && r[i].rank == i + 1 && r[i].record == None
    ensures forall i :: 0 <= i < |r| ==> 1 <= r[i].points <= |ps|
    ensures forall i, j :: 0 <= i < j < |r| ==> r[i].points > r[j].points
    ensures |r| > 0 ==> r[0].points == |ps| && r[|r| - 1].points == 1
  {
    seq(|ps|, i requires 0 <= i < |ps| => ResultEntry(ps[i].id, ps[i].name, |ps| - i, i + 1, None))
  }

  // ---------------------------------------------------------------- AddPoints

  /** `gameName.trim() || 'Untitled Game'`, for a title that is already trimmed. */
  function GameTitle(title: string): (r: string)
    ensures r != ""
    ensures title != "" ==> r == title
  {
    if title == "" then "Untitled Game" else title
  }

  /** The points form state seeded from a computed result: `newPoints[p.id] = p.points`, last write wins. */
  function PointsMap(rs: seq<ResultEntry>): (m: map<string, int>)
    ensures m.Keys == set i | 0 <= i < |rs| :: rs[i].id
  {
    if rs == [] then map[]
    else
      var m := PointsMap(rs[..|rs| - 1]);
      assert forall i :: 0 <= i < |rs| - 1 ==> rs[..|rs| - 1][i] == rs[i];
      m[rs[|rs| - 1].id := rs[|rs| - 1].points]
  }

  /** The `forEach` of the points form's effect (App.js:186-187). */
  method InitialPoints(rs: seq<ResultEntry>) returns (m: map<string, int>)
    ensures m == PointsMap(rs)
  {
    m := map[];
    for i := 0 to |rs|
      invariant m == PointsMap(rs[..i])
    {
      assert rs[..i + 1][..i] == rs[..i];
      m := m[rs[i].id := rs[i].points];
    }
    assert rs[..|rs|] == rs;
  }

  /** `handleConfirm` for a computed result: every entry takes the points now in the form. */
  function ConfirmTournament(res: GameResult, points: map<string, int>, title: string): (r: GameResult)
    ensures r.gameName == GameTitle(title) && r.gameType == res.gameType
    ensures |r.results| == |res.results|
    ensures forall i :: 0 <= i < |r.results| ==>
      r.results[i] == res.results[i].(points := ScoreOf(points, res.results[i].id))
  {
    GameResult(GameTitle(title), res.gameType,
      seq(|res.results|, i requires 0 <= i < |res.results| =>
        res.results[i].(points := ScoreOf(points, res.results[i].id))))
  }

  lemma {:induction false} PointsMapAt(rs: seq<ResultEntry>, i: nat)
    requires DistinctEntryIds(rs) && i < |rs|
    ensures rs[i].id in PointsMap(rs) && PointsMap(rs)[rs[i].id] == rs[i].points
  {
    var n := |rs| - 1;
    if i < n {
      var front := rs[..n];
      assert front[i] == rs[i];
      assert DistinctEntryIds(front) by {
        assert forall a :: 0 <= a < n ==> front[a] == rs[a];
      }
      PointsMapAt(front, i);
      assert rs[n].id != rs[i].id;
    }
  }

  /** Confirming a computed result without editing the form keeps every entry as computed. */
  lemma {:induction false} ConfirmUneditedKeepsResults(res: GameResult, title: string)
    requires DistinctEntryIds(res.results)
    ensures ConfirmTournament(res, PointsMap(res.results), title).results == res.results
  {
    var r := ConfirmTournament(res, PointsMap(res.results), title);
    forall i | 0 <= i < |res.results| ensures r.results[i] == res.results[i] {
      PointsMapAt(res.results, i);
    }
  }

  /** A player with the points entered for them in the form (`points[p.id] || 0`). */
  function WithEnteredPoints(ps: seq<Player>, points: map<string, int>): (r: seq<Player>)
    ensures |r| == |ps|
    ensures forall i :: 0 <= i < |ps| ==> r[i] == ps[i].(points := ScoreOf(points, ps[i].id))
  {
    seq(|ps|, i requires 0 <= i < |ps| => ps[i].(points := ScoreOf(points, ps[i].id)))
  }

  /**
   * `handleConfirm` of "add points manually" (App.js:209-211): the entered
   * points become the result verbatim, ranked by sorting them descending.
   */
  function ConfirmManual(ps: seq<Player>, points: map<string, int>, title: string): (r: GameResult)
    ensures r.gameName == GameTitle(title) && r.gameType == Manual
    ensures |r.results| == |ps|
    ensures multiset(EntryIds(r.results)) == multiset(Ids(ps))
    ensures forall i :: 0 <= i < |r.results| ==>
      r.results[i].rank == i + 1 && r.results[i].points == ScoreOf(points, r.results[i].id)
    ensures forall i, j :: 0 <= i < j < |r.results| ==> r.results[i].points >= r.results[j].points
  {
    var entered := WithEnteredPoints(ps, points);
    var sorted := RankByPoints(entered);
    var results := seq(|sorted|, i requires 0 <= i < |sorted| =>
      ResultEntry(sorted[i].id, sorted[i].name, sorted[i].points, i + 1, None));
    assert EntryIds(results) == Ids(sorted);
    IdsPermutation(sorted, entered);
    assert Ids(entered) == Ids(ps);
    forall i | 0 <= i < |results| ensures results[i].points == ScoreOf(points, results[i].id) {
      assert sorted[i] in multiset(entered);
      var j :| 0 <= j < |entered| && entered[j] == sorted[i];
    }
    GameResult(GameTitle(title), Manual, results)
  }

  /** Permuting players permutes their ids the same way. */
  lemma {:induction false} IdsPermutation(a: seq<Player>, b: seq<Player>)
    requires multiset(a) == multiset(b)
    ensures multiset(Ids(a)) == multiset(Ids(b))
    decreases |a|
  {
    if a != [] {
      var j := Locate(b, a[0]);
      var b' := b[..j] + b[j + 1..];
      RemoveBoth(a, b, j, b');
      IdsPermutation(a[1..], b');
      IdsJoin(a, b, j, b');
    }
  }

  lemma {:induction false} IdsJoin(a: seq<Player>, b: seq<Player>, j: int, b': seq<Player>)
    requires a != [] && 0 <= j < |b| && b[j] == a[0] && b' == b[..j] + b[j + 1..]
    requires multiset(Ids(a[1..])) == multiset(Ids(b'))
    ensures multiset(Ids(a)) == multiset(Ids(b))
  {
    IdsRemoveHead(a);
    IdsRemoveAt(b, j, b');
    MultisetJoin(multiset(Ids(a)), multiset(Ids(a[1..])), multiset(Ids(b)), multiset(Ids(b')), a[0].id);
  }

  lemma {:induction false} IdsRemoveHead(s: seq<Player>)
    requires s != []
    ensures multiset(Ids(s)) == multiset(Ids(s[1..])) + multiset{s[0].id}
  {
    assert Ids(s) == [s[0].id] + Ids(s[1..]);
  }

  lemma {:induction false} IdsRemoveAt(s: seq<Player>, j: int, t: seq<Player>)
    requires 0 <= j < |s| && t == s[..j] + s[j + 1..]
    ensures multiset(Ids(s)) == multiset(Ids(t)) + multiset{s[j].id}
  {
    assert Ids(s) == Ids(s)[..j] + [s[j].id] + Ids(s)[j + 1..];
    assert Ids(t) == Ids(s)[..j] + Ids(s)[j + 1..];
  }

  // ------------------------------------------------------------------ Ledger

  /**
   * Applying a result to the players' totals: for each entry whose player
   * exists, write `snapshot total + sign * points` (App.js:1083-1087 with
   * sign 1, App.js:1095-1099 with sign -1).  The base is always the snapshot
   * taken before the loop, as in the source.
   */
  function ApplyEntries(snapshot: map<string, int>, out: map<string, int>, rs: seq<ResultEntry>, sign: int): map<string, int>
    decreases |rs|
  {
    if rs == [] then out
    else
      var r := rs[0];
      var out' := if r.id in snapshot then out[r.id := snapshot[r.id] + sign * r.points] else out;
      ApplyEntries(snapshot, out', rs[1..], sign)
  }

  function AddGame(ledger: map<string, int>, g: GameResult): map<string, int> {
    ApplyEntries(ledger, ledger, g.results, 1)
  }

  function DeleteGame(ledger: map<string, int>, g: GameResult): map<string, int> {
    ApplyEntries(ledger, ledger, g.results, -1)
  }

  /** The points of the last entry for `id`, if any. */
  function LastPoints(rs: seq<ResultEntry>, id: string): Option<int> {
    if rs == [] then None
    else
      var rest := LastPoints(rs[1..], id);
      if rest.Some? then rest else if rs[0].id == id then Some(rs[0].points) else None
  }

  lemma {:induction false} ApplyEntriesAt(snapshot: map<string, int>, out: map<string, int>, rs: seq<ResultEntry>, sign: int)
    ensures var m := ApplyEntries(snapshot, out, rs, sign);
      && m.Keys == out.Keys + (set id | id in snapshot && LastPoints(rs, id).Some?)
      && forall id :: id in m ==>
           m[id] == if id in snapshot && LastPoints(rs, id).Some? then snapshot[id] + sign * LastPoints(rs, id).value else out[id]
    decreases |rs|
  {
    if rs != [] {
      var r := rs[0];
      var out' := if r.id in snapshot then out[r.id := snapshot[r.id] + sign * r.points] else out;
      ApplyEntriesAt(snapshot, out', rs[1..], sign);
    }
  }

  /** Deleting a game from the history subtracts exactly what adding it added. */
  lemma {:induction false} DeleteUndoesAdd(ledger: map<string, int>, g: GameResult)
    ensures DeleteGame(AddGame(ledger, g), g) == ledger
  {
    var added := AddGame(ledger, g);
    ApplyEntriesAt(ledger, ledger, g.results, 1);
    ApplyEntriesAt(added, added, g.results, -1);
    var back := DeleteGame(added, g);
    assert back.Keys == ledger.Keys;
    forall id | id in ledger ensures back[id] == ledger[id] {
    }
  }
}
