/**
 * The Mario Kart tournament: four snake-drafted groups ranked by dragging,
 * group position `k` sent to final `k`, finals ranked by dragging, and the
 * finals laid out four slots apart for the fixed points scale.
 */
module MarioKart {
  import opened Wrappers
  import opened Sorting
  import opened Roster
  import opened GameResults
  import opened Serpentine

  datatype Stage = GroupStage | FinalStage

  datatype Final = Final(name: string, players: seq<Player>)

  /** Groups A-D are `groups[0..4]`; finals are championship, silver, bronze, last. */
  datatype MkState = MkState(stage: Stage, groups: seq<seq<Player>>, groupResults: map<string, int>, finals: seq<Final>)

  const FinalNames: seq<string> := ["Championship Final (1st-4th)", "Silver Final (5th-8th)",
                                    "Bronze Final (9th-12th)", "Last Place Final (13th-14th)"]

  /** `createMarioKartTournament`: exactly 14 players, snake-drafted by points into four groups. */
  method CreateMarioKartTournament(players: seq<Player>) returns (r: Result<MkState>)
    ensures |players| != 14 ==> r == Err(InvalidPlayerCount)
    ensures |players| == 14 ==> r == Ok(MkState(GroupStage, Draft(RankByPoints(players), 4), map[], []))
  {
    if |players| != 14 {
      return Err(InvalidPlayerCount);
    }
    var ranked := RankByPoints(players);
    var groups := SnakeDraft(ranked, 4);
    r := Ok(MkState(GroupStage, groups, map[], []));
  }

  /** The groups of a created tournament split the roster 3, 3, 4, 4. */
  lemma {:induction false} CreateGroups(players: seq<Player>)
    requires |players| == 14
    ensures multiset(Flatten(Draft(RankByPoints(players), 4))) == multiset(players)
    ensures |Draft(RankByPoints(players), 4)[0]| == 3 && |Draft(RankByPoints(players), 4)[1]| == 3
    ensures |Draft(RankByPoints(players), 4)[2]| == 4 && |Draft(RankByPoints(players), 4)[3]| == 4
  {
    DraftPartition(RankByPoints(players), 4);
    FourGroupSizes(RankByPoints(players));
  }

  // --------------------------------------------------------------- Reorder

  /** The position `splice(o, 0, temp)` inserts at, in a list of length `n`. */
  function Clamp(o: nat, n: nat): nat { if o <= n then o else n }

  /**
   * The drag handler: take out the player at `d`, insert it at `o`
   * (`splice` puts it at the end when `o` is past it).
   */
  function Reorder(s: seq<Player>, d: nat, o: nat): (r: seq<Player>)
    requires d < |s|
    ensures |r| == |s| && multiset(r) == multiset(s)
    ensures r[Clamp(o, |s| - 1)] == s[d]
    ensures r[..Clamp(o, |s| - 1)] + r[Clamp(o, |s| - 1) + 1..] == s[..d] + s[d + 1..]
  {
    var temp := s[d];
    var rest := s[..d] + s[d + 1..];
    var at := Clamp(o, |rest|);
    var r := rest[..at] + [temp] + rest[at..];
    TakeOut(s, d, rest);
    PutBack(rest, temp, at, r);
    r
  }

  /** `splice(d, 1)`: taking out one element removes one copy of it. */
  lemma {:induction false} TakeOut(s: seq<Player>, d: nat, rest: seq<Player>)
    requires d < |s| && rest == s[..d] + s[d + 1..]
    ensures |rest| == |s| - 1 && multiset(s) == multiset(rest) + multiset{s[d]}
  {
    assert s == s[..d] + [s[d]] + s[d + 1..];
  }

  /** `splice(at, 0, temp)`: inserting one element adds one copy and leaves the rest in order around it. */
  lemma {:induction false} PutBack(rest: seq<Player>, temp: Player, at: nat, r: seq<Player>)
    requires at <= |rest| && r == rest[..at] + [temp] + rest[at..]
    ensures |r| == |rest| + 1 && multiset(r) == multiset(rest) + multiset{temp}
    ensures r[at] == temp && r[..at] + r[at + 1..] == rest
  {
    assert r[..at] == rest[..at] && r[at + 1..] == rest[at..];
    assert rest[..at] + rest[at..] == rest;
  }

  /** Dragging the player back from where it landed restores the list. */
  lemma {:induction false} ReorderUndo(s: seq<Player>, d: nat, o: nat)
    requires d < |s| && o < |s|
    ensures Reorder(Reorder(s, d, o), o, d) == s
  {
    var r := Reorder(s, d, o);
    assert Clamp(o, |s| - 1) == o;
    var t := Reorder(r, o, d);
    assert Clamp(d, |r| - 1) == d;
    SameAroundHole(t, s, d);
  }

  /** Two lists of one length that agree at `d` and once `d` is taken out are equal. */
  lemma {:induction false} SameAroundHole<T>(t: seq<T>, s: seq<T>, d: nat)
    requires |t| == |s| && d < |s| && t[d] == s[d]
    requires t[..d] + t[d + 1..] == s[..d] + s[d + 1..]
    ensures t == s
  {
    var u := t[..d] + t[d + 1..];
    forall i | 0 <= i < |s| ensures t[i] == s[i] {
      if i < d {
        assert u[i] == t[i] && u[i] == s[i];
      } else if i > d {
        assert u[i - 1] == t[i] && u[i - 1] == s[i];
      }
    }
  }

  /** `handleGroupSort`: reorder one group, nothing else changes. */
  function GroupSort(st: MkState, g: nat, d: nat, o: nat): (r: MkState)
    requires g < |st.groups| && d < |st.groups[g]|
    ensures r.stage == st.stage && r.groupResults == st.groupResults && r.finals == st.finals
    ensures |r.groups| == |st.groups| && r.groups[g] == Reorder(st.groups[g], d, o)
    ensures forall h :: 0 <= h < |st.groups| && h != g ==> r.groups[h] == st.groups[h]
  {
    st.(groups := st.groups[g := Reorder(st.groups[g], d, o)])
  }

  /** `handleFinalsSort`: reorder one final's players, nothing else changes. */
  function FinalsSort(st: MkState, f: nat, d: nat, o: nat): (r: MkState)
    requires f < |st.finals| && d < |st.finals[f].players|
    ensures r.stage == st.stage && r.groups == st.groups && r.groupResults == st.groupResults
    ensures |r.finals| == |st.finals| && r.finals[f].name == st.finals[f].name
    ensures r.finals[f].players == Reorder(st.finals[f].players, d, o)
    ensures forall h :: 0 <= h < |st.finals| && h != f ==> r.finals[h] == st.finals[h]
  {
    st.(finals := st.finals[f := st.finals[f].(players := Reorder(st.finals[f].players, d, o))])
  }

  // -------------------------------------------------------- Confirm groups

  /** The players at position `k` of each group, in group order: final `k`. */
  function Column(gs: seq<seq<Player>>, k: nat): seq<Player> {
    if gs == [] then [] else Entry(gs[0], k) + Column(gs[1..], k)
  }

  /** The player at position `k` of one group, if it has one. */
  function Entry(h: seq<Player>, k: nat): seq<Player> {
    if k < |h| then [h[k]] else []
  }

  /** `groupResults[id] = index + 1` for one group, in order. */
  function RankGroup(m: map<string, int>, g: seq<Player>): map<string, int> {
    if g == [] then m else RankGroup(m, g[..|g| - 1])[g[|g| - 1].id := |g|]
  }

  function GroupRanks(gs: seq<seq<Player>>): map<string, int> {
    if gs == [] then map[] else RankGroup(GroupRanks(gs[..|gs| - 1]), gs[|gs| - 1])
  }

  function ConfirmGroupsSpec(st: MkState): (r: MkState)
    ensures r.stage == FinalStage && r.groups == st.groups && |r.finals| == 4
    ensures forall k :: 0 <= k < 4 ==> r.finals[k] == Final(FinalNames[k], Column(st.groups, k))
  {
    MkState(FinalStage, st.groups, GroupRanks(st.groups),
            seq(4, k requires 0 <= k < 4 => Final(FinalNames[k], Column(st.groups, k))))
  }

  lemma {:induction false} ColumnSnoc(gs: seq<seq<Player>>, h: seq<Player>, k: nat)
    ensures Column(gs + [h], k) == Column(gs, k) + (if k < |h| then [h[k]] else [])
    decreases |gs|
  {
    if gs == [] {
      assert ([] + [h])[1..] == [];
    } else {
      assert (gs + [h])[1..] == gs[1..] + [h];
      ColumnSnoc(gs[1..], h, k);
    }
  }

  /** One group's `forEach`: record every position, and send the first four to the finals. */
  method ConfirmGroup(m0: map<string, int>, fs0: seq<seq<Player>>, group: seq<Player>)
    returns (m: map<string, int>, fs: seq<seq<Player>>)
    requires |fs0| == 4
    ensures m == RankGroup(m0, group)
    ensures |fs| == 4 && forall k :: 0 <= k < 4 ==> fs[k] == fs0[k] + (if k < |group| then [group[k]] else [])
  {
    m, fs := m0, fs0;
    for index := 0 to |group|
      invariant m == RankGroup(m0, group[..index])
      invariant |fs| == 4 && forall k :: 0 <= k < 4 ==> fs[k] == fs0[k] + (if k < index then [group[k]] else [])
    {
      var player := group[index];
      assert group[..index + 1][..index] == group[..index];
      m := m[player.id := index + 1];
      if index < 4 {
        fs := fs[index := fs[index] + [player]];
      }
    }
    assert group[..|group|] == group;
  }

  /** `handleConfirmGroups`. */
  method ConfirmGroups(st: MkState) returns (r: MkState)
    ensures r == ConfirmGroupsSpec(st)
  {
    var groupResults: map<string, int> := map[];
    var fs: seq<seq<Player>> := [[], [], [], []];
    for gi := 0 to |st.groups|
      invariant groupResults == GroupRanks(st.groups[..gi])
      invariant |fs| == 4 && forall k :: 0 <= k < 4 ==> fs[k] == Column(st.groups[..gi], k)
    {
      var group := st.groups[gi];
      assert st.groups[..gi + 1] == st.groups[..gi] + [group];
      assert st.groups[..gi + 1][..gi] == st.groups[..gi];
      forall k | 0 <= k < 4 ensures Column(st.groups[..gi + 1], k) == Column(st.groups[..gi], k) + (if k < |group| then [group[k]] else []) {
        ColumnSnoc(st.groups[..gi], group, k);
      }
      groupResults, fs := ConfirmGroup(groupResults, fs, group);
    }
    assert st.groups[..|st.groups|] == st.groups;
    var finals := seq(4, k requires 0 <= k < 4 => Final(FinalNames[k], fs[k]));
    r := MkState(FinalStage, st.groups, groupResults, finals);
  }

  /** Each group's players, in group order, as four fixed columns. */
  function Columns(gs: seq<seq<Player>>): seq<Player> {
    Column(gs, 0) + Column(gs, 1) + Column(gs, 2) + Column(gs, 3)
  }

  /** With at most four players per group, the finals hold every group player exactly once. */
  lemma {:induction false} FinalsPartition(gs: seq<seq<Player>>)
    requires forall g :: 0 <= g < |gs| ==> |gs[g]| <= 4
    ensures multiset(Columns(gs)) == multiset(Flatten(gs))
    decreases |gs|
  {
    if gs != [] {
      FinalsPartition(gs[1..]);
      var h := gs[0];
      var t := gs[1..];
      assert multiset(Columns(gs)) == multiset(Entry(h, 0) + Entry(h, 1) + Entry(h, 2) + Entry(h, 3)) + multiset(Columns(t));
      HeadEntries(h);
      assert Flatten(gs) == h + Flatten(t);
    }
  }

  lemma {:induction false} HeadEntries(h: seq<Player>)
    requires |h| <= 4
    ensures h == Entry(h, 0) + Entry(h, 1) + Entry(h, 2) + Entry(h, 3)
  {
    if |h| == 4 { assert h == [h[0], h[1], h[2], h[3]]; }
    else if |h| == 3 { assert h == [h[0], h[1], h[2]]; }
    else if |h| == 2 { assert h == [h[0], h[1]]; }
    else if |h| == 1 { assert h == [h[0]]; }
  }

  lemma {:induction false} ColumnFour(gs: seq<seq<Player>>, k: nat)
    requires |gs| == 4
    ensures Column(gs, k) == Entry(gs[0], k) + Entry(gs[1], k) + Entry(gs[2], k) + Entry(gs[3], k)
  {
    var t1 := gs[1..];
    var t2 := t1[1..];
    var t3 := t2[1..];
    assert t3[1..] == [];
    assert Column(t3, k) == Entry(gs[3], k) + Column(t3[1..], k);
    assert Column(t2, k) == Entry(gs[2], k) + Column(t3, k);
    assert Column(t1, k) == Entry(gs[1], k) + Column(t2, k);
  }

  /** After the draft (or any reordering of it) the finals have 4, 4, 4 and 2 players. */
  lemma {:induction false} FinalsSizes(gs: seq<seq<Player>>)
    requires |gs| == 4 && |gs[0]| == 3 && |gs[1]| == 3 && |gs[2]| == 4 && |gs[3]| == 4
    ensures |Column(gs, 0)| == 4 && |Column(gs, 1)| == 4 && |Column(gs, 2)| == 4 && |Column(gs, 3)| == 2
  {
    ColumnFour(gs, 0);
    ColumnFour(gs, 1);
    ColumnFour(gs, 2);
    ColumnFour(gs, 3);
  }

  /** Every group player's recorded position is its place in its group. */
  lemma {:induction false} RankGroupAt(m: map<string, int>, g: seq<Player>, i: nat)
    requires DistinctIds(g) && i < |g|
    ensures g[i].id in RankGroup(m, g) && RankGroup(m, g)[g[i].id] == i + 1
    decreases |g|
  {
    if i < |g| - 1 {
      RankGroupAt(m, g[..|g| - 1], i);
    }
  }

  lemma {:induction false} RankGroupKeeps(m: map<string, int>, g: seq<Player>, id: string)
    requires id !in Ids(g) && id in m
    ensures id in RankGroup(m, g) && RankGroup(m, g)[id] == m[id]
    decreases |g|
  {
    if g != [] {
      RankGroupKeeps(m, g[..|g| - 1], id);
    }
  }

  /**
   * With ids unique across the groups, each player's group result is its
   * 1-based position in its own group.
   */
  lemma {:induction false} GroupRanksAt(gs: seq<seq<Player>>, g: nat, i: nat)
    requires g < |gs| && i < |gs[g]|
    requires forall a :: 0 <= a < |gs| ==> DistinctIds(gs[a])
    requires forall a, b, x, y :: 0 <= a < b < |gs| && x in gs[a] && y in gs[b] ==> x.id != y.id
    ensures gs[g][i].id in GroupRanks(gs) && GroupRanks(gs)[gs[g][i].id] == i + 1
    decreases |gs|
  {
    var n := |gs| - 1;
    var front := gs[..n];
    if g == n {
      RankGroupAt(GroupRanks(front), gs[n], i);
    } else {
      GroupRanksAt(front, g, i);
      var x := gs[g][i];
      assert x in gs[g];
      forall j | 0 <= j < |gs[n]| ensures gs[n][j].id != x.id {
        assert gs[n][j] in gs[n];
      }
      RankGroupKeeps(GroupRanks(front), gs[n], x.id);
    }
  }

  // ---------------------------------------------------------------- Finish

  /** `finalRankings[idx] = p` on a sparse array: holes are `None`. */
  function Write(arr: seq<Option<Player>>, idx: nat, p: Player): (r: seq<Option<Player>>)
    ensures |r| == if idx < |arr| then |arr| else idx + 1
    ensures r[idx] == Some(p) && forall j :: 0 <= j < |arr| && j != idx ==> r[j] == arr[j]
    ensures forall j :: |arr| <= j < idx ==> r[j] == None
  {
    if idx < |arr| then arr[idx := Some(p)] else arr + seq(idx - |arr|, _ => None) + [Some(p)]
  }

  /** `final.players.forEach((p, i) => finalRankings[i + offset] = p)`. */
  function PlaceAll(arr: seq<Option<Player>>, ps: seq<Player>, offset: nat): seq<Option<Player>> {
    if ps == [] then arr else Write(PlaceAll(arr, ps[..|ps| - 1], offset), offset + |ps| - 1, ps[|ps| - 1])
  }

  method PlaceFinal(arr0: seq<Option<Player>>, ps: seq<Player>, offset: nat) returns (arr: seq<Option<Player>>)
    ensures arr == PlaceAll(arr0, ps, offset)
  {
    arr := arr0;
    for i := 0 to |ps|
      invariant arr == PlaceAll(arr0, ps[..i], offset)
    {
      assert ps[..i + 1][..i] == ps[..i];
      arr := Write(arr, i + offset, ps[i]);
    }
    assert ps[..|ps|] == ps;
  }

  function Slots(fs: seq<Final>): seq<Option<Player>>
    requires |fs| == 4
  {
    PlaceAll(PlaceAll(PlaceAll(PlaceAll([], fs[0].players, 0), fs[1].players, 4), fs[2].players, 8), fs[3].players, 12)
  }

  /** `finalRankings.map(...)`: a row per filled slot, points counted from the array length. */
  function SlotEntries(arr: seq<Option<Player>>, j: nat): (r: seq<ResultEntry>)
    requires j <= |arr|
  {
    if j == 0 then []
    else SlotEntries(arr, j - 1) + (if arr[j - 1].Some? then [ResultEntry(arr[j - 1].value.id, arr[j - 1].value.name, |arr| - (j - 1), j, None)] else [])
  }

  function MarioKartFinishSpec(st: MkState): (r: GameResult)
    requires |st.finals| == 4
    ensures r.gameName == "Mario Kart Tournament" && r.gameType == MarioKart
  {
    GameResult("Mario Kart Tournament", MarioKart, SlotEntries(Slots(st.finals), |Slots(st.finals)|))
  }

  /** `handleFinish`: the four placements, then the results. */
  method MarioKartFinish(st: MkState) returns (r: GameResult)
    requires |st.finals| == 4
    ensures r == MarioKartFinishSpec(st)
  {
    var finalRankings: seq<Option<Player>> := [];
    finalRankings := PlaceFinal(finalRankings, st.finals[0].players, 0);
    finalRankings := PlaceFinal(finalRankings, st.finals[1].players, 4);
    finalRankings := PlaceFinal(finalRankings, st.finals[2].players, 8);
    finalRankings := PlaceFinal(finalRankings, st.finals[3].players, 12);
    r := GameResult("Mario Kart Tournament", MarioKart, SlotEntries(finalRankings, |finalRankings|));
  }

  function Filled(ps: seq<Player>): (r: seq<Option<Player>>)
    ensures |r| == |ps| && forall i :: 0 <= i < |ps| ==> r[i] == Some(ps[i])
  {
    seq(|ps|, i requires 0 <= i < |ps| => Some(ps[i]))
  }

  /** Placing a final right at the end of the array appends it without holes. */
  lemma {:induction false} PlaceAllContiguous(arr: seq<Option<Player>>, ps: seq<Player>)
    ensures PlaceAll(arr, ps, |arr|) == arr + Filled(ps)
    decreases |ps|
  {
    if ps != [] {
      var n := |ps| - 1;
      PlaceAllContiguous(arr, ps[..n]);
      assert Filled(ps) == Filled(ps[..n]) + [Some(ps[n])];
    }
  }

  lemma {:induction false} SlotEntriesFilled(ps: seq<Player>, j: nat)
    requires j <= |ps|
    ensures SlotEntries(Filled(ps), j) == Positional(ps)[..j]
    decreases j
  {
    if j > 0 {
      var k := j - 1;
      SlotEntriesFilled(ps, k);
      SlotFilledStep(ps, j, k, Filled(ps), Positional(ps));
    }
  }

  lemma {:induction false} SlotFilledStep(ps: seq<Player>, j: nat, k: nat, f: seq<Option<Player>>, p: seq<ResultEntry>)
    requires 0 < j <= |ps| && k == j - 1 && f == Filled(ps) && p == Positional(ps)
    requires SlotEntries(f, k) == p[..k]
    ensures SlotEntries(f, j) == p[..j]
  {
    assert f[k] == Some(ps[k]);
    assert p[k] == ResultEntry(ps[k].id, ps[k].name, |ps| - k, j, None);
    assert p[..j] == p[..k] + [p[k]];
  }

  /**
   * With full championship, silver and bronze finals and at most four in the
   * last, the result is the four finals in order on the fixed scale.
   */
  lemma {:induction false} FinishPositional(st: MkState)
    requires |st.finals| == 4
    requires |st.finals[0].players| == 4 && |st.finals[1].players| == 4 && |st.finals[2].players| == 4
    requires |st.finals[3].players| <= 4
    ensures var all := st.finals[0].players + st.finals[1].players + st.finals[2].players + st.finals[3].players;
      MarioKartFinishSpec(st).results == Positional(all)
  {
    var f := st.finals;
    PlaceAllContiguous([], f[0].players);
    var a0 := Filled(f[0].players);
    assert [] + a0 == a0;
    PlaceAllContiguous(a0, f[1].players);
    var a1 := a0 + Filled(f[1].players);
    PlaceAllContiguous(a1, f[2].players);
    var a2 := a1 + Filled(f[2].players);
    PlaceAllContiguous(a2, f[3].players);
    var all := f[0].players + f[1].players + f[2].players + f[3].players;
    assert a2 + Filled(f[3].players) == Filled(all);
    SlotEntriesFilled(all, |all|);
    assert Positional(all)[..|all|] == Positional(all);
  }

  /** Confirming groups of sizes 3, 3, 4, 4 and finishing gives the columns on the fixed scale. */
  lemma {:induction false} ConfirmThenFinish(gs: seq<seq<Player>>)
    requires |gs| == 4 && |gs[0]| == 3 && |gs[1]| == 3 && |gs[2]| == 4 && |gs[3]| == 4
    ensures MarioKartFinishSpec(ConfirmGroupsSpec(MkState(GroupStage, gs, map[], []))).results == Positional(Columns(gs))
  {
    FinalsSizes(gs);
    var st := ConfirmGroupsSpec(MkState(GroupStage, gs, map[], []));
    FinishPositional(st);
    assert st.finals[0].players + st.finals[1].players + st.finals[2].players + st.finals[3].players == Columns(gs);
  }

  /** Groups that are reorderings of the draft keep its sizes and its players. */
  lemma {:induction false} ReorderedDraft(players: seq<Player>, gs: seq<seq<Player>>)
    requires |players| == 14
    requires |gs| == 4 && forall g :: 0 <= g < 4 ==> multiset(gs[g]) == multiset(Draft(RankByPoints(players), 4)[g])
    ensures |gs[0]| == 3 && |gs[1]| == 3 && |gs[2]| == 4 && |gs[3]| == 4
    ensures multiset(Columns(gs)) == multiset(players)
  {
    var d := Draft(RankByPoints(players), 4);
    CreateGroups(players);
    ReorderedSizes(gs, d);
    FinalsPartition(gs);
    FlattenSameGroups(gs, d);
  }

  lemma {:induction false} ReorderedSizes(gs: seq<seq<Player>>, d: seq<seq<Player>>)
    requires |gs| == 4 && |d| == 4 && forall g :: 0 <= g < 4 ==> multiset(gs[g]) == multiset(d[g])
    requires |d[0]| == 3 && |d[1]| == 3 && |d[2]| == 4 && |d[3]| == 4
    ensures |gs[0]| == 3 && |gs[1]| == 3 && |gs[2]| == 4 && |gs[3]| == 4
    ensures forall g :: 0 <= g < |gs| ==> |gs[g]| <= 4
  {
    forall g | 0 <= g < 4 ensures |gs[g]| == |d[g]| {
      assert |multiset(gs[g])| == |multiset(d[g])|;
    }
  }

  /**
   * The whole tournament: create with 14 players, confirm the groups, and
   * finish, with any drag reorders of the groups in between. Every player
   * gets exactly one row, ranked 1 to 14 with 14 down to 1 points.
   */
  lemma {:induction false} TournamentCoversRoster(players: seq<Player>, gs: seq<seq<Player>>)
    requires |players| == 14
    requires |gs| == 4 && forall g :: 0 <= g < 4 ==> multiset(gs[g]) == multiset(Draft(RankByPoints(players), 4)[g])
    ensures |MarioKartFinishSpec(ConfirmGroupsSpec(MkState(GroupStage, gs, map[], []))).results| == 14
    ensures multiset(EntryIds(MarioKartFinishSpec(ConfirmGroupsSpec(MkState(GroupStage, gs, map[], []))).results)) == multiset(Ids(players))
    ensures forall i :: 0 <= i < 14 ==>
      MarioKartFinishSpec(ConfirmGroupsSpec(MkState(GroupStage, gs, map[], []))).results[i].rank == i + 1
      && MarioKartFinishSpec(ConfirmGroupsSpec(MkState(GroupStage, gs, map[], []))).results[i].points == 14 - i
  {
    ReorderedDraft(players, gs);
    ConfirmThenFinish(gs);
    var all := Columns(gs);
    assert |all| == 14 by { assert |multiset(all)| == |multiset(players)|; }
    IdsPermutation(all, players);
  }

  /** A finals drag keeps every final's players, only their order changes. */
  lemma {:induction false} FinalsSortKeeps(st: MkState, f: nat, d: nat, o: nat)
    requires f < |st.finals| && d < |st.finals[f].players|
    ensures forall h :: 0 <= h < |st.finals| ==>
      multiset(FinalsSort(st, f, d, o).finals[h].players) == multiset(st.finals[h].players)
  {
    var r := FinalsSort(st, f, d, o);
    forall h | 0 <= h < |st.finals| ensures multiset(r.finals[h].players) == multiset(st.finals[h].players) {
      if h == f {
        assert r.finals[f].players == Reorder(st.finals[f].players, d, o);
      }
    }
  }

  /**
   * The whole tournament with the finals dragged too: any state whose four
   * finals hold the players the confirmation put in them, in any order, still
   * finishes with every roster player once, ranked 1 to 14 with 14 down to 1
   * points.
   */
  lemma {:induction false} TournamentWithFinalsDrags(players: seq<Player>, gs: seq<seq<Player>>, st: MkState)
    requires |players| == 14
    requires |gs| == 4 && forall g :: 0 <= g < 4 ==> multiset(gs[g]) == multiset(Draft(RankByPoints(players), 4)[g])
    requires |st.finals| == 4
    requires forall f :: 0 <= f < 4 ==>
      multiset(st.finals[f].players) == multiset(ConfirmGroupsSpec(MkState(GroupStage, gs, map[], [])).finals[f].players)
    ensures |MarioKartFinishSpec(st).results| == 14
    ensures multiset(EntryIds(MarioKartFinishSpec(st).results)) == multiset(Ids(players))
    ensures forall i :: 0 <= i < 14 ==>
      MarioKartFinishSpec(st).results[i].rank == i + 1 && MarioKartFinishSpec(st).results[i].points == 14 - i
  {
    ReorderedDraft(players, gs);
    FinalsSizes(gs);
    var f := st.finals;
    DraggedFinals(f[0].players, f[1].players, f[2].players, f[3].players,
                  Column(gs, 0), Column(gs, 1), Column(gs, 2), Column(gs, 3));
    FinishPositional(st);
    var all := f[0].players + f[1].players + f[2].players + f[3].players;
    assert multiset(Columns(gs)) == multiset(Column(gs, 0)) + multiset(Column(gs, 1)) + multiset(Column(gs, 2)) + multiset(Column(gs, 3));
    assert multiset(all) == multiset(players);
    assert |all| == 14 by { assert |multiset(all)| == |multiset(players)|; }
    IdsPermutation(all, players);
  }

  /** Four reordered finals keep their sizes and, together, their players. */
  lemma {:induction false} DraggedFinals(a: seq<Player>, b: seq<Player>, c: seq<Player>, d: seq<Player>,
                                         a0: seq<Player>, b0: seq<Player>, c0: seq<Player>, d0: seq<Player>)
    requires multiset(a) == multiset(a0) && multiset(b) == multiset(b0)
    requires multiset(c) == multiset(c0) && multiset(d) == multiset(d0)
    ensures |a| == |a0| && |b| == |b0| && |c| == |c0| && |d| == |d0|
    ensures multiset(a + b + c + d) == multiset(a0 + b0 + c0 + d0)
  {
    assert |multiset(a)| == |multiset(a0)| && |multiset(b)| == |multiset(b0)|;
    assert |multiset(c)| == |multiset(c0)| && |multiset(d)| == |multiset(d0)|;
  }

  lemma {:induction false} FlattenSameGroups(a: seq<seq<Player>>, b: seq<seq<Player>>)
    requires |a| == |b| && forall g :: 0 <= g < |a| ==> multiset(a[g]) == multiset(b[g])
    ensures multiset(Flatten(a)) == multiset(Flatten(b))
    decreases |a|
  {
    if a != [] {
      FlattenSameGroups(a[1..], b[1..]);
    }
  }
}
