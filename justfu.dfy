/**
 * The Just Fu tournament: three snake-drafted groups scored by the host,
 * a championship final of the group winners plus three wild cards, silver
 * and bronze finals of the next four and the next four, and the finals
 * laid end to end on the fixed points scale.
 */
module JustFu {
  import opened Wrappers
  import opened Sorting
  import opened Roster
  import opened GameResults
  import opened Serpentine

  datatype Stage = GroupStage | FinalStage

  datatype JfFinal = JfFinal(name: string, players: seq<Player>, scores: map<string, int>)

  /** Groups A-C are `groups[0..3]`; finals are championship, silver, bronze. */
  datatype JfState = JfState(stage: Stage, groups: seq<seq<Player>>, groupScores: map<string, int>, finals: seq<JfFinal>)

  /** `createJustFuTournament`: exactly 14 players, snake-drafted into three groups, every score 0. */
  method CreateJustFuTournament(players: seq<Player>) returns (r: Result<JfState>)
    ensures |players| != 14 ==> r == Err(InvalidPlayerCount)
    ensures |players| == 14 ==> r == Ok(JfState(GroupStage, Draft(RankByPoints(players), 3), ZeroMap(players), []))
  {
    if |players| != 14 {
      return Err(InvalidPlayerCount);
    }
    var ranked := RankByPoints(players);
    var groups := SnakeDraft(ranked, 3);
    var initialScores := ZeroScores(players);
    r := Ok(JfState(GroupStage, groups, initialScores, []));
  }

  // ------------------------------------------------------------ Selection

  /** `group.map(p => players.find(ap => ap.id === p.id)).filter(Boolean)`. */
  function Found(ps: seq<Player>, group: seq<Player>): (r: seq<Player>)
    ensures forall x :: x in r ==> x in ps && x.id in Ids(group)
    ensures (exists x :: x in group && x.id in Ids(ps)) ==> r != []
  {
    if group == [] then []
    else
      var rest := Found(ps, group[1..]);
      assert forall x :: x in rest ==> x.id in Ids(group) by {
        assert forall y :: y in Ids(group[1..]) ==> y in Ids(group);
      }
      assert (exists x :: x in group[1..] && x.id in Ids(ps)) ==> rest != [];
      assert forall x :: x in group ==> x == group[0] || x in group[1..];
      match FindById(ps, group[0].id)
      case Some(p) => [p] + rest
      case None => rest
  }

  /** The top scorer among the group members found in the roster; ties go to the earlier member. */
  function GroupWinner(ps: seq<Player>, group: seq<Player>, scores: map<string, int>): (r: Option<Player>)
    ensures r.Some? <==> Found(ps, group) != []
    ensures r.Some? ==> r.value in ps && r.value.id in Ids(group)
    ensures r.Some? ==> forall x :: x in Found(ps, group) ==> ScoreOf(scores, r.value.id) >= ScoreOf(scores, x.id)
  {
    var found := Found(ps, group);
    if found == [] then None
    else
      var ranked := RankByScore(found, scores);
      assert ranked[0] in multiset(found);
      assert forall x :: x in found ==> ScoreOf(scores, ranked[0].id) >= ScoreOf(scores, x.id) by {
        forall x | x in found ensures ScoreOf(scores, ranked[0].id) >= ScoreOf(scores, x.id) {
          assert x in multiset(ranked);
          var j :| 0 <= j < |ranked| && ranked[j] == x;
        }
      }
      Some(ranked[0])
  }

  /** `groupWinners`: one per group that has a found member, in group order. */
  function Winners(ps: seq<Player>, gs: seq<seq<Player>>, scores: map<string, int>): (r: seq<Player>)
    ensures |r| <= |gs|
    ensures forall x :: x in r ==> x in ps
  {
    if gs == [] then []
    else
      (match GroupWinner(ps, gs[0], scores) case Some(w) => [w] case None => []) + Winners(ps, gs[1..], scores)
  }

  function IdSet(ps: seq<Player>): (r: set<string>)
    ensures forall id :: id in r <==> id in Ids(ps)
  {
    set i | 0 <= i < |ps| :: ps[i].id
  }

  /** `ps.filter(p => !ids.has(p.id))`. */
  function FilterOut(ps: seq<Player>, ids: set<string>): (r: seq<Player>)
    ensures forall x :: x in r <==> x in ps && x.id !in ids
    ensures |r| <= |ps|
  {
    if ps == [] then []
    else (if ps[0].id in ids then [] else [ps[0]]) + FilterOut(ps[1..], ids)
  }

  function Take(s: seq<Player>, n: nat): (r: seq<Player>)
    ensures |r| == if n <= |s| then n else |s|
  {
    if n <= |s| then s[..n] else s
  }

  function Slice(s: seq<Player>, a: nat, b: nat): (r: seq<Player>)
    requires a <= b
  {
    if b <= |s| then s[a..b] else if a <= |s| then s[a..] else []
  }

  /** Decimal digits of a count, for the final names. */
  function NatStr(n: nat): string
    decreases n
  {
    (if n < 10 then "" else NatStr(n / 10)) + [['0', '1', '2', '3', '4', '5', '6', '7', '8', '9'][n % 10]]
  }

  /** The players still to place after the winners, best score first. */
  function Remaining(ps: seq<Player>, w: seq<Player>, scores: map<string, int>): seq<Player> {
    RankByScore(FilterOut(ps, IdSet(w)), scores)
  }

  /** The best three of the rest. */
  function WildCards(ps: seq<Player>, w: seq<Player>, scores: map<string, int>): seq<Player> {
    Take(Remaining(ps, w, scores), 3)
  }

  /** Everyone who is neither a winner nor a wild card, best score first. */
  function Lower(ps: seq<Player>, w: seq<Player>, scores: map<string, int>): seq<Player> {
    RankByScore(FilterOut(ps, IdSet(w) + IdSet(WildCards(ps, w, scores))), scores)
  }

  /** The championship final: group winners in group order, then the wild cards. */
  function Champions(players: seq<Player>, gs: seq<seq<Player>>, scores: map<string, int>): seq<Player> {
    var w := Winners(players, gs, scores);
    w + WildCards(players, w, scores)
  }

  function LowerOf(players: seq<Player>, gs: seq<seq<Player>>, scores: map<string, int>): seq<Player> {
    Lower(players, Winners(players, gs, scores), scores)
  }

  function FinalsOf(champions: seq<Player>, silver: seq<Player>, bronze: seq<Player>, zero: map<string, int>): (r: seq<JfFinal>)
    ensures |r| == 3 && r[0].players == champions && r[1].players == silver && r[2].players == bronze
    ensures forall k :: 0 <= k < 3 ==> r[k].scores == zero
  {
    var c, sv := |champions|, |silver|;
    [JfFinal("Championship Final (1st-" + NatStr(c) + "th)", champions, zero),
     JfFinal("Silver Final (" + NatStr(c + 1) + "th-" + NatStr(c + sv) + "th)", silver, zero),
     JfFinal("Bronze Final (" + NatStr(c + sv + 1) + "th-14th)", bronze, zero)]
  }

  /** `handleConfirmGroups`: championship, then the next four, then the four after them. */
  function ConfirmGroups(players: seq<Player>, st: JfState): (r: JfState)
    ensures r.stage == FinalStage && r.groups == st.groups && r.groupScores == st.groupScores && |r.finals| == 3
    ensures r.finals[0].players == Champions(players, st.groups, st.groupScores)
    ensures r.finals[1].players == Take(LowerOf(players, st.groups, st.groupScores), 4)
    ensures r.finals[2].players == Slice(LowerOf(players, st.groups, st.groupScores), 4, 8)
    ensures forall k :: 0 <= k < 3 ==> r.finals[k].scores == ZeroMap(players)
  {
    var lower := LowerOf(players, st.groups, st.groupScores);
    JfState(FinalStage, st.groups, st.groupScores,
      FinalsOf(Champions(players, st.groups, st.groupScores), Take(lower, 4), Slice(lower, 4, 8), ZeroMap(players)))
  }

  // ---------------------------------------------------------------- Finish

  /** One final ranked by its own scores, as `FreeForAllGame.FfaRanking` ranks the free-for-all. */
  function RankFinal(f: JfFinal): (r: seq<Player>)
    ensures multiset(r) == multiset(f.players)
    ensures forall i, j :: 0 <= i < j < |r| ==> ScoreOf(f.scores, r[i].id) >= ScoreOf(f.scores, r[j].id)
  {
    RankByScore(f.players, f.scores)
  }

  /** `handleFinish`: the three ranked finals end to end on the fixed scale. */
  function JustFuFinish(st: JfState): (r: GameResult)
    requires |st.finals| == 3
    ensures r.gameName == "Just Fu Tournament" && r.gameType == JustFu
    ensures r.results == Positional(RankFinal(st.finals[0]) + RankFinal(st.finals[1]) + RankFinal(st.finals[2]))
  {
    GameResult("Just Fu Tournament", JustFu, Positional(RankFinal(st.finals[0]) + RankFinal(st.finals[1]) + RankFinal(st.finals[2])))
  }

  lemma {:induction false} IdsAppend(x: seq<Player>, y: seq<Player>)
    ensures Ids(x + y) == Ids(x) + Ids(y)
  {
  }

  lemma {:induction false} IdOfMember(s: seq<Player>, x: Player)
    requires x in s
    ensures x.id in Ids(s)
  {
    var k :| 0 <= k < |s| && s[k] == x;
    assert Ids(s)[k] == x.id;
  }

  /** Every finalist gets exactly one row of the result. */
  lemma {:induction false} FinishCoversFinals(st: JfState)
    requires |st.finals| == 3
    ensures multiset(EntryIds(JustFuFinish(st).results)) ==
      multiset(Ids(st.finals[0].players)) + multiset(Ids(st.finals[1].players)) + multiset(Ids(st.finals[2].players))
  {
    var a, b, c := RankFinal(st.finals[0]), RankFinal(st.finals[1]), RankFinal(st.finals[2]);
    IdsAppend(a, b);
    IdsAppend(a + b, c);
    IdsPermutation(a, st.finals[0].players);
    IdsPermutation(b, st.finals[1].players);
    IdsPermutation(c, st.finals[2].players);
  }

  /** The championship finalists take ranks 1 to `|champions|`, whatever any other final's scores. */
  lemma {:induction false} FinishChampionsFirst(st: JfState)
    requires |st.finals| == 3
    ensures |st.finals[0].players| <= |JustFuFinish(st).results|
    ensures forall i :: 0 <= i < |st.finals[0].players| ==>
      JustFuFinish(st).results[i].rank == i + 1 && JustFuFinish(st).results[i].id in Ids(st.finals[0].players)
  {
    var a, b, c := RankFinal(st.finals[0]), RankFinal(st.finals[1]), RankFinal(st.finals[2]);
    var all := a + b + c;
    var r := Positional(all);
    assert |a| == |st.finals[0].players| by { assert |multiset(a)| == |multiset(st.finals[0].players)|; }
    forall i | 0 <= i < |a| ensures r[i].rank == i + 1 && r[i].id in Ids(st.finals[0].players) {
      assert EntryIds(r)[i] == Ids(all)[i];
      assert all[i] == a[i];
      assert a[i] in multiset(st.finals[0].players);
      IdOfMember(st.finals[0].players, a[i]);
    }
  }

  // ------------------------------------------------------------- Partition

  lemma {:induction false} DistinctCount(s: seq<Player>, x: Player)
    requires DistinctIds(s)
    ensures multiset(s)[x] == if x in s then 1 else 0
    decreases |s|
  {
    if s != [] {
      assert s == [s[0]] + s[1..];
      assert DistinctIds(s[1..]) by {
        forall i, j | 0 <= i < j < |s| - 1 ensures s[1..][i].id != s[1..][j].id {
          assert s[1..][i] == s[i + 1] && s[1..][j] == s[j + 1];
        }
      }
      DistinctCount(s[1..], x);
      if x == s[0] {
        forall i | 0 <= i < |s| - 1 ensures s[1..][i] != x {
          assert s[1..][i] == s[i + 1];
        }
      }
    }
  }

  /** Two duplicate-free lists with the same members are permutations of each other. */
  lemma {:induction false} SameMembers(a: seq<Player>, b: seq<Player>)
    requires DistinctIds(a) && DistinctIds(b)
    requires forall x :: x in a <==> x in b
    ensures multiset(a) == multiset(b)
  {
    forall x ensures multiset(a)[x] == multiset(b)[x] {
      DistinctCount(a, x);
      DistinctCount(b, x);
    }
  }

  /** A rearrangement of a list with distinct ids has distinct ids. */
  lemma {:induction false} DistinctPerm(a: seq<Player>, b: seq<Player>)
    requires DistinctIds(a) && multiset(a) == multiset(b)
    ensures DistinctIds(b)
  {
    forall i, j | 0 <= i < j < |b| ensures b[i].id != b[j].id {
      assert b[i] in multiset(a) && b[j] in multiset(a);
      var p :| 0 <= p < |a| && a[p] == b[i];
      var q :| 0 <= q < |a| && a[q] == b[j];
      if p == q {
        SeenTwice(b, i, j);
        DistinctCount(a, b[i]);
      }
    }
  }

  lemma {:induction false} SeenTwice(b: seq<Player>, i: nat, j: nat)
    requires i < j < |b| && b[i] == b[j]
    ensures multiset(b)[b[i]] >= 2
  {
    assert b == b[..j] + b[j..];
    assert b[i] in b[..j] && b[j] in b[j..];
  }

  lemma {:induction false} FilterOutDistinct(ps: seq<Player>, ids: set<string>)
    requires DistinctIds(ps)
    ensures DistinctIds(FilterOut(ps, ids))
    decreases |ps|
  {
    if ps != [] {
      assert DistinctIds(ps[1..]) by {
        forall i, j | 0 <= i < j < |ps| - 1 ensures ps[1..][i].id != ps[1..][j].id {
          assert ps[1..][i] == ps[i + 1] && ps[1..][j] == ps[j + 1];
        }
      }
      FilterOutDistinct(ps[1..], ids);
      var r := FilterOut(ps, ids);
      var t := FilterOut(ps[1..], ids);
      if ps[0].id !in ids {
        forall j | 0 <= j < |t| ensures t[j].id != ps[0].id {
          assert t[j] in ps[1..];
        }
        forall i, j | 0 <= i < j < |r| ensures r[i].id != r[j].id {
          if i > 0 { assert r[i] == t[i - 1] && r[j] == t[j - 1]; }
          else { assert r[j] == t[j - 1]; }
        }
      }
    }
  }

  /** Filtering by id respects rearrangement. */
  lemma {:induction false} FilterOutCount(ps: seq<Player>, ids: set<string>, x: Player)
    ensures multiset(FilterOut(ps, ids))[x] == if x.id in ids then 0 else multiset(ps)[x]
    decreases |ps|
  {
    if ps != [] {
      var t := ps[1..];
      FilterOutCount(t, ids, x);
      FilterOutCountStep(ps, t, ids, x);
    }
  }

  lemma {:induction false} FilterOutCountStep(ps: seq<Player>, t: seq<Player>, ids: set<string>, x: Player)
    requires ps != [] && t == ps[1..]
    requires multiset(FilterOut(t, ids))[x] == if x.id in ids then 0 else multiset(t)[x]
    ensures multiset(FilterOut(ps, ids))[x] == if x.id in ids then 0 else multiset(ps)[x]
  {
    var h := if ps[0].id in ids then [] else [ps[0]];
    FilterOutHead(ps, t, ids, h);
    FilterCountJoin(ps[0], t, ps, h, FilterOut(t, ids), FilterOut(ps, ids), ids, x);
  }

  lemma {:induction false} FilterOutHead(ps: seq<Player>, t: seq<Player>, ids: set<string>, h: seq<Player>)
    requires |ps| > 0 && t == ps[1..] && h == if ps[0].id in ids then [] else [ps[0]]
    ensures FilterOut(ps, ids) == h + FilterOut(t, ids)
  {
  }

  lemma {:induction false} FilterCountJoin(p0: Player, t: seq<Player>, ps: seq<Player>, h: seq<Player>,
                                           ft: seq<Player>, f: seq<Player>, ids: set<string>, x: Player)
    requires |ps| > 0 && p0 == ps[0] && t == ps[1..]
    requires h == (if p0.id in ids then [] else [p0]) && f == h + ft
    requires multiset(ft)[x] == if x.id in ids then 0 else multiset(t)[x]
    ensures multiset(f)[x] == if x.id in ids then 0 else multiset(ps)[x]
  {
    assert ps == [p0] + t;
    assert multiset(f) == multiset(h) + multiset(ft);
    assert multiset(ps) == multiset{p0} + multiset(t);
  }

  lemma {:induction false} FilterOutPerm(a: seq<Player>, b: seq<Player>, ids: set<string>)
    requires multiset(a) == multiset(b)
    ensures multiset(FilterOut(a, ids)) == multiset(FilterOut(b, ids))
  {
    forall x ensures multiset(FilterOut(a, ids))[x] == multiset(FilterOut(b, ids))[x] {
      FilterOutCount(a, ids, x);
      FilterOutCount(b, ids, x);
    }
  }

  /** The filtered-out players and the kept ones make up the list. */
  lemma {:induction false} FilterOutSplit(ps: seq<Player>, ids: set<string>)
    ensures multiset(ps) == multiset(FilterOut(ps, ids)) + multiset(FilterOut(ps, IdSet(ps) - ids))
    decreases |ps|
  {
    forall x ensures multiset(ps)[x] == multiset(FilterOut(ps, ids))[x] + multiset(FilterOut(ps, IdSet(ps) - ids))[x] {
      FilterOutCount(ps, ids, x);
      FilterOutCount(ps, IdSet(ps) - ids, x);
      if x.id !in IdSet(ps) {
        assert x !in ps;
      }
    }
  }

  lemma {:induction false} FilterOutConcat(a: seq<Player>, b: seq<Player>, ids: set<string>)
    ensures FilterOut(a + b, ids) == FilterOut(a, ids) + FilterOut(b, ids)
    decreases |a|
  {
    if a != [] {
      assert (a + b)[1..] == a[1..] + b;
      FilterOutConcat(a[1..], b, ids);
    } else {
      assert a + b == b;
    }
  }

  lemma {:induction false} FilterOutNone(s: seq<Player>, ids: set<string>)
    requires forall x :: x in s ==> x.id !in ids
    ensures FilterOut(s, ids) == s
    decreases |s|
  {
    if s != [] {
      var t := s[1..];
      assert forall x :: x in t ==> x in s;
      FilterOutNone(t, ids);
      FilterOutKeep(s, t, ids);
    }
  }

  lemma {:induction false} FilterOutKeep(s: seq<Player>, t: seq<Player>, ids: set<string>)
    requires s != [] && t == s[1..] && s[0].id !in ids && FilterOut(t, ids) == t
    ensures FilterOut(s, ids) == s
  {
    assert s == [s[0]] + t;
  }

  lemma {:induction false} FilterOutAll(s: seq<Player>, ids: set<string>)
    requires forall x :: x in s ==> x.id in ids
    ensures FilterOut(s, ids) == []
    decreases |s|
  {
    if s != [] { FilterOutAll(s[1..], ids); }
  }

  lemma {:induction false} FilterOutTwice(ps: seq<Player>, a: set<string>, b: set<string>)
    ensures FilterOut(FilterOut(ps, a), b) == FilterOut(ps, a + b)
    decreases |ps|
  {
    if ps != [] {
      FilterOutTwice(ps[1..], a, b);
      var head := if ps[0].id in a then [] else [ps[0]];
      FilterOutConcat(head, FilterOut(ps[1..], a), b);
    }
  }

  // ------------------------------------------------------ Groups to finals

  /** Every group is non-empty and drawn from the roster. */
  predicate FromRoster(ps: seq<Player>, gs: seq<seq<Player>>) {
    forall g :: 0 <= g < |gs| ==> gs[g] != [] && forall x :: x in gs[g] ==> x in ps
  }

  /** What the confirm step needs of the groups: from the roster and disjoint by id. */
  predicate WellGrouped(ps: seq<Player>, gs: seq<seq<Player>>) {
    FromRoster(ps, gs)
    && (forall g, h, x, y :: 0 <= g < h < |gs| && x in gs[g] && y in gs[h] ==> x.id != y.id)
  }

  /** A non-empty group drawn from the roster always has a winner. */
  lemma {:induction false} GroupHasWinner(ps: seq<Player>, group: seq<Player>, scores: map<string, int>)
    requires group != [] && group[0] in ps
    ensures GroupWinner(ps, group, scores).Some?
  {
    assert group[0] in group;
    IdOfMember(ps, group[0]);
  }

  /** Each group yields its own winner, in group order. */
  lemma {:induction false} WinnersAt(ps: seq<Player>, gs: seq<seq<Player>>, scores: map<string, int>)
    requires FromRoster(ps, gs)
    ensures |Winners(ps, gs, scores)| == |gs|
    ensures forall g :: 0 <= g < |gs| ==> GroupWinner(ps, gs[g], scores).Some? && Winners(ps, gs, scores)[g] == GroupWinner(ps, gs[g], scores).value
    decreases |gs|
  {
    if gs != [] {
      var t := gs[1..];
      FromRosterTail(ps, gs, t);
      WinnersAt(ps, t, scores);
      WinnersAtStep(ps, gs, t, scores);
    }
  }

  lemma {:induction false} FromRosterTail(ps: seq<Player>, gs: seq<seq<Player>>, t: seq<seq<Player>>)
    requires FromRoster(ps, gs) && gs != [] && t == gs[1..]
    ensures FromRoster(ps, t) && gs[0] != [] && gs[0][0] in ps
  {
    forall g | 0 <= g < |t| ensures t[g] == gs[g + 1] {}
    assert gs[0][0] in gs[0];
  }

  lemma {:induction false} WinnersAtStep(ps: seq<Player>, gs: seq<seq<Player>>, t: seq<seq<Player>>, scores: map<string, int>)
    requires gs != [] && t == gs[1..] && gs[0] != [] && gs[0][0] in ps
    requires |Winners(ps, t, scores)| == |t|
    requires forall g :: 0 <= g < |t| ==> GroupWinner(ps, t[g], scores).Some? && Winners(ps, t, scores)[g] == GroupWinner(ps, t[g], scores).value
    ensures |Winners(ps, gs, scores)| == |gs|
    ensures forall g :: 0 <= g < |gs| ==> GroupWinner(ps, gs[g], scores).Some? && Winners(ps, gs, scores)[g] == GroupWinner(ps, gs[g], scores).value
  {
    GroupHasWinner(ps, gs[0], scores);
    WinnersCons(ps, gs, t, scores);
    var r := Winners(ps, gs, scores);
    forall g | 0 <= g < |gs| ensures GroupWinner(ps, gs[g], scores).Some? && r[g] == GroupWinner(ps, gs[g], scores).value {
      if g > 0 {
        assert gs[g] == t[g - 1];
      }
    }
  }

  lemma {:induction false} WinnersCons(ps: seq<Player>, gs: seq<seq<Player>>, t: seq<seq<Player>>, scores: map<string, int>)
    requires gs != [] && t == gs[1..] && GroupWinner(ps, gs[0], scores).Some?
    ensures Winners(ps, gs, scores) == [GroupWinner(ps, gs[0], scores).value] + Winners(ps, t, scores)
  {
  }

  /** Winners of different groups are different players. */
  lemma {:induction false} WinnersDistinct(ps: seq<Player>, gs: seq<seq<Player>>, scores: map<string, int>)
    requires WellGrouped(ps, gs)
    ensures |Winners(ps, gs, scores)| == |gs|
    ensures DistinctIds(Winners(ps, gs, scores))
  {
    WinnersAt(ps, gs, scores);
    var r := Winners(ps, gs, scores);
    forall g, h | 0 <= g < h < |r| ensures r[g].id != r[h].id {
      WinnersPairDistinct(ps, gs, scores, g, h);
    }
  }

  lemma {:induction false} WinnersPairDistinct(ps: seq<Player>, gs: seq<seq<Player>>, scores: map<string, int>, g: nat, h: nat)
    requires WellGrouped(ps, gs) && g < h < |gs|
    ensures h < |Winners(ps, gs, scores)| && Winners(ps, gs, scores)[g].id != Winners(ps, gs, scores)[h].id
  {
    var x := WinnerFromGroup(ps, gs, scores, g);
    var y := WinnerFromGroup(ps, gs, scores, h);
    Disjoint(ps, gs, g, h, x, y);
  }

  /** The winner of group `g` carries the id of a member of group `g`. */
  lemma {:induction false} WinnerFromGroup(ps: seq<Player>, gs: seq<seq<Player>>, scores: map<string, int>, g: nat) returns (x: Player)
    requires FromRoster(ps, gs) && g < |gs|
    ensures g < |Winners(ps, gs, scores)| && x in gs[g] && x.id == Winners(ps, gs, scores)[g].id
  {
    WinnersAt(ps, gs, scores);
    x := IdIn(gs[g], GroupWinner(ps, gs[g], scores).value.id);
  }

  lemma {:induction false} Disjoint(ps: seq<Player>, gs: seq<seq<Player>>, g: nat, h: nat, x: Player, y: Player)
    requires WellGrouped(ps, gs) && g < h < |gs| && x in gs[g] && y in gs[h]
    ensures x.id != y.id
  {
  }

  lemma {:induction false} IdIn(s: seq<Player>, id: string) returns (x: Player)
    requires id in Ids(s)
    ensures x in s && x.id == id
  {
    var i :| 0 <= i < |s| && Ids(s)[i] == id;
    x := s[i];
  }

  /** The winners are exactly the roster players with a winner's id. */
  lemma {:induction false} WinnersAreKept(ps: seq<Player>, w: seq<Player>)
    requires DistinctIds(ps) && DistinctIds(w)
    requires forall x :: x in w ==> x in ps
    ensures multiset(w) == multiset(FilterOut(ps, IdSet(ps) - IdSet(w)))
  {
    var k := FilterOut(ps, IdSet(ps) - IdSet(w));
    FilterOutDistinct(ps, IdSet(ps) - IdSet(w));
    forall x ensures x in w <==> x in k {
      if x in k {
        assert x.id in IdSet(w);
        var y := IdIn(w, x.id);
        var i :| 0 <= i < |ps| && ps[i] == x;
        var j :| 0 <= j < |ps| && ps[j] == y;
        assert i == j;
      }
      if x in w {
        assert x.id in Ids(w);
      }
    }
    SameMembers(w, k);
  }

  /** Removing the ids of a prefix of a duplicate-free list leaves the rest of it. */
  lemma {:induction false} DropPrefix(s: seq<Player>, n: nat)
    requires DistinctIds(s) && n <= |s|
    ensures FilterOut(s, IdSet(s[..n])) == s[n..]
  {
    SuffixIdsOut(s, n);
    DropPrefixOf(s, n);
  }

  lemma {:induction false} DropPrefixOf(s: seq<Player>, n: nat)
    requires n <= |s| && forall x :: x in s[n..] ==> x.id !in IdSet(s[..n])
    ensures FilterOut(s, IdSet(s[..n])) == s[n..]
  {
    PrefixIdsIn(s[..n]);
    FilterOutPrefix(s[..n], s[n..], IdSet(s[..n]));
    assert s[..n] + s[n..] == s;
  }

  lemma {:induction false} FilterOutPrefix(a: seq<Player>, b: seq<Player>, ids: set<string>)
    requires forall x :: x in a ==> x.id in ids
    requires forall x :: x in b ==> x.id !in ids
    ensures FilterOut(a + b, ids) == b
  {
    FilterOutAll(a, ids);
    FilterOutNone(b, ids);
    FilterOutConcat(a, b, ids);
  }

  lemma {:induction false} PrefixIdsIn(a: seq<Player>)
    ensures forall x :: x in a ==> x.id in IdSet(a)
  {
    forall x | x in a ensures x.id in IdSet(a) {
      IdOfMember(a, x);
    }
  }

  lemma {:induction false} SuffixIdsOut(s: seq<Player>, n: nat)
    requires DistinctIds(s) && n <= |s|
    ensures forall x :: x in s[n..] ==> x.id !in IdSet(s[..n])
  {
    forall x | x in s[n..] ensures x.id !in IdSet(s[..n]) {
      var j :| n <= j < |s| && s[j] == x;
      SuffixIdOut(s, n, j);
    }
  }

  lemma {:induction false} SuffixIdOut(s: seq<Player>, n: nat, j: nat)
    requires DistinctIds(s) && n <= j < |s|
    ensures s[j].id !in Ids(s[..n])
  {
    forall i | 0 <= i < n ensures Ids(s[..n])[i] != s[j].id {
      assert s[..n][i] == s[i];
    }
  }

  lemma {:induction false} RemainingDistinct(ps: seq<Player>, w: seq<Player>, scores: map<string, int>)
    requires DistinctIds(ps)
    ensures DistinctIds(Remaining(ps, w, scores))
    ensures multiset(Remaining(ps, w, scores)) == multiset(FilterOut(ps, IdSet(w)))
  {
    FilterOutDistinct(ps, IdSet(w));
    DistinctPerm(FilterOut(ps, IdSet(w)), Remaining(ps, w, scores));
  }

  /** Taking the best three out of the rest leaves exactly the rest after them. */
  lemma {:induction false} LowerIsTail(ps: seq<Player>, w: seq<Player>, scores: map<string, int>, n: nat)
    requires DistinctIds(ps) && n == |WildCards(ps, w, scores)|
    ensures multiset(Lower(ps, w, scores)) == multiset(Remaining(ps, w, scores)[n..])
  {
    var rem := Remaining(ps, w, scores);
    var wild := WildCards(ps, w, scores);
    RemainingDistinct(ps, w, scores);
    assert wild == rem[..n];
    DropPrefix(rem, n);
    FilterOutTwice(ps, IdSet(w), IdSet(wild));
    FilterOutPerm(FilterOut(ps, IdSet(w)), rem, IdSet(wild));
  }

  /** The winners and the players still to place make up the roster. */
  lemma {:induction false} WinnersAndRest(ps: seq<Player>, w: seq<Player>, scores: map<string, int>)
    requires DistinctIds(ps) && DistinctIds(w)
    requires forall x :: x in w ==> x in ps
    ensures multiset(w) + multiset(Remaining(ps, w, scores)) == multiset(ps)
    ensures |w| + |Remaining(ps, w, scores)| == |ps|
  {
    WinnersAreKept(ps, w);
    FilterOutSplit(ps, IdSet(w));
    assert multiset(Remaining(ps, w, scores)) == multiset(FilterOut(ps, IdSet(w)));
    assert |multiset(ps)| == |multiset(w)| + |multiset(Remaining(ps, w, scores))|;
  }

  /**
   * Any three distinct winners drawn from a roster of 14: the winners with
   * the wild cards, the next four and the four after them hold every player
   * exactly once.
   */
  lemma {:induction false} SelectionPartition(ps: seq<Player>, w: seq<Player>, scores: map<string, int>)
    requires |ps| == 14 && DistinctIds(ps) && |w| == 3 && DistinctIds(w)
    requires forall x :: x in w ==> x in ps
    ensures var lower := Lower(ps, w, scores);
      multiset(w + WildCards(ps, w, scores) + Take(lower, 4) + Slice(lower, 4, 8)) == multiset(ps)
  {
    var rem := Remaining(ps, w, scores);
    WinnersAndRest(ps, w, scores);
    LowerIsTail(ps, w, scores, 3);
    PiecesPartition(ps, w, rem, Lower(ps, w, scores));
  }

  lemma {:induction false} PiecesPartition(ps: seq<Player>, w: seq<Player>, rem: seq<Player>, lower: seq<Player>)
    requires |rem| == 11 && multiset(w) + multiset(rem) == multiset(ps)
    requires multiset(lower) == multiset(rem[3..])
    ensures multiset(w + Take(rem, 3) + Take(lower, 4) + Slice(lower, 4, 8)) == multiset(ps)
  {
    assert |lower| == 8 by { assert |multiset(lower)| == |multiset(rem[3..])|; }
    assert Take(lower, 4) + Slice(lower, 4, 8) == lower;
    assert rem == Take(rem, 3) + rem[3..];
    assert w + Take(rem, 3) + Take(lower, 4) + Slice(lower, 4, 8) == w + Take(rem, 3) + lower;
  }

  /**
   * With 14 players of distinct ids and three well-formed groups, the three
   * finals hold every player exactly once.
   */
  lemma {:induction false} FinalsPartition(players: seq<Player>, st: JfState)
    requires |players| == 14 && DistinctIds(players)
    requires |st.groups| == 3 && WellGrouped(players, st.groups)
    ensures var f := ConfirmGroups(players, st).finals;
      multiset(f[0].players + f[1].players + f[2].players) == multiset(players)
  {
    var w := Winners(players, st.groups, st.groupScores);
    WinnersDistinct(players, st.groups, st.groupScores);
    SelectionPartition(players, w, st.groupScores);
    var f := ConfirmGroups(players, st).finals;
    var lower := Lower(players, w, st.groupScores);
    assert f[0].players + f[1].players + f[2].players == w + WildCards(players, w, st.groupScores) + Take(lower, 4) + Slice(lower, 4, 8);
  }

  /** The groups of a created tournament satisfy what the confirm step needs. */
  lemma {:induction false} CreatedGroupsWellFormed(players: seq<Player>)
    requires |players| == 14 && DistinctIds(players)
    ensures WellGrouped(players, Draft(RankByPoints(players), 3))
  {
    var ranked := RankByPoints(players);
    DistinctPerm(players, ranked);
    DraftFromRoster(players, ranked);
    DraftDisjoint(ranked);
  }

  lemma {:induction false} DraftFromRoster(players: seq<Player>, ranked: seq<Player>)
    requires |ranked| == 14 && multiset(ranked) == multiset(players)
    ensures FromRoster(players, Draft(ranked, 3))
  {
    ThreeGroupSizes(ranked);
    forall g | 0 <= g < 3 ensures forall x :: x in Members(ranked, 3, g) ==> x in players {
      MembersFromRoster(players, ranked, g);
    }
  }

  lemma {:induction false} MembersFromRoster(players: seq<Player>, ranked: seq<Player>, g: nat)
    requires multiset(ranked) == multiset(players)
    ensures forall x :: x in Members(ranked, 3, g) ==> x in players
  {
    forall x | x in Members(ranked, 3, g) ensures x in players {
      MembersIndex(ranked, 3, g, x);
      assert x in multiset(ranked);
    }
  }

  lemma {:induction false} DraftDisjoint(ranked: seq<Player>)
    requires DistinctIds(ranked)
    ensures forall g, h, x, y :: 0 <= g < h < 3 && x in Draft(ranked, 3)[g] && y in Draft(ranked, 3)[h] ==> x.id != y.id
  {
    forall g: int, h: int, x: Player, y: Player | 0 <= g < h < 3 && x in Draft(ranked, 3)[g] && y in Draft(ranked, 3)[h]
      ensures x.id != y.id
    {
      GroupsDisjoint(ranked, 3, g, h, x, y);
    }
  }

  /**
   * From creation to result: whatever scores the host enters in the group
   * stage and in the finals (edits that change scores only), every one of
   * the 14 players gets exactly one row.
   */
  lemma {:induction false} TournamentCoversRoster(players: seq<Player>, groupScores: map<string, int>, scored: JfState)
    requires |players| == 14 && DistinctIds(players) && |scored.finals| == 3
    requires forall k :: 0 <= k < 3 ==>
      scored.finals[k].players == ConfirmGroups(players, JfState(GroupStage, Draft(RankByPoints(players), 3), groupScores, [])).finals[k].players
    ensures multiset(EntryIds(JustFuFinish(scored).results)) == multiset(Ids(players))
  {
    var st := JfState(GroupStage, Draft(RankByPoints(players), 3), groupScores, []);
    CreatedGroupsWellFormed(players);
    FinalsPartition(players, st);
    FinishCoversFinals(scored);
    var f := scored.finals;
    IdsAppend(f[0].players, f[1].players);
    IdsAppend(f[0].players + f[1].players, f[2].players);
    IdsPermutation(f[0].players + f[1].players + f[2].players, players);
  }
}
