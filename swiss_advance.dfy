/**
 * Advancing a Swiss round (`handleNextRound`): record the finished round,
 * split the players into win groups, and pair each group in descending win
 * order, avoiding rematches where the group allows it.  The shuffle of each
 * group is an arbitrary reordering chosen by `draw`.
 */
module SwissAdvance {
  import opened Wrappers
  import opened Sorting
  import opened Roster
  import opened Swiss

  // ------------------------------------------------------------ Win groups

  predicate StrictlyDescending(l: seq<int>) {
    forall i, j :: 0 <= i < j < |l| ==> l[i] > l[j]
  }

  /** Add `w` to a strictly descending list of win counts unless already there. */
  function InsertLevel(w: int, l: seq<int>): (r: seq<int>)
    requires StrictlyDescending(l)
    ensures StrictlyDescending(r)
    ensures forall x :: x in r <==> x == w || x in l
  {
    if l == [] then [w]
    else if w == l[0] then l
    else if w > l[0] then [w] + l
    else
      var t := InsertLevel(w, l[1..]);
      DescendingCons(l, t, w);
      [l[0]] + t
  }

  lemma {:induction false} DescendingCons(l: seq<int>, t: seq<int>, w: int)
    requires l != [] && StrictlyDescending(l) && StrictlyDescending(t) && w < l[0]
    requires forall x :: x in t <==> x == w || x in l[1..]
    ensures StrictlyDescending([l[0]] + t)
    ensures forall x :: x in [l[0]] + t <==> x == w || x in l
  {
    var r := [l[0]] + t;
    assert l == [l[0]] + l[1..];
    forall x | x in t ensures x < l[0] {
      if x != w {
        var k :| 0 <= k < |l[1..]| && l[1..][k] == x;
        assert l[k + 1] == x;
      }
    }
    forall i, j | 0 <= i < j < |r| ensures r[i] > r[j] {
      if i == 0 { assert r[j] == t[j - 1] && r[j] in t; } else { assert r[i] == t[i - 1] && r[j] == t[j - 1]; }
    }
  }

  /**
   * `Object.keys(groups).sort((a, b) => b - a)`: the distinct win counts of
   * the players, highest first.
   */
  function Levels(ps: seq<SwissPlayer>): (r: seq<int>)
    ensures StrictlyDescending(r)
    ensures forall x :: x in r <==> exists i :: 0 <= i < |ps| && ps[i].wins == x
  {
    if ps == [] then []
    else
      var front := ps[..|ps| - 1];
      var r := InsertLevel(ps[|ps| - 1].wins, Levels(front));
      assert forall i :: 0 <= i < |front| ==> front[i] == ps[i];
      r
  }

  /** The players with `w` wins, in roster order (`groups[w]`). */
  function Group(ps: seq<SwissPlayer>, w: int): (r: seq<SwissPlayer>)
    ensures forall q :: q in r ==> q in ps && q.wins == w
  {
    if ps == [] then [] else (if ps[0].wins == w then [ps[0]] else []) + Group(ps[1..], w)
  }

  /** The shuffle modelled as an arbitrary order: each player's position key comes from `draw`. */
  function DrawKey(draw: map<string, int>): SwissPlayer -> SortKey {
    (p: SwissPlayer) => SortKey(if p.id in draw then draw[p.id] else 0, 0)
  }

  function Shuffled(g: seq<SwissPlayer>, draw: map<string, int>): (r: seq<SwissPlayer>)
    ensures multiset(r) == multiset(g)
  {
    SortBy(g, DrawKey(draw))
  }

  /** The shuffled win groups for the levels `l`, in that order. */
  function GroupsAt(ps: seq<SwissPlayer>, l: seq<int>, draw: map<string, int>): (r: seq<seq<SwissPlayer>>)
    ensures |r| == |l|
    ensures forall i :: 0 <= i < |l| ==> r[i] == Shuffled(Group(ps, l[i]), draw)
  {
    seq(|l|, i requires 0 <= i < |l| => Shuffled(Group(ps, l[i]), draw))
  }

  lemma {:induction false} GroupsAtSplit(ps: seq<SwissPlayer>, l: seq<int>, draw: map<string, int>)
    requires |l| > 0
    ensures GroupsAt(ps, l, draw)[0] == Shuffled(Group(ps, l[0]), draw)
    ensures GroupsAt(ps, l, draw)[1..] == GroupsAt(ps, l[1..], draw)
  {
    var a, b := GroupsAt(ps, l, draw)[1..], GroupsAt(ps, l[1..], draw);
    forall i | 0 <= i < |b| ensures a[i] == b[i] {
      assert l[1..][i] == l[i + 1];
    }
  }

  // ---------------------------------------------------------------- Pairing

  /** `group.findIndex(p => !opponents.includes(p.id))`, as an option. */
  function FindFresh(opponents: seq<string>, pool: seq<SwissPlayer>): (r: Option<nat>)
    ensures r.Some? ==> r.value < |pool| && pool[r.value].id !in opponents
    ensures r.Some? ==> forall j :: 0 <= j < r.value ==> pool[j].id in opponents
    ensures r.None? ==> forall j :: 0 <= j < |pool| ==> pool[j].id in opponents
  {
    if pool == [] then None
    else if pool[0].id !in opponents then Some(0)
    else match FindFresh(opponents, pool[1..])
      case None => None
      case Some(k) => Some(k + 1)
  }

  /**
   * The index of the second seat: the first player not yet met, or the head
   * of the pool when everyone left has been met (`if (p2Index === -1) p2Index = 0`).
   */
  function FirstFresh(opponents: seq<string>, pool: seq<SwissPlayer>): (k: nat)
    requires |pool| > 0
    ensures k < |pool|
    ensures forall j :: 0 <= j < k ==> pool[j].id in opponents
    ensures pool[k].id in opponents ==> k == 0 && forall j :: 0 <= j < |pool| ==> pool[j].id in opponents
  {
    match FindFresh(opponents, pool)
    case None => 0
    case Some(k) => k
  }

  /** The pool without its `k`-th player (`group.splice(k, 1)`). */
  function Without(pool: seq<SwissPlayer>, k: nat): (r: seq<SwissPlayer>)
    requires k < |pool|
    ensures |r| == |pool| - 1
  {
    pool[..k] + pool[k + 1..]
  }

  /**
   * The `while (group.length > 0)` loop on one group: the head meets the first
   * player it has not met (or the next one), and a last player left alone gets
   * the BYE, already won.  Match numbers continue from `base`.
   */
  function PairGroup(g: seq<SwissPlayer>, round: nat, base: nat): (r: seq<Match>)
    ensures |r| == (|g| + 1) / 2
    decreases |g|
  {
    if g == [] then []
    else if |g| == 1 then [Match(MatchId(round, base + 1), g[0].id, Bye, Some(g[0].id))]
    else
      var rest := g[1..];
      var k := FirstFresh(g[0].opponents, rest);
      [Match(MatchId(round, base + 1), g[0].id, Vs(rest[k].id), None)] + PairGroup(Without(rest, k), round, base + 1)
  }

  /** The groups paired one after another, match numbers running on. */
  function PairFrom(gs: seq<seq<SwissPlayer>>, round: nat, base: nat): seq<Match>
    decreases |gs|
  {
    if gs == [] then []
    else PairGroup(gs[0], round, base) + PairFrom(gs[1..], round, base + |PairGroup(gs[0], round, base)|)
  }

  /** The state after `handleNextRound`. */
  function NextRoundSpec(t: Tournament, draw: map<string, int>): (r: Tournament)
    requires |t.rounds| > 0
    ensures |r.rounds| == |t.rounds| + 1 && r.rounds[..|t.rounds|] == t.rounds
    ensures CurrentRound(r).number == CurrentRound(t).number + 1
    ensures SwissIds(r.players) == SwissIds(t.players)
  {
    var cur := CurrentRound(t);
    var ps := RecordAll(t.players, cur.matches);
    var round := cur.number + 1;
    var rounds := t.rounds + [Round(round, PairFrom(GroupsAt(ps, Levels(ps), draw), round, 0))];
    assert rounds[..|t.rounds|] == t.rounds;
    Tournament(ps, rounds)
  }

  /** The `currentRound.matches.forEach` that records the finished round. */
  method RecordRound(players: seq<SwissPlayer>, ms: seq<Match>) returns (r: seq<SwissPlayer>)
    ensures r == RecordAll(players, ms)
  {
    r := players;
    for i := 0 to |ms|
      invariant r == RecordAll(players, ms[..i])
    {
      assert ms[..i + 1][..i] == ms[..i];
      r := RecordMatch(r, ms[i]);
    }
    assert ms[..|ms|] == ms;
  }

  /** The `while (group.length > 0)` loop, appending to `pairings`. */
  method PairGroupLoop(g: seq<SwissPlayer>, round: nat, pairings: seq<Match>) returns (out: seq<Match>)
    ensures out == pairings + PairGroup(g, round, |pairings|)
  {
    ghost var goal := pairings + PairGroup(g, round, |pairings|);
    var group := g;
    out := pairings;
    while |group| > 0
      invariant out + PairGroup(group, round, |out|) == goal
      decreases |group|
    {
      if |group| == 1 {
        var p1 := group[0];
        ghost var before := out;
        out := out + [Match(MatchId(round, |out| + 1), p1.id, Bye, Some(p1.id))];
        LoopBye(group, round, before, out, goal);
        group := group[1..];
        break;
      }
      ghost var whole, before := group, out;
      var p1 := group[0];
      group := group[1..];
      var p2Index := FirstFresh(p1.opponents, group);
      var p2 := group[p2Index];
      ghost var rest := group;
      group := Without(group, p2Index);
      out := out + [Match(MatchId(round, |out| + 1), p1.id, Vs(p2.id), None)];
      LoopPair(whole, round, before, rest, p2Index, group, out, goal);
    }
    LoopDone(group, round, out, goal);
  }

  /** A last player left alone gets the BYE and the group is done. */
  lemma {:induction false} LoopBye(group: seq<SwissPlayer>, round: nat, before: seq<Match>, after: seq<Match>, goal: seq<Match>)
    requires |group| == 1 && before + PairGroup(group, round, |before|) == goal
    requires after == before + [Match(MatchId(round, |before| + 1), group[0].id, Bye, Some(group[0].id))]
    ensures after + PairGroup(group[1..], round, |after|) == goal && |group[1..]| == 0
  {
  }

  /** One pass of the loop: the head and its partner leave the group as one more match. */
  lemma {:induction false} LoopPair(whole: seq<SwissPlayer>, round: nat, before: seq<Match>, rest: seq<SwissPlayer>,
                                    k: nat, w: seq<SwissPlayer>, after: seq<Match>, goal: seq<Match>)
    requires |whole| >= 2 && rest == whole[1..] && k == FirstFresh(whole[0].opponents, rest) && w == Without(rest, k)
    requires before + PairGroup(whole, round, |before|) == goal
    requires after == before + [Match(MatchId(round, |before| + 1), whole[0].id, Vs(rest[k].id), None)]
    ensures after + PairGroup(w, round, |after|) == goal
  {
    var next := |before| + 1;
    PairGroupUnfold(whole, round, |before|, rest, k, w, next);
    Assoc(before, [Match(MatchId(round, next), whole[0].id, Vs(rest[k].id), None)], PairGroup(w, round, next));
  }

  lemma {:induction false} LoopDone(group: seq<SwissPlayer>, round: nat, out: seq<Match>, goal: seq<Match>)
    requires |group| == 0 && out + PairGroup(group, round, |out|) == goal
    ensures out == goal
  {
    assert out + [] == out;
  }

  /** The `forEach` over the win levels, highest first, pairing each shuffled group. */
  method PairLevels(players: seq<SwissPlayer>, levels: seq<int>, round: nat, draw: map<string, int>)
    returns (pairings: seq<Match>)
    ensures pairings == PairFrom(GroupsAt(players, levels, draw), round, 0)
  {
    ghost var all := PairFrom(GroupsAt(players, levels, draw), round, 0);
    pairings := [];
    LevelsStart(players, levels, round, draw, all);
    for li := 0 to |levels|
      invariant pairings + PairFrom(GroupsAt(players, levels[li..], draw), round, |pairings|) == all
    {
      var group := Shuffled(Group(players, levels[li]), draw);
      ghost var gs := GroupsAt(players, levels[li..], draw);
      ghost var rest := GroupsAt(players, levels[li + 1..], draw);
      LevelsStep(players, levels, li, draw, gs, rest);
      ghost var before := pairings;
      pairings := PairGroupLoop(group, round, pairings);
      PairFromStep(gs, rest, round, before, pairings, all);
    }
    LevelsEnd(players, levels, round, draw, pairings, all);
  }

  lemma {:induction false} LevelsStart(players: seq<SwissPlayer>, levels: seq<int>, round: nat, draw: map<string, int>, all: seq<Match>)
    requires all == PairFrom(GroupsAt(players, levels, draw), round, 0)
    ensures [] + PairFrom(GroupsAt(players, levels[0..], draw), round, 0) == all
  {
    assert levels[0..] == levels;
  }

  lemma {:induction false} LevelsStep(players: seq<SwissPlayer>, levels: seq<int>, li: int, draw: map<string, int>,
                                      gs: seq<seq<SwissPlayer>>, rest: seq<seq<SwissPlayer>>)
    requires 0 <= li < |levels| && gs == GroupsAt(players, levels[li..], draw) && rest == GroupsAt(players, levels[li + 1..], draw)
    ensures |gs| > 0 && gs[0] == Shuffled(Group(players, levels[li]), draw) && gs[1..] == rest
  {
    GroupsAtSplit(players, levels[li..], draw);
    assert levels[li..][1..] == levels[li + 1..];
  }

  lemma {:induction false} LevelsEnd(players: seq<SwissPlayer>, levels: seq<int>, round: nat, draw: map<string, int>,
                                     pairings: seq<Match>, all: seq<Match>)
    requires pairings + PairFrom(GroupsAt(players, levels[|levels|..], draw), round, |pairings|) == all
    ensures pairings == all
  {
    assert GroupsAt(players, levels[|levels|..], draw) == [];
    assert pairings + [] == pairings;
  }

  /** `handleNextRound`: record the round, then pair every win group, highest first. */
  method NextRound(t: Tournament, draw: map<string, int>) returns (r: Tournament)
    requires |t.rounds| > 0
    ensures r == NextRoundSpec(t, draw)
  {
    var cur := t.rounds[|t.rounds| - 1];
    var players := RecordRound(t.players, cur.matches);
    var round := cur.number + 1;
    var pairings := PairLevels(players, Levels(players), round, draw);
    r := Tournament(players, t.rounds + [Round(round, pairings)]);
    NextRoundShape(t, draw, players, round, pairings, r);
  }

  lemma {:induction false} NextRoundShape(t: Tournament, draw: map<string, int>, ps: seq<SwissPlayer>, round: nat,
                                          pairings: seq<Match>, r: Tournament)
    requires |t.rounds| > 0 && ps == RecordAll(t.players, CurrentRound(t).matches) && round == CurrentRound(t).number + 1
    requires pairings == PairFrom(GroupsAt(ps, Levels(ps), draw), round, 0)
    requires r == Tournament(ps, t.rounds + [Round(round, pairings)])
    ensures r == NextRoundSpec(t, draw)
  {
  }

  /** One turn of the group loop in `NextRound`. */
  lemma {:induction false} PairFromStep(gs: seq<seq<SwissPlayer>>, t: seq<seq<SwissPlayer>>, round: nat, before: seq<Match>, after: seq<Match>, all: seq<Match>)
    requires |gs| > 0 && t == gs[1..]
    requires before + PairFrom(gs, round, |before|) == all
    requires after == before + PairGroup(gs[0], round, |before|)
    ensures after + PairFrom(t, round, |after|) == all
  {
    var pg := PairGroup(gs[0], round, |before|);
    var next := |after|;
    PairFromCons(gs, round, |before|, next);
    var rest := PairFrom(t, round, next);
    Assoc(before, pg, rest);
  }

  lemma {:induction false} Assoc<T>(a: seq<T>, b: seq<T>, c: seq<T>)
    ensures (a + b) + c == a + (b + c)
  {
  }

  // --------------------------------------------------------------- Seating

  /** The groups laid end to end. */
  function Concat(gs: seq<seq<SwissPlayer>>): seq<SwissPlayer> {
    if gs == [] then [] else gs[0] + Concat(gs[1..])
  }

  lemma {:induction false} SwissIdsConcat(a: seq<SwissPlayer>, b: seq<SwissPlayer>)
    ensures SwissIds(a + b) == SwissIds(a) + SwissIds(b)
  {
  }

  lemma {:induction false} SwissIdsRemoveHead(s: seq<SwissPlayer>)
    requires s != []
    ensures multiset(SwissIds(s)) == multiset(SwissIds(s[1..])) + multiset{s[0].id}
  {
    assert SwissIds(s) == [s[0].id] + SwissIds(s[1..]);
  }

  lemma {:induction false} SwissIdsRemoveAt(s: seq<SwissPlayer>, j: int, t: seq<SwissPlayer>)
    requires 0 <= j < |s| && t == s[..j] + s[j + 1..]
    ensures multiset(SwissIds(s)) == multiset(SwissIds(t)) + multiset{s[j].id}
  {
    assert SwissIds(s) == SwissIds(s)[..j] + [s[j].id] + SwissIds(s)[j + 1..];
    assert SwissIds(t) == SwissIds(s)[..j] + SwissIds(s)[j + 1..];
  }

  /** Reordering players reorders their ids the same way. */
  lemma {:induction false} SwissIdsPermutation(a: seq<SwissPlayer>, b: seq<SwissPlayer>)
    requires multiset(a) == multiset(b)
    ensures multiset(SwissIds(a)) == multiset(SwissIds(b))
    decreases |a|
  {
    if a != [] {
      var j := Locate(b, a[0]);
      var b' := b[..j] + b[j + 1..];
      RemoveBoth(a, b, j, b');
      SwissIdsPermutation(a[1..], b');
      SwissIdsJoin(a, b, j, b');
    }
  }

  lemma {:induction false} SwissIdsJoin(a: seq<SwissPlayer>, b: seq<SwissPlayer>, j: int, b': seq<SwissPlayer>)
    requires a != [] && 0 <= j < |b| && b[j] == a[0] && b' == b[..j] + b[j + 1..]
    requires multiset(SwissIds(a[1..])) == multiset(SwissIds(b'))
    ensures multiset(SwissIds(a)) == multiset(SwissIds(b))
  {
    SwissIdsRemoveHead(a);
    SwissIdsRemoveAt(b, j, b');
    MultisetJoin(multiset(SwissIds(a)), multiset(SwissIds(a[1..])), multiset(SwissIds(b)), multiset(SwissIds(b')), a[0].id);
  }

  lemma {:induction false} AllSeatsCons(m: Match, ms: seq<Match>)
    ensures AllSeats([m] + ms) == Seats(m) + AllSeats(ms)
  {
    assert ([m] + ms)[0] == m && ([m] + ms)[1..] == ms;
  }

  /** Pairing a group seats each of its players exactly once. */
  lemma {:induction false} PairGroupSeats(g: seq<SwissPlayer>, round: nat, base: nat)
    ensures multiset(AllSeats(PairGroup(g, round, base))) == multiset(SwissIds(g))
    decreases |g|
  {
    if |g| == 1 {
      PairGroupSingleSeats(g, round, base);
    } else if |g| >= 2 {
      var rest := g[1..];
      var k := FirstFresh(g[0].opponents, rest);
      var w := Without(rest, k);
      var next := base + 1;
      PairGroupSeats(w, round, next);
      PairGroupSeatsStep(g, round, base, rest, k, w, next);
    }
  }

  lemma {:induction false} PairGroupSeatsStep(g: seq<SwissPlayer>, round: nat, base: nat, rest: seq<SwissPlayer>, k: nat, w: seq<SwissPlayer>, next: nat)
    requires |g| >= 2 && rest == g[1..] && k == FirstFresh(g[0].opponents, rest) && w == Without(rest, k) && next == base + 1
    requires multiset(AllSeats(PairGroup(w, round, next))) == multiset(SwissIds(w))
    ensures multiset(AllSeats(PairGroup(g, round, base))) == multiset(SwissIds(g))
  {
    PairGroupConsSeats(g, round, base, rest, k, w, next);
    SwissIdsRemoveAt(rest, k, w);
    SeatsStep(g[0].id, rest[k].id, AllSeats(PairGroup(w, round, next)), SwissIds(g), SwissIds(rest), SwissIds(w));
  }

  lemma {:induction false} PairGroupSingleSeats(g: seq<SwissPlayer>, round: nat, base: nat)
    requires |g| == 1
    ensures AllSeats(PairGroup(g, round, base)) == SwissIds(g)
  {
    var m := PairGroup(g, round, base)[0];
    assert PairGroup(g, round, base) == [m] + [];
    AllSeatsCons(m, []);
    assert SwissIds(g) == [g[0].id];
  }

  /** The seats of a group of two or more: the head, its partner, then the rest of the group. */
  lemma {:induction false} PairGroupConsSeats(g: seq<SwissPlayer>, round: nat, base: nat, rest: seq<SwissPlayer>, k: nat, w: seq<SwissPlayer>, next: nat)
    requires |g| >= 2 && rest == g[1..] && k == FirstFresh(g[0].opponents, rest) && w == Without(rest, k) && next == base + 1
    ensures AllSeats(PairGroup(g, round, base)) == [g[0].id] + [rest[k].id] + AllSeats(PairGroup(w, round, next))
    ensures SwissIds(g) == [g[0].id] + SwissIds(rest)
  {
    PairGroupUnfold(g, round, base, rest, k, w, next);
    AllSeatsCons(Match(MatchId(round, next), g[0].id, Vs(rest[k].id), None), PairGroup(w, round, next));
    SwissIdsHead(g, rest);
  }

  lemma {:induction false} SwissIdsHead(g: seq<SwissPlayer>, rest: seq<SwissPlayer>)
    requires |g| > 0 && rest == g[1..]
    ensures SwissIds(g) == [g[0].id] + SwissIds(rest)
  {
    var a, b := SwissIds(g), [g[0].id] + SwissIds(rest);
    forall i | 0 <= i < |a| ensures a[i] == b[i] {
      if i > 0 { assert b[i] == SwissIds(rest)[i - 1]; }
    }
  }

  lemma {:induction false} SeatsStep(a: string, b: string, tail: seq<string>, ids: seq<string>, restIds: seq<string>, wIds: seq<string>)
    requires multiset(tail) == multiset(wIds)
    requires multiset(restIds) == multiset(wIds) + multiset{b}
    requires ids == [a] + restIds
    ensures multiset([a] + [b] + tail) == multiset(ids)
  {
  }

  /** Pairing the groups in turn seats everybody in them exactly once. */
  lemma {:induction false} PairFromSeats(gs: seq<seq<SwissPlayer>>, round: nat, base: nat)
    ensures multiset(AllSeats(PairFrom(gs, round, base))) == multiset(SwissIds(Concat(gs)))
    decreases |gs|
  {
    if gs != [] {
      var next := base + |PairGroup(gs[0], round, base)|;
      PairFromSeats(gs[1..], round, next);
      PairFromSeatsStep(gs, round, base, next);
    }
  }

  lemma {:induction false} PairFromSeatsStep(gs: seq<seq<SwissPlayer>>, round: nat, base: nat, next: nat)
    requires gs != [] && next == base + |PairGroup(gs[0], round, base)|
    requires multiset(AllSeats(PairFrom(gs[1..], round, next))) == multiset(SwissIds(Concat(gs[1..])))
    ensures multiset(AllSeats(PairFrom(gs, round, base))) == multiset(SwissIds(Concat(gs)))
  {
    var m := PairGroup(gs[0], round, base);
    var rest := PairFrom(gs[1..], round, next);
    PairFromSeatsCons(gs, round, base, next);
    ConcatIdsCons(gs);
    PairGroupSeats(gs[0], round, base);
    SplitMultiset(AllSeats(PairFrom(gs, round, base)), AllSeats(m), AllSeats(rest),
      SwissIds(Concat(gs)), SwissIds(gs[0]), SwissIds(Concat(gs[1..])));
  }

  lemma {:induction false} PairFromCons(gs: seq<seq<SwissPlayer>>, round: nat, base: nat, next: nat)
    requires gs != [] && next == base + |PairGroup(gs[0], round, base)|
    ensures PairFrom(gs, round, base) == PairGroup(gs[0], round, base) + PairFrom(gs[1..], round, next)
  {
    PairFromUnfold(gs, round, base);
  }

  lemma {:induction false} PairFromUnfold(gs: seq<seq<SwissPlayer>>, round: nat, base: nat)
    requires |gs| > 0
    ensures PairFrom(gs, round, base) == PairGroup(gs[0], round, base) + PairFrom(gs[1..], round, base + |PairGroup(gs[0], round, base)|)
  {
  }

  lemma {:induction false} PairFromSeatsCons(gs: seq<seq<SwissPlayer>>, round: nat, base: nat, next: nat)
    requires gs != [] && next == base + |PairGroup(gs[0], round, base)|
    ensures AllSeats(PairFrom(gs, round, base)) == AllSeats(PairGroup(gs[0], round, base)) + AllSeats(PairFrom(gs[1..], round, next))
  {
    PairFromCons(gs, round, base, next);
    AllSeatsConcat(PairGroup(gs[0], round, base), PairFrom(gs[1..], round, next));
  }

  lemma {:induction false} ConcatIdsCons(gs: seq<seq<SwissPlayer>>)
    requires gs != []
    ensures SwissIds(Concat(gs)) == SwissIds(gs[0]) + SwissIds(Concat(gs[1..]))
  {
    SwissIdsConcat(gs[0], Concat(gs[1..]));
  }

  lemma {:induction false} SplitMultiset(x: seq<string>, a: seq<string>, b: seq<string>, y: seq<string>, c: seq<string>, d: seq<string>)
    requires x == a + b && y == c + d
    requires multiset(a) == multiset(c) && multiset(b) == multiset(d)
    ensures multiset(x) == multiset(y)
  {
  }


  /** The players whose win count is one of `l`, in roster order. */
  function Within(ps: seq<SwissPlayer>, l: seq<int>): seq<SwissPlayer> {
    if ps == [] then [] else (if ps[0].wins in l then [ps[0]] else []) + Within(ps[1..], l)
  }

  lemma {:induction false} WithinAll(ps: seq<SwissPlayer>, l: seq<int>)
    requires forall i :: 0 <= i < |ps| ==> ps[i].wins in l
    ensures Within(ps, l) == ps
    decreases |ps|
  {
    if ps != [] {
      WithinAll(ps[1..], l);
    }
  }

  lemma {:induction false} GroupWithin(ps: seq<SwissPlayer>, w: int, l: seq<int>)
    requires w !in l
    ensures multiset(Group(ps, w)) + multiset(Within(ps, l)) == multiset(Within(ps, [w] + l))
    decreases |ps|
  {
    if ps != [] {
      GroupWithin(ps[1..], w, l);
    }
  }

  /** The shuffled groups of distinct levels hold exactly the players at those levels. */
  lemma {:induction false} GroupsAtWithin(ps: seq<SwissPlayer>, l: seq<int>, draw: map<string, int>)
    requires forall i, j :: 0 <= i < j < |l| ==> l[i] != l[j]
    ensures multiset(Concat(GroupsAt(ps, l, draw))) == multiset(Within(ps, l))
    decreases |l|
  {
    if l == [] {
      assert Within(ps, l) == [] by { WithinNone(ps, l); }
    } else {
      GroupsAtSplit(ps, l, draw);
      GroupsAtWithin(ps, l[1..], draw);
      assert l == [l[0]] + l[1..];
      assert l[0] !in l[1..];
      GroupWithin(ps, l[0], l[1..]);
    }
  }

  lemma {:induction false} WithinNone(ps: seq<SwissPlayer>, l: seq<int>)
    requires l == []
    ensures Within(ps, l) == []
    decreases |ps|
  {
    if ps != [] {
      WithinNone(ps[1..], l);
    }
  }

  /** The parts of the state after `handleNextRound`, named. */
  lemma {:induction false} NextRoundParts(t: Tournament, draw: map<string, int>, ps: seq<SwissPlayer>, round: nat, gs: seq<seq<SwissPlayer>>)
    requires |t.rounds| > 0 && ps == RecordAll(t.players, CurrentRound(t).matches)
    requires round == CurrentRound(t).number + 1 && gs == GroupsAt(ps, Levels(ps), draw)
    ensures NextRoundSpec(t, draw).players == ps
    ensures CurrentRound(NextRoundSpec(t, draw)) == Round(round, PairFrom(gs, round, 0))
  {
  }

  /**
   * Every tournament player sits in exactly one match of the new round: the
   * seats are the players' ids, as a multiset.
   */
  lemma {:induction false} NextRoundSeats(t: Tournament, draw: map<string, int>)
    requires |t.rounds| > 0
    ensures multiset(AllSeats(CurrentRound(NextRoundSpec(t, draw)).matches)) == multiset(SwissIds(t.players))
  {
    var ps := RecordAll(t.players, CurrentRound(t).matches);
    var round := CurrentRound(t).number + 1;
    var levels := Levels(ps);
    var gs := GroupsAt(ps, levels, draw);
    NextRoundParts(t, draw, ps, round, gs);
    PairFromSeats(gs, round, 0);
    assert multiset(Concat(gs)) == multiset(ps) by {
      GroupsAtWithin(ps, levels, draw);
      WithinAll(ps, levels);
    }
    SwissIdsPermutation(Concat(gs), ps);
    assert SwissIds(ps) == SwissIds(t.players);
  }

  // ----------------------------------------------------------------- Shape

  /** Match numbers run on from `base`; only an odd group's last match is a BYE, already won. */
  lemma {:induction false} PairGroupShape(g: seq<SwissPlayer>, round: nat, base: nat)
    ensures forall k :: 0 <= k < |PairGroup(g, round, base)| ==> PairGroup(g, round, base)[k].matchId == MatchId(round, base + k + 1)
    ensures forall k :: 0 <= k < |PairGroup(g, round, base)| ==>
      (PairGroup(g, round, base)[k].p2.Bye? <==> k == |PairGroup(g, round, base)| - 1 && |g| % 2 == 1)
    ensures forall k :: 0 <= k < |PairGroup(g, round, base)| ==>
      PairGroup(g, round, base)[k].winner == (if PairGroup(g, round, base)[k].p2.Bye? then Some(PairGroup(g, round, base)[k].p1) else None)
    decreases |g|
  {
    if |g| >= 2 {
      var rest := g[1..];
      var k := FirstFresh(g[0].opponents, rest);
      var w := Without(rest, k);
      var next := base + 1;
      PairGroupShape(w, round, next);
      PairGroupShapeStep(g, round, base, rest, k, w, next);
    }
  }

  lemma {:induction false} PairGroupShapeStep(g: seq<SwissPlayer>, round: nat, base: nat, rest: seq<SwissPlayer>, k: nat, w: seq<SwissPlayer>, next: nat)
    requires |g| >= 2 && rest == g[1..] && k == FirstFresh(g[0].opponents, rest) && w == Without(rest, k) && next == base + 1
    requires forall j :: 0 <= j < |PairGroup(w, round, next)| ==> PairGroup(w, round, next)[j].matchId == MatchId(round, next + j + 1)
    requires forall j :: 0 <= j < |PairGroup(w, round, next)| ==>
      (PairGroup(w, round, next)[j].p2.Bye? <==> j == |PairGroup(w, round, next)| - 1 && |w| % 2 == 1)
    requires forall j :: 0 <= j < |PairGroup(w, round, next)| ==>
      PairGroup(w, round, next)[j].winner == (if PairGroup(w, round, next)[j].p2.Bye? then Some(PairGroup(w, round, next)[j].p1) else None)
    ensures forall j :: 0 <= j < |PairGroup(g, round, base)| ==> PairGroup(g, round, base)[j].matchId == MatchId(round, base + j + 1)
    ensures forall j :: 0 <= j < |PairGroup(g, round, base)| ==>
      (PairGroup(g, round, base)[j].p2.Bye? <==> j == |PairGroup(g, round, base)| - 1 && |g| % 2 == 1)
    ensures forall j :: 0 <= j < |PairGroup(g, round, base)| ==>
      PairGroup(g, round, base)[j].winner == (if PairGroup(g, round, base)[j].p2.Bye? then Some(PairGroup(g, round, base)[j].p1) else None)
  {
    var m := Match(MatchId(round, next), g[0].id, Vs(rest[k].id), None);
    PairGroupUnfold(g, round, base, rest, k, w, next);
    var r := PairGroup(g, round, base);
    var tail := PairGroup(w, round, next);
    ShapeIds(m, tail, r, round, base);
    ShapeByes(m, tail, r, |g|, |w|);
    ShapeWinners(m, tail, r);
  }

  /** A group of two or more: the head and its partner, then the rest paired. */
  lemma {:induction false} PairGroupUnfold(g: seq<SwissPlayer>, round: nat, base: nat, rest: seq<SwissPlayer>, k: nat, w: seq<SwissPlayer>, next: nat)
    requires |g| >= 2 && rest == g[1..] && k == FirstFresh(g[0].opponents, rest) && w == Without(rest, k) && next == base + 1
    ensures PairGroup(g, round, base) == [Match(MatchId(round, next), g[0].id, Vs(rest[k].id), None)] + PairGroup(w, round, next)
    ensures |w| == |g| - 2
  {
  }

  lemma {:induction false} ShapeIds(m: Match, tail: seq<Match>, r: seq<Match>, round: nat, base: nat)
    requires r == [m] + tail && m.matchId == MatchId(round, base + 1)
    requires forall j :: 0 <= j < |tail| ==> tail[j].matchId == MatchId(round, base + 1 + j + 1)
    ensures forall j :: 0 <= j < |r| ==> r[j].matchId == MatchId(round, base + j + 1)
  {
    forall j | 0 <= j < |r| ensures r[j].matchId == MatchId(round, base + j + 1) {
      if j > 0 { assert r[j] == tail[j - 1]; }
    }
  }

  lemma {:induction false} ShapeByes(m: Match, tail: seq<Match>, r: seq<Match>, gl: nat, wl: nat)
    requires r == [m] + tail && m.p2.Vs? && gl == wl + 2 && |tail| == (wl + 1) / 2
    requires forall j :: 0 <= j < |tail| ==> (tail[j].p2.Bye? <==> j == |tail| - 1 && wl % 2 == 1)
    ensures forall j :: 0 <= j < |r| ==> (r[j].p2.Bye? <==> j == |r| - 1 && gl % 2 == 1)
  {
    assert gl % 2 == wl % 2;
    forall j | 0 <= j < |r| ensures r[j].p2.Bye? <==> j == |r| - 1 && gl % 2 == 1 {
      if j > 0 { assert r[j] == tail[j - 1]; }
      else if wl % 2 == 1 { assert |tail| > 0; }
    }
  }

  lemma {:induction false} ShapeWinners(m: Match, tail: seq<Match>, r: seq<Match>)
    requires r == [m] + tail && m.p2.Vs? && m.winner == None
    requires forall j :: 0 <= j < |tail| ==> tail[j].winner == (if tail[j].p2.Bye? then Some(tail[j].p1) else None)
    ensures forall j :: 0 <= j < |r| ==> r[j].winner == (if r[j].p2.Bye? then Some(r[j].p1) else None)
  {
    forall j | 0 <= j < |r| ensures r[j].winner == (if r[j].p2.Bye? then Some(r[j].p1) else None) {
      if j > 0 { assert r[j] == tail[j - 1]; }
    }
  }

  /** Match `k` of the new round is `R{round}M{k+1}`. */
  lemma {:induction false} PairFromIds(gs: seq<seq<SwissPlayer>>, round: nat, base: nat)
    ensures forall k :: 0 <= k < |PairFrom(gs, round, base)| ==> PairFrom(gs, round, base)[k].matchId == MatchId(round, base + k + 1)
    decreases |gs|
  {
    if gs != [] {
      var next := base + |PairGroup(gs[0], round, base)|;
      PairFromIds(gs[1..], round, next);
      PairFromIdsStep(gs, round, base, next);
    }
  }

  lemma {:induction false} PairFromIdsStep(gs: seq<seq<SwissPlayer>>, round: nat, base: nat, next: nat)
    requires gs != [] && next == base + |PairGroup(gs[0], round, base)|
    requires forall k :: 0 <= k < |PairFrom(gs[1..], round, next)| ==> PairFrom(gs[1..], round, next)[k].matchId == MatchId(round, next + k + 1)
    ensures forall k :: 0 <= k < |PairFrom(gs, round, base)| ==> PairFrom(gs, round, base)[k].matchId == MatchId(round, base + k + 1)
  {
    var m := PairGroup(gs[0], round, base);
    var rest := PairFrom(gs[1..], round, next);
    PairFromCons(gs, round, base, next);
    PairGroupShape(gs[0], round, base);
    var r := m + rest;
    forall k | 0 <= k < |r| ensures r[k].matchId == MatchId(round, base + k + 1) {
      if k >= |m| { assert r[k] == rest[k - |m|]; }
    }
  }

  /** The new round is numbered one past the finished one, and so are its match ids. */
  lemma {:induction false} NextRoundIds(t: Tournament, draw: map<string, int>)
    requires |t.rounds| > 0
    ensures CurrentRound(NextRoundSpec(t, draw)).number == CurrentRound(t).number + 1
    ensures forall k :: 0 <= k < |CurrentRound(NextRoundSpec(t, draw)).matches| ==>
      CurrentRound(NextRoundSpec(t, draw)).matches[k].matchId == MatchId(CurrentRound(t).number + 1, k + 1)
  {
    var ps := RecordAll(t.players, CurrentRound(t).matches);
    var round := CurrentRound(t).number + 1;
    var gs := GroupsAt(ps, Levels(ps), draw);
    NextRoundParts(t, draw, ps, round, gs);
    PairFromIds(gs, round, 0);
  }

  /**
   * The head of a group meets the first group member it has not met yet; it
   * meets someone it has already met only when it has met everyone left.
   */
  lemma {:induction false} PairGroupHead(g: seq<SwissPlayer>, round: nat, base: nat)
    requires |g| >= 2
    ensures var m := PairGroup(g, round, base)[0];
      m.p1 == g[0].id && m.p2.Vs? && m.winner == None &&
      exists k :: 1 <= k < |g| && m.p2.id == g[k].id &&
        (forall j :: 1 <= j < k ==> g[j].id in g[0].opponents) &&
        (g[k].id in g[0].opponents ==> forall j :: 1 <= j < |g| ==> g[j].id in g[0].opponents)
  {
    var rest := g[1..];
    var k := FirstFresh(g[0].opponents, rest);
    assert rest[k] == g[k + 1];
    assert forall j :: 1 <= j < |g| ==> g[j] == rest[j - 1];
  }

  /**
   * In every match of a group's pairing, the first seat is a group member,
   * and a rematch happens only when that member has already met everyone
   * seated after it in the group.
   */
  ghost predicate RematchesForced(ms: seq<Match>, pool: seq<SwissPlayer>) {
    forall k :: 0 <= k < |ms| && ms[k].p2.Vs? ==>
      exists x :: x in pool && x.id == ms[k].p1 &&
        (ms[k].p2.id in x.opponents ==> forall k', s :: k < k' < |ms| && s in Seats(ms[k']) ==> s in x.opponents)
  }

  /** Every match of a group, not only its first: a repeat pairing is a last resort. */
  lemma {:induction false} PairGroupRematches(g: seq<SwissPlayer>, round: nat, base: nat)
    ensures RematchesForced(PairGroup(g, round, base), g)
    decreases |g|
  {
    if |g| == 1 {
      assert PairGroup(g, round, base)[0].p2.Bye?;
    } else if |g| >= 2 {
      var rest := g[1..];
      var k := FirstFresh(g[0].opponents, rest);
      var w := Without(rest, k);
      var next := base + 1;
      PairGroupUnfold(g, round, base, rest, k, w, next);
      PairGroupRematches(w, round, next);
      PairGroupRematchesStep(g, round, base, rest, k, w, next);
    }
  }

  lemma {:induction false} PairGroupRematchesStep(g: seq<SwissPlayer>, round: nat, base: nat, rest: seq<SwissPlayer>, k: nat, w: seq<SwissPlayer>, next: nat)
    requires |g| >= 2 && rest == g[1..] && k == FirstFresh(g[0].opponents, rest) && w == Without(rest, k) && next == base + 1
    requires RematchesForced(PairGroup(w, round, next), w)
    ensures RematchesForced(PairGroup(g, round, base), g)
  {
    PairGroupUnfold(g, round, base, rest, k, w, next);
    var tail := PairGroup(w, round, next);
    var m := Match(MatchId(round, next), g[0].id, Vs(rest[k].id), None);
    WithoutIn(rest, k);
    TailIn(g, rest, w);
    if rest[k].id in g[0].opponents {
      PairGroupSeats(w, round, next);
      MetAllSeats(rest, w, tail, g[0].opponents);
    }
    RematchesCons(m, tail, PairGroup(g, round, base), g, w, g[0]);
  }

  lemma {:induction false} TailIn(g: seq<SwissPlayer>, rest: seq<SwissPlayer>, w: seq<SwissPlayer>)
    requires |g| >= 1 && rest == g[1..] && forall x :: x in w ==> x in rest
    ensures forall x :: x in w ==> x in g
  {
    forall x | x in w ensures x in g {
      var i :| 0 <= i < |rest| && rest[i] == x;
      assert g[i + 1] == x;
    }
  }

  /** Seats taken from a pool whose every member is in `opponents` are all in `opponents`. */
  lemma {:induction false} MetAllSeats(rest: seq<SwissPlayer>, w: seq<SwissPlayer>, tail: seq<Match>, opponents: seq<string>)
    requires forall j :: 0 <= j < |rest| ==> rest[j].id in opponents
    requires forall x :: x in w ==> x in rest
    requires multiset(AllSeats(tail)) == multiset(SwissIds(w))
    ensures forall s :: s in AllSeats(tail) ==> s in opponents
  {
    forall s | s in AllSeats(tail) ensures s in opponents {
      assert s in multiset(SwissIds(w));
      var i :| 0 <= i < |w| && SwissIds(w)[i] == s;
      assert w[i] in rest;
      var j :| 0 <= j < |rest| && rest[j] == w[i];
    }
  }

  lemma {:induction false} WithoutIn(pool: seq<SwissPlayer>, k: nat)
    requires k < |pool|
    ensures forall x :: x in Without(pool, k) ==> x in pool
  {
    forall x | x in Without(pool, k) ensures x in pool {
      if x in pool[..k] {
        var i :| 0 <= i < k && pool[..k][i] == x;
        assert pool[i] == x;
      } else {
        var i :| 0 <= i < |pool| - k - 1 && pool[k + 1..][i] == x;
        assert pool[k + 1 + i] == x;
      }
    }
  }

  lemma {:induction false} RematchesCons(m: Match, tail: seq<Match>, r: seq<Match>, g: seq<SwissPlayer>, w: seq<SwissPlayer>, h: SwissPlayer)
    requires r == [m] + tail && h in g && m.p1 == h.id && m.p2.Vs?
    requires forall x :: x in w ==> x in g
    requires m.p2.id in h.opponents ==> forall s :: s in AllSeats(tail) ==> s in h.opponents
    requires RematchesForced(tail, w)
    ensures RematchesForced(r, g)
  {
    forall j | 0 <= j < |r| && r[j].p2.Vs?
      ensures exists x :: x in g && x.id == r[j].p1 &&
                (r[j].p2.id in x.opponents ==> forall k', s :: j < k' < |r| && s in Seats(r[k']) ==> s in x.opponents)
    {
      if j == 0 {
        if m.p2.id in h.opponents {
          forall k', s | 0 < k' < |r| && s in Seats(r[k']) ensures s in h.opponents {
            assert r[k'] == tail[k' - 1];
            SeatInAll(tail, k' - 1, s);
          }
        }
      } else {
        assert r[j] == tail[j - 1];
        var x :| x in w && x.id == tail[j - 1].p1 &&
          (tail[j - 1].p2.id in x.opponents ==> forall k', s :: j - 1 < k' < |tail| && s in Seats(tail[k']) ==> s in x.opponents);
        forall k', s | j < k' < |r| && s in Seats(r[k']) && r[j].p2.id in x.opponents ensures s in x.opponents {
          assert r[k'] == tail[k' - 1];
        }
      }
    }
  }

  // ---------------------------------------------------------------- Levels

  /** The win count `.find` sees for `id` (0 when nobody has it). */
  function WinsIn(ps: seq<SwissPlayer>, id: string): int {
    if ps == [] then 0 else if ps[0].id == id then ps[0].wins else WinsIn(ps[1..], id)
  }

  lemma {:induction false} WinsInMember(ps: seq<SwissPlayer>, i: int)
    requires DistinctSwissIds(ps) && 0 <= i < |ps|
    ensures WinsIn(ps, ps[i].id) == ps[i].wins
    decreases |ps|
  {
    if i > 0 {
      assert ps[0].id != ps[i].id;
      assert ps[1..][i - 1] == ps[i];
      WinsInMember(ps[1..], i - 1);
    }
  }

  /**
   * Only players on the same win count meet, higher counts are paired first,
   * and a BYE closes its win group.
   */
  ghost predicate LevelOrdered(ms: seq<Match>, ps: seq<SwissPlayer>) {
    (forall k :: 0 <= k < |ms| && ms[k].p2.Vs? ==> WinsIn(ps, ms[k].p2.id) == WinsIn(ps, ms[k].p1)) &&
    (forall k1, k2 :: 0 <= k1 < k2 < |ms| ==> WinsIn(ps, ms[k1].p1) >= WinsIn(ps, ms[k2].p1)) &&
    (forall k :: 0 <= k < |ms| - 1 && ms[k].p2.Bye? ==> WinsIn(ps, ms[k + 1].p1) < WinsIn(ps, ms[k].p1))
  }

  lemma {:induction false} SeatInAll(ms: seq<Match>, k: int, x: string)
    requires 0 <= k < |ms| && x in Seats(ms[k])
    ensures x in AllSeats(ms)
    decreases |ms|
  {
    if k > 0 {
      assert ms[1..][k - 1] == ms[k];
      SeatInAll(ms[1..], k - 1, x);
    }
  }

  /** Every seat of a group's pairing belongs to the group. */
  lemma {:induction false} PairGroupSeatsIn(g: seq<SwissPlayer>, round: nat, base: nat, k: int, x: string)
    requires 0 <= k < |PairGroup(g, round, base)| && x in Seats(PairGroup(g, round, base)[k])
    ensures x in SwissIds(g)
  {
    SeatInAll(PairGroup(g, round, base), k, x);
    PairGroupSeats(g, round, base);
    assert x in multiset(SwissIds(g));
  }

  /** All matches of a group's pairing sit on the group's win count. */
  lemma {:induction false} GroupLevel(g: seq<SwissPlayer>, round: nat, base: nat, ps: seq<SwissPlayer>, w: int)
    requires forall x :: x in SwissIds(g) ==> WinsIn(ps, x) == w
    ensures forall k :: 0 <= k < |PairGroup(g, round, base)| ==>
      WinsIn(ps, PairGroup(g, round, base)[k].p1) == w &&
      (PairGroup(g, round, base)[k].p2.Vs? ==> WinsIn(ps, PairGroup(g, round, base)[k].p2.id) == w)
  {
    var r := PairGroup(g, round, base);
    forall k | 0 <= k < |r| ensures WinsIn(ps, r[k].p1) == w && (r[k].p2.Vs? ==> WinsIn(ps, r[k].p2.id) == w) {
      PairGroupSeatsIn(g, round, base, k, r[k].p1);
      if r[k].p2.Vs? { PairGroupSeatsIn(g, round, base, k, r[k].p2.id); }
    }
  }

  lemma {:induction false} LevelOrderedConcat(a: seq<Match>, b: seq<Match>, ps: seq<SwissPlayer>, w: int)
    requires forall k :: 0 <= k < |a| ==> WinsIn(ps, a[k].p1) == w && (a[k].p2.Vs? ==> WinsIn(ps, a[k].p2.id) == w)
    requires forall k :: 0 <= k < |a| - 1 ==> a[k].p2.Vs?
    requires forall k :: 0 <= k < |b| ==> WinsIn(ps, b[k].p1) < w
    requires LevelOrdered(b, ps)
    ensures LevelOrdered(a + b, ps)
  {
    var r := a + b;
    forall k | 0 <= k < |r| && r[k].p2.Vs? ensures WinsIn(ps, r[k].p2.id) == WinsIn(ps, r[k].p1) {
      if k >= |a| { assert r[k] == b[k - |a|]; }
    }
    forall k1, k2 | 0 <= k1 < k2 < |r| ensures WinsIn(ps, r[k1].p1) >= WinsIn(ps, r[k2].p1) {
      if k1 >= |a| { assert r[k1] == b[k1 - |a|] && r[k2] == b[k2 - |a|]; }
      else if k2 >= |a| { assert r[k2] == b[k2 - |a|]; }
    }
    forall k | 0 <= k < |r| - 1 && r[k].p2.Bye? ensures WinsIn(ps, r[k + 1].p1) < WinsIn(ps, r[k].p1) {
      if k >= |a| { assert r[k] == b[k - |a|] && r[k + 1] == b[k + 1 - |a|]; }
      else { assert k == |a| - 1; assert r[k + 1] == b[0]; }
    }
  }

  /** Pairing groups of strictly descending win counts, in turn. */
  lemma {:induction false} PairFromLevels(gs: seq<seq<SwissPlayer>>, round: nat, base: nat, ps: seq<SwissPlayer>, l: seq<int>)
    requires |gs| == |l| && StrictlyDescending(l)
    requires forall i, x :: 0 <= i < |gs| && x in SwissIds(gs[i]) ==> WinsIn(ps, x) == l[i]
    ensures LevelOrdered(PairFrom(gs, round, base), ps)
    ensures forall k :: 0 <= k < |PairFrom(gs, round, base)| ==> WinsIn(ps, PairFrom(gs, round, base)[k].p1) in l
    decreases |gs|
  {
    if gs != [] {
      var next := base + |PairGroup(gs[0], round, base)|;
      LevelsTail(gs, ps, l);
      PairFromLevels(gs[1..], round, next, ps, l[1..]);
      PairFromLevelsStep(gs, round, base, next, ps, l);
    }
  }

  lemma {:induction false} LevelsTail(gs: seq<seq<SwissPlayer>>, ps: seq<SwissPlayer>, l: seq<int>)
    requires gs != [] && |gs| == |l| && StrictlyDescending(l)
    requires forall i, x :: 0 <= i < |gs| && x in SwissIds(gs[i]) ==> WinsIn(ps, x) == l[i]
    ensures StrictlyDescending(l[1..])
    ensures forall i, x :: 0 <= i < |gs[1..]| && x in SwissIds(gs[1..][i]) ==> WinsIn(ps, x) == l[1..][i]
  {
    forall i, x | 0 <= i < |gs[1..]| && x in SwissIds(gs[1..][i]) ensures WinsIn(ps, x) == l[1..][i] {
      assert gs[1..][i] == gs[i + 1];
    }
  }

  lemma {:induction false} PairFromLevelsStep(gs: seq<seq<SwissPlayer>>, round: nat, base: nat, next: nat, ps: seq<SwissPlayer>, l: seq<int>)
    requires gs != [] && next == base + |PairGroup(gs[0], round, base)|
    requires |gs| == |l| && StrictlyDescending(l)
    requires forall i, x :: 0 <= i < |gs| && x in SwissIds(gs[i]) ==> WinsIn(ps, x) == l[i]
    requires LevelOrdered(PairFrom(gs[1..], round, next), ps)
    requires forall k :: 0 <= k < |PairFrom(gs[1..], round, next)| ==> WinsIn(ps, PairFrom(gs[1..], round, next)[k].p1) in l[1..]
    ensures LevelOrdered(PairFrom(gs, round, base), ps)
    ensures forall k :: 0 <= k < |PairFrom(gs, round, base)| ==> WinsIn(ps, PairFrom(gs, round, base)[k].p1) in l
  {
    var m := PairGroup(gs[0], round, base);
    var rest := PairFrom(gs[1..], round, next);
    PairFromCons(gs, round, base, next);
    GroupLevel(gs[0], round, base, ps, l[0]);
    PairGroupShape(gs[0], round, base);
    forall k | 0 <= k < |rest| ensures WinsIn(ps, rest[k].p1) < l[0] {
      var x := WinsIn(ps, rest[k].p1);
      assert x in l[1..];
      var j :| 0 <= j < |l[1..]| && l[1..][j] == x;
      assert l[j + 1] == x;
    }
    LevelOrderedConcat(m, rest, ps, l[0]);
    var r := m + rest;
    forall k | 0 <= k < |r| ensures WinsIn(ps, r[k].p1) in l {
      if k >= |m| { assert r[k] == rest[k - |m|]; }
    }
  }

  /** The players of a shuffled win group all have that win count. */
  lemma {:induction false} GroupsLevel(ps: seq<SwissPlayer>, l: seq<int>, draw: map<string, int>)
    requires DistinctSwissIds(ps)
    ensures forall i, x :: 0 <= i < |GroupsAt(ps, l, draw)| && x in SwissIds(GroupsAt(ps, l, draw)[i]) ==> WinsIn(ps, x) == l[i]
  {
    var gs := GroupsAt(ps, l, draw);
    forall i, x | 0 <= i < |gs| && x in SwissIds(gs[i]) ensures WinsIn(ps, x) == l[i] {
      var j :| 0 <= j < |gs[i]| && SwissIds(gs[i])[j] == x;
      var q := gs[i][j];
      assert q in multiset(Group(ps, l[i]));
      assert q in ps && q.wins == l[i];
      var n :| 0 <= n < |ps| && ps[n] == q;
      WinsInMember(ps, n);
    }
  }

  /**
   * In the new round, only players on the same win count meet, higher win
   * counts are paired first, and at most one BYE falls in each win group, as
   * its last match.
   */
  lemma {:induction false} NextRoundLevels(t: Tournament, draw: map<string, int>)
    requires |t.rounds| > 0 && DistinctSwissIds(t.players)
    ensures LevelOrdered(CurrentRound(NextRoundSpec(t, draw)).matches, NextRoundSpec(t, draw).players)
  {
    var ps := RecordAll(t.players, CurrentRound(t).matches);
    var round := CurrentRound(t).number + 1;
    var levels := Levels(ps);
    var gs := GroupsAt(ps, levels, draw);
    NextRoundParts(t, draw, ps, round, gs);
    RecordAllEntrants(t.players, CurrentRound(t).matches);
    GroupsLevel(ps, levels, draw);
    PairFromLevels(gs, round, 0, ps, levels);
  }

  /**
   * In every match of a round, the first seat is a player, and a rematch
   * happens only when that player has already met everyone seated after it
   * on its win count.
   */
  ghost predicate RoundRematchesForced(ms: seq<Match>, ps: seq<SwissPlayer>) {
    forall k :: 0 <= k < |ms| && ms[k].p2.Vs? ==>
      exists x :: x in ps && x.id == ms[k].p1 &&
        (ms[k].p2.id in x.opponents ==>
           forall k', s :: k < k' < |ms| && s in Seats(ms[k']) && WinsIn(ps, s) == WinsIn(ps, ms[k].p1) ==> s in x.opponents)
  }

  /**
   * In the new round, a player meets someone it has already met only when it
   * has met everyone of its win group still to be seated.
   */
  lemma {:induction false} NextRoundRematches(t: Tournament, draw: map<string, int>)
    requires |t.rounds| > 0 && DistinctSwissIds(t.players)
    ensures RoundRematchesForced(CurrentRound(NextRoundSpec(t, draw)).matches, NextRoundSpec(t, draw).players)
  {
    var ps := RecordAll(t.players, CurrentRound(t).matches);
    var round := CurrentRound(t).number + 1;
    var levels := Levels(ps);
    var gs := GroupsAt(ps, levels, draw);
    NextRoundParts(t, draw, ps, round, gs);
    RecordAllEntrants(t.players, CurrentRound(t).matches);
    GroupsLevel(ps, levels, draw);
    GroupsMembers(ps, levels, draw);
    PairFromRematches(gs, round, 0, ps, levels);
  }

  lemma {:induction false} GroupsMembers(ps: seq<SwissPlayer>, l: seq<int>, draw: map<string, int>)
    ensures forall i, x :: 0 <= i < |GroupsAt(ps, l, draw)| && x in GroupsAt(ps, l, draw)[i] ==> x in ps
  {
    var gs := GroupsAt(ps, l, draw);
    forall i, x | 0 <= i < |gs| && x in gs[i] ensures x in ps {
      assert x in multiset(Group(ps, l[i]));
    }
  }

  lemma {:induction false} PairFromRematches(gs: seq<seq<SwissPlayer>>, round: nat, base: nat, ps: seq<SwissPlayer>, l: seq<int>)
    requires |gs| == |l| && StrictlyDescending(l)
    requires forall i, x :: 0 <= i < |gs| && x in SwissIds(gs[i]) ==> WinsIn(ps, x) == l[i]
    requires forall i, x :: 0 <= i < |gs| && x in gs[i] ==> x in ps
    ensures RoundRematchesForced(PairFrom(gs, round, base), ps)
    decreases |gs|
  {
    if gs != [] {
      var next := base + |PairGroup(gs[0], round, base)|;
      LevelsTail(gs, ps, l);
      MembersTail(gs, ps);
      PairFromRematches(gs[1..], round, next, ps, l[1..]);
      PairFromRematchesStep(gs, round, base, next, ps, l);
    }
  }

  lemma {:induction false} MembersTail(gs: seq<seq<SwissPlayer>>, ps: seq<SwissPlayer>)
    requires gs != [] && forall i, x :: 0 <= i < |gs| && x in gs[i] ==> x in ps
    ensures forall i, x :: 0 <= i < |gs[1..]| && x in gs[1..][i] ==> x in ps
  {
    forall i, x | 0 <= i < |gs[1..]| && x in gs[1..][i] ensures x in ps {
      assert gs[1..][i] == gs[i + 1];
    }
  }

  lemma {:induction false} PairFromRematchesStep(gs: seq<seq<SwissPlayer>>, round: nat, base: nat, next: nat, ps: seq<SwissPlayer>, l: seq<int>)
    requires gs != [] && next == base + |PairGroup(gs[0], round, base)|
    requires |gs| == |l| && StrictlyDescending(l)
    requires forall i, x :: 0 <= i < |gs| && x in SwissIds(gs[i]) ==> WinsIn(ps, x) == l[i]
    requires forall i, x :: 0 <= i < |gs| && x in gs[i] ==> x in ps
    requires RoundRematchesForced(PairFrom(gs[1..], round, next), ps)
    ensures RoundRematchesForced(PairFrom(gs, round, base), ps)
  {
    var m := PairGroup(gs[0], round, base);
    var rest := PairFrom(gs[1..], round, next);
    PairFromCons(gs, round, base, next);
    PairGroupRematches(gs[0], round, base);
    GroupLevel(gs[0], round, base, ps, l[0]);
    LevelsTail(gs, ps, l);
    PairFromLevels(gs[1..], round, next, ps, l[1..]);
    LaterSeatsBelow(rest, ps, l);
    RematchesConcat(m, rest, ps, l[0], gs[0]);
  }

  /** The seats of the lower win groups are all below the top level. */
  lemma {:induction false} LaterSeatsBelow(ms: seq<Match>, ps: seq<SwissPlayer>, l: seq<int>)
    requires |l| > 0 && StrictlyDescending(l) && LevelOrdered(ms, ps)
    requires forall k :: 0 <= k < |ms| ==> WinsIn(ps, ms[k].p1) in l[1..]
    ensures forall j, s :: 0 <= j < |ms| && s in Seats(ms[j]) ==> WinsIn(ps, s) < l[0]
  {
    forall j, s | 0 <= j < |ms| && s in Seats(ms[j]) ensures WinsIn(ps, s) < l[0] {
      var x := WinsIn(ps, ms[j].p1);
      var i :| 0 <= i < |l[1..]| && l[1..][i] == x;
      assert l[i + 1] == x;
    }
  }

  lemma {:induction false} RematchesConcat(a: seq<Match>, b: seq<Match>, ps: seq<SwissPlayer>, w: int, pool: seq<SwissPlayer>)
    requires RematchesForced(a, pool) && forall x :: x in pool ==> x in ps
    requires forall k :: 0 <= k < |a| ==> WinsIn(ps, a[k].p1) == w
    requires forall j, s :: 0 <= j < |b| && s in Seats(b[j]) ==> WinsIn(ps, s) < w
    requires RoundRematchesForced(b, ps)
    ensures RoundRematchesForced(a + b, ps)
  {
    var r := a + b;
    forall k | 0 <= k < |r| && r[k].p2.Vs?
      ensures exists x :: x in ps && x.id == r[k].p1 &&
                (r[k].p2.id in x.opponents ==>
                   forall k', s :: k < k' < |r| && s in Seats(r[k']) && WinsIn(ps, s) == WinsIn(ps, r[k].p1) ==> s in x.opponents)
    {
      if k < |a| {
        assert r[k] == a[k];
        var x :| x in pool && x.id == a[k].p1 &&
          (a[k].p2.id in x.opponents ==> forall k', s :: k < k' < |a| && s in Seats(a[k']) ==> s in x.opponents);
        forall k', s | k < k' < |r| && s in Seats(r[k']) && WinsIn(ps, s) == WinsIn(ps, r[k].p1) && r[k].p2.id in x.opponents
          ensures s in x.opponents
        {
          if k' < |a| { assert r[k'] == a[k']; }
          else { assert false; }
        }
      } else {
        assert r[k] == b[k - |a|];
        var x :| x in ps && x.id == b[k - |a|].p1 &&
          (b[k - |a|].p2.id in x.opponents ==>
             forall k', s :: k - |a| < k' < |b| && s in Seats(b[k']) && WinsIn(ps, s) == WinsIn(ps, b[k - |a|].p1) ==> s in x.opponents);
        forall k', s | k < k' < |r| && s in Seats(r[k']) && WinsIn(ps, s) == WinsIn(ps, r[k].p1) && r[k].p2.id in x.opponents
          ensures s in x.opponents
        {
          assert r[k'] == b[k' - |a|];
        }
      }
    }
  }

  /**
   * The finished round is recorded: each player gains the matches it won (a
   * BYE included) and, in match order, the opponents it met.
   */
  lemma {:induction false} NextRoundPlayers(t: Tournament, draw: map<string, int>, i: int)
    requires |t.rounds| > 0 && DistinctSwissIds(t.players) && 0 <= i < |t.players|
    ensures NextRoundSpec(t, draw).players[i]
         == t.players[i].(wins := t.players[i].wins + Won(CurrentRound(t).matches, t.players[i].id),
                          opponents := t.players[i].opponents + Met(CurrentRound(t).matches, t.players[i].id, SwissIds(t.players)))
  {
    RecordAllAt(t.players, CurrentRound(t).matches, i);
  }
}
