/**
 * Serpentine ("snake draft") grouping of a ranked roster into `k` groups:
 * seat `i` lies in pass `i / k`; even passes deal groups 0, 1, ..., k-1 and
 * odd passes deal them back k-1, ..., 0.
 */
module Serpentine {
  import opened Roster

  /** The group that seat `i` of the ranked list goes to. */
  function SnakeSlot(i: nat, k: nat): (g: nat)
    requires k > 0
    ensures g < k
  {
    if (i / k) % 2 == 0 then i % k else k - 1 - i % k
  }

  /** The players of group `g`, in ranked order (a filter written from the end). */
  function Members(s: seq<Player>, k: nat, g: nat): (r: seq<Player>)
    requires k > 0
    ensures |r| <= |s|
  {
    if s == [] then []
    else Members(s[..|s| - 1], k, g) + (if SnakeSlot(|s| - 1, k) == g then [s[|s| - 1]] else [])
  }

  /** All `k` groups. */
  function Draft(s: seq<Player>, k: nat): (gs: seq<seq<Player>>)
    requires k > 0
    ensures |gs| == k
    ensures forall g :: 0 <= g < k ==> gs[g] == Members(s, k, g)
  {
    seq(k, g requires 0 <= g < k => Members(s, k, g))
  }

  /** The builders' `forEach`, pushing each ranked player onto its group. */
  method SnakeDraft(ranked: seq<Player>, k: nat) returns (groups: seq<seq<Player>>)
    requires k > 0
    ensures groups == Draft(ranked, k)
  {
    groups := seq(k, _ => []);
    DraftEmpty(ranked[..0], k);
    for index := 0 to |ranked|
      invariant groups == Draft(ranked[..index], k)
    {
      var groupIndex := SnakeSlot(index, k);
      DraftSnoc(ranked[..index + 1], k);
      assert ranked[..index + 1][..index] == ranked[..index];
      groups := groups[groupIndex := groups[groupIndex] + [ranked[index]]];
    }
    assert ranked[..|ranked|] == ranked;
  }

  lemma {:induction false} DraftEmpty(s: seq<Player>, k: nat)
    requires s == [] && k > 0
    ensures Draft(s, k) == seq(k, _ => [])
  {
  }

  lemma {:induction false} DraftSnoc(s: seq<Player>, k: nat)
    requires |s| > 0 && k > 0
    ensures Draft(s, k) == Draft(s[..|s| - 1], k)[SnakeSlot(|s| - 1, k) := Draft(s[..|s| - 1], k)[SnakeSlot(|s| - 1, k)] + [s[|s| - 1]]]
  {
    var gs := Draft(s[..|s| - 1], k);
    var j := SnakeSlot(|s| - 1, k);
    var hs := gs[j := gs[j] + [s[|s| - 1]]];
    forall g | 0 <= g < k ensures Draft(s, k)[g] == hs[g] {
      assert Draft(s, k)[g] == Members(s, k, g);
    }
  }

  // -------------------------------------------------------------- Passes

  /** Within one pass every group receives exactly one seat. */
  lemma {:induction false} SnakePass(p: nat, k: nat, g: nat)
    requires k > 0 && g < k
    ensures var i := if p % 2 == 0 then p * k + g else p * k + (k - 1 - g);
      p * k <= i < p * k + k && SnakeSlot(i, k) == g
    ensures forall i :: p * k <= i < p * k + k && SnakeSlot(i, k) == g ==>
      i == if p % 2 == 0 then p * k + g else p * k + (k - 1 - g)
  {
    SnakeSeatOf(p, k, g, p * k);
    SnakeSeatOnly(p, k, g, p * k);
  }

  lemma {:induction false} SnakeSeatOf(p: nat, k: nat, g: nat, b: nat)
    requires k > 0 && g < k && b == p * k
    ensures var i := if p % 2 == 0 then b + g else b + (k - 1 - g);
      b <= i < b + k && SnakeSlot(i, k) == g
  {
    var i := if p % 2 == 0 then b + g else b + (k - 1 - g);
    DivPass(i, p, k);
  }

  lemma {:induction false} SnakeSeatOnly(p: nat, k: nat, g: nat, b: nat)
    requires k > 0 && g < k && b == p * k
    ensures forall i :: b <= i < b + k && SnakeSlot(i, k) == g ==>
      i == if p % 2 == 0 then b + g else b + (k - 1 - g)
  {
    forall i | b <= i < b + k && SnakeSlot(i, k) == g
      ensures i == if p % 2 == 0 then b + g else b + (k - 1 - g)
    {
      DivPass(i, p, k);
    }
  }

  /** Consecutive passes turn on the same group: the last seat of a pass and the first of the next share it. */
  lemma {:induction false} SnakeTurn(p: nat, k: nat)
    requires k > 0
    ensures SnakeSlot(p * k + k - 1, k) == SnakeSlot(p * k + k, k)
  {
    PassEnd(p + 1, p, k);
    SnakeTurnAt(p, k, p * k, (p + 1) * k);
  }

  lemma {:induction false} SnakeTurnAt(p: nat, k: nat, b: nat, c: nat)
    requires k > 0 && b == p * k && c == (p + 1) * k && c == b + k
    ensures SnakeSlot(b + k - 1, k) == SnakeSlot(b + k, k)
  {
    DivPass(b + k - 1, p, k);
    DivPass(b + k, p + 1, k);
  }

  lemma {:induction false} DivPass(i: nat, p: nat, k: nat)
    requires k > 0 && p * k <= i < p * k + k
    ensures i / k == p && i % k == i - p * k
  {
    var q, m := i / k, i % k;
    assert i == q * k + m;
    assert (q - p) * k == (i - p * k) - m;
    if q > p {
      MulAtLeast(q - p, k);
    } else if q < p {
      assert (p - q) * k == -((q - p) * k);
      MulAtLeast(p - q, k);
    }
  }

  lemma {:induction false} MulAtLeast(a: int, k: int)
    requires a >= 1 && k > 0
    ensures a * k >= k
  {
    assert a * k == (a - 1) * k + k;
  }

  // ------------------------------------------------------------ Partition

  function Flatten(gs: seq<seq<Player>>): seq<Player> {
    if gs == [] then [] else gs[0] + Flatten(gs[1..])
  }

  lemma {:induction false} FlattenAppend(gs: seq<seq<Player>>, j: nat, x: Player)
    requires j < |gs|
    ensures multiset(Flatten(gs[j := gs[j] + [x]])) == multiset(Flatten(gs)) + multiset{x}
    decreases |gs|
  {
    var hs := gs[j := gs[j] + [x]];
    if j == 0 {
      assert hs[1..] == gs[1..];
    } else {
      assert hs[1..] == gs[1..][j - 1 := gs[1..][j - 1] + [x]];
      FlattenAppend(gs[1..], j - 1, x);
    }
  }

  /** The groups hold every ranked player exactly once. */
  lemma {:induction false} DraftPartition(s: seq<Player>, k: nat)
    requires k > 0
    ensures multiset(Flatten(Draft(s, k))) == multiset(s)
    decreases |s|
  {
    if s == [] {
      var gs := Draft(s, k);
      forall j | 0 <= j < |gs| ensures gs[j] == [] {}
      FlattenEmpty(gs);
    } else {
      var n := |s| - 1;
      var front := s[..n];
      DraftPartition(front, k);
      DraftPartitionStep(s, k, n, front);
    }
  }

  lemma {:induction false} DraftPartitionStep(s: seq<Player>, k: nat, n: nat, front: seq<Player>)
    requires k > 0 && |s| > 0 && n == |s| - 1 && front == s[..n]
    requires multiset(Flatten(Draft(front, k))) == multiset(front)
    ensures multiset(Flatten(Draft(s, k))) == multiset(s)
  {
    var x := s[n];
    DraftSnoc(s, k);
    FlattenAppend(Draft(front, k), SnakeSlot(n, k), x);
    assert s == front + [x];
  }

  lemma {:induction false} FlattenEmpty(gs: seq<seq<Player>>)
    requires forall j :: 0 <= j < |gs| ==> gs[j] == []
    ensures Flatten(gs) == []
    decreases |gs|
  {
    if gs != [] { FlattenEmpty(gs[1..]); }
  }

  /** A player is in group `g` exactly when some seat it holds is dealt to `g`. */
  lemma {:induction false} MembersIndex(s: seq<Player>, k: nat, g: nat, x: Player)
    requires k > 0
    ensures x in Members(s, k, g) <==> exists i :: 0 <= i < |s| && s[i] == x && SnakeSlot(i, k) == g
    decreases |s|
  {
    if s != [] {
      var n := |s| - 1;
      MembersIndex(s[..n], k, g, x);
      if x in Members(s[..n], k, g) {
        var i :| 0 <= i < n && s[..n][i] == x && SnakeSlot(i, k) == g;
        assert s[i] == x;
      }
      if exists i :: 0 <= i < |s| && s[i] == x && SnakeSlot(i, k) == g {
        var i :| 0 <= i < |s| && s[i] == x && SnakeSlot(i, k) == g;
        if i < n { assert s[..n][i] == x; }
      }
    }
  }

  /** With distinct ids, two different groups share no id. */
  lemma {:induction false} GroupsDisjoint(s: seq<Player>, k: nat, g1: nat, g2: nat, x: Player, y: Player)
    requires k > 0 && DistinctIds(s) && g1 != g2
    requires x in Members(s, k, g1) && y in Members(s, k, g2)
    ensures x.id != y.id
  {
    MembersIndex(s, k, g1, x);
    MembersIndex(s, k, g2, y);
  }

  // ---------------------------------------------------------------- Sizes

  /** How many of the first `n` seats are dealt to group `g`. */
  function Count(n: nat, k: nat, g: nat): nat
    requires k > 0
  {
    if n == 0 then 0 else Count(n - 1, k, g) + (if SnakeSlot(n - 1, k) == g then 1 else 0)
  }

  lemma {:induction false} MembersCount(s: seq<Player>, k: nat, g: nat)
    requires k > 0
    ensures |Members(s, k, g)| == Count(|s|, k, g)
    decreases |s|
  {
    if s != [] { MembersCount(s[..|s| - 1], k, g); }
  }

  /** Within pass `p` (starting at seat `b`), the first `j` seats include group `g`'s seat exactly when it lies below `b + j`. */
  lemma {:induction false} CountWithinPassFrom(p: nat, k: nat, g: nat, j: nat, b: nat)
    requires k > 0 && g < k && j <= k && b == p * k
    ensures var seat := if p % 2 == 0 then b + g else b + (k - 1 - g);
      Count(b + j, k, g) == Count(b, k, g) + (if seat < b + j then 1 else 0)
    decreases j
  {
    if j > 0 {
      CountWithinPassFrom(p, k, g, j - 1, b);
      CountPassStep(p, k, g, j, b);
    }
  }

  lemma {:induction false} CountPassStep(p: nat, k: nat, g: nat, j: nat, b: nat)
    requires k > 0 && g < k && 0 < j <= k && b == p * k
    requires var seat := if p % 2 == 0 then b + g else b + (k - 1 - g);
      Count(b + (j - 1), k, g) == Count(b, k, g) + (if seat < b + (j - 1) then 1 else 0)
    ensures var seat := if p % 2 == 0 then b + g else b + (k - 1 - g);
      Count(b + j, k, g) == Count(b, k, g) + (if seat < b + j then 1 else 0)
  {
    SnakeSeatOf(p, k, g, b);
    SnakeSeatOnly(p, k, g, b);
  }

  /** After `p` full passes every group holds exactly `p` seats. */
  lemma {:induction false} CountPasses(p: nat, k: nat, g: nat)
    requires k > 0 && g < k
    ensures Count(p * k, k, g) == p
    decreases p
  {
    if p > 0 {
      var q := p - 1;
      CountPasses(q, k, g);
      var b := q * k;
      CountWithinPassFrom(q, k, g, k, b);
      SnakeSeatOf(q, k, g, b);
      PassEnd(p, q, k);
    }
  }

  lemma {:induction false} PassEnd(p: nat, q: nat, k: nat)
    requires p == q + 1
    ensures q * k + k == p * k
  {
  }

  /** Fourteen players in four groups: sizes 3, 3, 4, 4. */
  lemma {:induction false} FourGroupSizes(s: seq<Player>)
    requires |s| == 14
    ensures |Members(s, 4, 0)| == 3 && |Members(s, 4, 1)| == 3
    ensures |Members(s, 4, 2)| == 4 && |Members(s, 4, 3)| == 4
  {
    forall g | 0 <= g < 4 ensures |Members(s, 4, g)| == Count(12, 4, g) + (if g == 3 then 1 else 0) + (if g == 2 then 1 else 0) {
      MembersCount(s, 4, g);
      CountPasses(3, 4, g);
      assert SnakeSlot(12, 4) == 3 && SnakeSlot(13, 4) == 2;
    }
    CountPasses(3, 4, 0);
    CountPasses(3, 4, 1);
    CountPasses(3, 4, 2);
    CountPasses(3, 4, 3);
  }

  /** Fourteen players in three groups: sizes 5, 5, 4. */
  lemma {:induction false} ThreeGroupSizes(s: seq<Player>)
    requires |s| == 14
    ensures |Members(s, 3, 0)| == 5 && |Members(s, 3, 1)| == 5 && |Members(s, 3, 2)| == 4
  {
    forall g | 0 <= g < 3 ensures |Members(s, 3, g)| == Count(12, 3, g) + (if g == 0 then 1 else 0) + (if g == 1 then 1 else 0) {
      MembersCount(s, 3, g);
      assert SnakeSlot(12, 3) == 0 && SnakeSlot(13, 3) == 1;
    }
    CountPasses(4, 3, 0);
    CountPasses(4, 3, 1);
    CountPasses(4, 3, 2);
  }
}
