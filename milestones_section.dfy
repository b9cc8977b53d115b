/** The homepage's milestones section
    (frontend/src/pages/homepage/components/MilestonesSection.jsx): the
    desktop timeline lays the milestones out two per row, the mobile one
    badges each with the last two characters of its year. */
module MilestonesSection {
  import opened Wrappers
  import Text

  datatype Milestone = Milestone(year: string, title: string, description: string)

  /** A desktop row: a left milestone and, unless the list ran out, a right
      one. */
  datatype Pair = Pair(left: Milestone, right: Option<Milestone>)

  /** Row `k`: milestones `2k` and `2k + 1`, the second absent past the end. */
  function PairAt(ms: seq<Milestone>, k: nat): (p: Pair)
    requires 2 * k < |ms|
    ensures p.left == ms[2 * k]
    ensures p.right.None? <==> 2 * k + 1 == |ms|
    ensures p.right.Some? ==> p.right.value == ms[2 * k + 1]
  {
    Pair(ms[2 * k], if 2 * k + 1 < |ms| then Some(ms[2 * k + 1]) else None)
  }

  /** The rows of a list, two milestones at a time. */
  function Pairs(ms: seq<Milestone>): (r: seq<Pair>)
    ensures |r| == (|ms| + 1) / 2
  {
    if |ms| == 0 then []
    else if |ms| == 1 then [Pair(ms[0], None)]
    else [Pair(ms[0], Some(ms[1]))] + Pairs(ms[2..])
  }

  /** Row `k` of `Pairs` is `PairAt(ms, k)`. */
  lemma {:induction false} PairsIndex(ms: seq<Milestone>, k: nat)
    requires k < |Pairs(ms)|
    ensures Pairs(ms)[k] == PairAt(ms, k)
    decreases |ms|
  {
    if k > 0 {
      PairsIndex(ms[2..], k - 1);
    }
  }

  /** `createMilestonePairs`: walks the list two at a time, pairing each
      milestone with the next one, or with null at the end. */
  method CreateMilestonePairs(milestones: seq<Milestone>) returns (pairs: seq<Pair>)
    ensures pairs == Pairs(milestones)
  {
    pairs := [];
    var i := 0;
    while i < |milestones|
      invariant i == 2 * |pairs| && i <= |milestones| + 1
      invariant forall k :: 0 <= k < |pairs| ==> pairs[k] == PairAt(milestones, k)
      decreases |milestones| - i
    {
      pairs := pairs + [Pair(milestones[i], if i + 1 < |milestones| then Some(milestones[i + 1]) else None)];
      i := i + 2;
    }
    forall k | 0 <= k < |pairs|
      ensures pairs[k] == Pairs(milestones)[k]
    {
      PairsIndex(milestones, k);
    }
  }

  /** The milestones of the rows, reading each left and then each present
      right. */
  function Unpair(pairs: seq<Pair>): seq<Milestone> {
    if pairs == [] then []
    else
      [pairs[0].left] + (if pairs[0].right.Some? then [pairs[0].right.value] else []) + Unpair(pairs[1..])
  }

  /** Reading the rows back gives the list in its order. */
  lemma {:induction false} UnpairPairs(ms: seq<Milestone>)
    ensures Unpair(Pairs(ms)) == ms
    decreases |ms|
  {
    if |ms| >= 2 {
      var rest := Pairs(ms[2..]);
      var p := Pair(ms[0], Some(ms[1]));
      assert Pairs(ms) == [p] + rest;
      assert ([p] + rest)[1..] == rest;
      UnpairPairs(ms[2..]);
      assert Unpair(Pairs(ms)) == [ms[0]] + [ms[1]] + Unpair(rest);
      assert ms == [ms[0]] + [ms[1]] + ms[2..];
    }
  }

  /** Only the last row can lack a right milestone, and it does exactly when
      the list's length is odd. */
  lemma OnlyLastLacksRight(ms: seq<Milestone>, k: nat)
    requires k < |Pairs(ms)|
    ensures Pairs(ms)[k].right.None? <==> k == |Pairs(ms)| - 1 && |ms| % 2 == 1
  {
    PairsIndex(ms, k);
  }

  /** The mobile badge: `year.slice(-2)`, the last two characters of the
      year. */
  function Badge(m: Milestone): (r: string)
    ensures |m.year| >= 2 ==> |r| == 2 && r == m.year[|m.year| - 2..]
    ensures |m.year| < 2 ==> r == m.year
  {
    Text.LastTwo(m.year)
  }
}
