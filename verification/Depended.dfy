/** What a place in the ranking says: a file that is depended on at least as much by every
    file, and more by one, comes first. */
module Depended {
  import opened Vectors
  import opened PageRank
  import opened References
  import opened Rank

  /** What the first `k` files hand to `j`: each its score, divided as its references weigh,
      or among everyone where it has none. */
  function Inflow(edges: Edges, outs: Vector, s: Vector, j: nat, k: nat): real
    requires |s| == |outs| && k <= |s|
  {
    if k == 0 then 0.0
    else
      Inflow(edges, outs, s, j, k - 1)
      + Mul(s[k - 1], if outs[k - 1] == 0.0 then 1.0 / |s| as real else At(edges, k - 1, j) / outs[k - 1])
  }

  lemma {:induction false} FlowIsInflow(edges: Edges, outs: Vector, s: Vector, j: nat, k: nat)
    requires |s| == |outs| && k <= |s| && j < |s|
    ensures Flow(s, Hands(edges, outs), k)[j] == Inflow(edges, outs, s, j, k)
  {
    hide Mul, Flow, Hands, At;
    if k == 0 {
      NoFlow(s, Hands(edges, outs), j);
    } else {
      FlowIsInflow(edges, outs, s, j, k - 1);
      FlowAt(s, Hands(edges, outs), k, j);
      HandedOn(edges, outs, k - 1, j);
    }
  }

  lemma HandedOn(edges: Edges, outs: Vector, i: nat, j: nat)
    requires i < |outs| && j < |outs|
    ensures Hands(edges, outs)[i][j] == if outs[i] == 0.0 then 1.0 / |outs| as real else At(edges, i, j) / outs[i]
  {
  }

  /** One iteration, file by file: fifteen parts in a hundred to everyone alike, and the rest
      along the references. */
  lemma OneIteration(edges: Edges, outs: Vector, s: Vector, j: nat)
    requires |s| == |outs| && j < |s|
    ensures Step(s, Hands(edges, outs))[j] == 0.15 / |s| as real + 0.85 * Inflow(edges, outs, s, j, |s|)
  {
    hide Flow, Hands, Inflow;
    FlowIsInflow(edges, outs, s, j, |s|);
  }

  predicate Positives(s: Vector) {
    forall i | 0 <= i < |s| :: s[i] > 0.0
  }

  /** Every file references `a` at least as much as `b`. */
  predicate AtLeast(edges: Edges, n: nat, a: nat, b: nat) {
    forall i | 0 <= i < n :: At(edges, i, a) >= At(edges, i, b)
  }

  lemma MoreOfTheSame(x: real, y: real, out: real, s: real)
    requires x >= y && out > 0.0 && s >= 0.0
    ensures Mul(s, x / out) >= Mul(s, y / out)
    ensures x > y && s > 0.0 ==> Mul(s, x / out) > Mul(s, y / out)
  {
    var p, q := x / out, y / out;
    assert p - q == (x - y) / out;
    RatioSign(x - y, out);
    MulLaws(s, p, q);
    MulSign(s, p - q);
    if x > y && s > 0.0 {
      QuotientSign(x - y, out);
      ProductSign(s, p - q);
    }
  }

  lemma {:induction false} MoreInflow(edges: Edges, outs: Vector, s: Vector, a: nat, b: nat, k: nat)
    requires |s| == |outs| && k <= |s| && Positives(s) && AtLeast(edges, |s|, a, b)
    requires forall i | 0 <= i < |s| :: outs[i] >= 0.0
    ensures Inflow(edges, outs, s, a, k) >= Inflow(edges, outs, s, b, k)
    ensures (exists i | 0 <= i < k :: outs[i] > 0.0 && At(edges, i, a) > At(edges, i, b)) ==>
              Inflow(edges, outs, s, a, k) > Inflow(edges, outs, s, b, k)
  {
    hide Mul, At;
    if k > 0 {
      MoreInflow(edges, outs, s, a, b, k - 1);
      if outs[k - 1] > 0.0 {
        MoreOfTheSame(At(edges, k - 1, a), At(edges, k - 1, b), outs[k - 1], s[k - 1]);
      }
    }
  }

  lemma {:induction false} InflowIsNotNegative(edges: Edges, outs: Vector, s: Vector, j: nat, k: nat)
    requires |s| == |outs| && k <= |s| && Positives(s) && Positive(edges)
    requires forall i | 0 <= i < |s| :: outs[i] >= 0.0
    ensures Inflow(edges, outs, s, j, k) >= 0.0
  {
    if k > 0 {
      InflowIsNotNegative(edges, outs, s, j, k - 1);
      var x := if outs[k - 1] == 0.0 then 1.0 / |s| as real else At(edges, k - 1, j) / outs[k - 1];
      assert x >= 0.0 by {
        if outs[k - 1] != 0.0 { RatioSign(At(edges, k - 1, j), outs[k - 1]); }
      }
      MulSign(s[k - 1], x);
    }
  }

  lemma OutsAreNotNegative(edges: Edges, outs: Vector, i: nat)
    requires Positive(edges) && Totals(edges, outs) && i < |outs|
    ensures outs[i] >= 0.0 && forall j | 0 <= j < |outs| :: At(edges, i, j) <= outs[i]
  {
    var row := Row(edges, |outs|, i);
    assert forall j | 0 <= j < |outs| :: row[j] == At(edges, i, j) >= 0.0;
    SumNonNegative(row);
  }

  lemma {:induction false} IteratesArePositive(edges: Edges, outs: Vector, k: nat)
    requires Positive(edges) && Totals(edges, outs) && outs != []
    ensures Positives(Iterate(Hands(edges, outs), |outs|, k))
  {
    hide Step, Hands, Inflow, Totals, Positive;
    var q, n := Hands(edges, outs), |outs|;
    if k > 0 {
      var s := Iterate(q, n, k - 1);
      IteratesArePositive(edges, outs, k - 1);
      forall i | 0 <= i < n ensures outs[i] >= 0.0 { OutsAreNotNegative(edges, outs, i); }
      forall j | 0 <= j < n ensures Step(s, q)[j] > 0.0 {
        OneIteration(edges, outs, s, j);
        InflowIsNotNegative(edges, outs, s, j, n);
      }
    }
  }

  /** Over every graph: depended on at least as much by everyone, a file never scores less,
      and depended on more by anyone, it scores more. */
  lemma DependedOnMoreScoresMore(edges: Edges, outs: Vector, k: nat, a: nat, b: nat)
    requires Positive(edges) && Totals(edges, outs) && k >= 1
    requires a < |outs| && b < |outs| && AtLeast(edges, |outs|, a, b)
    ensures var s := Iterate(Hands(edges, outs), |outs|, k);
      && s[a] >= s[b]
      && ((exists i | 0 <= i < |outs| :: At(edges, i, a) > At(edges, i, b)) ==> s[a] > s[b])
  {
    hide Step, Hands, Inflow, Totals, Positive, At;
    var q, n := Hands(edges, outs), |outs|;
    var s := Iterate(q, n, k - 1);
    IteratesArePositive(edges, outs, k - 1);
    forall i | 0 <= i < n ensures outs[i] >= 0.0 && At(edges, i, a) <= outs[i] && At(edges, i, b) >= 0.0 {
      OutsAreNotNegative(edges, outs, i);
      NoNegativeEdge(edges, i, b);
    }
    OneIteration(edges, outs, s, a);
    OneIteration(edges, outs, s, b);
    MoreInflow(edges, outs, s, a, b, n);
    if i :| 0 <= i < n && At(edges, i, a) > At(edges, i, b) {
      assert outs[i] > 0.0;
    }
  }

  lemma NoNegativeEdge(edges: Edges, from: nat, to: nat)
    requires Positive(edges)
    ensures At(edges, from, to) >= 0.0
  {
  }

  /** And so it comes first: wherever two files stand in what the ranking returns. */
  lemma DependedOnMoreComesFirst(ranked: seq<Ranked>, edges: Edges, outs: Vector, k: nat, at: nat, other: nat)
    requires Positive(edges) && Totals(edges, outs) && k >= 1
    requires Ordered(Heads(ranked)) && multiset(Heads(ranked)) == multiset(Listed(Iterate(Hands(edges, outs), |outs|, k)))
    requires at < |ranked| && other < |ranked|
    requires ranked[at].file < |outs| && ranked[other].file < |outs|
    requires AtLeast(edges, |outs|, ranked[at].file, ranked[other].file)
    requires exists i | 0 <= i < |outs| :: At(edges, i, ranked[at].file) > At(edges, i, ranked[other].file)
    ensures at < other
  {
    hide Totals, Positive, Hands, Iterate, At, AtLeast;
    var s := Iterate(Hands(edges, outs), |outs|, k);
    var a, b := ranked[at].file, ranked[other].file;
    DependedOnMoreScoresMore(edges, outs, k, a, b);
    ScoreOf(ranked, s, at);
    ScoreOf(ranked, s, other);
    HeavierComesFirst(Heads(ranked), at, other);
  }

  lemma HeavierComesFirst(entries: seq<Entry>, i: nat, j: nat)
    requires Ordered(entries) && i < |entries| && j < |entries| && entries[i].weight > entries[j].weight
    ensures i < j
  {
    var first, last := if i < j then i else j, if i < j then j else i;
    assert first < last ==> Before(entries[first], entries[last]);
  }

  lemma ScoreOf(ranked: seq<Ranked>, s: Vector, at: nat)
    requires multiset(Heads(ranked)) == multiset(Listed(s)) && at < |ranked|
    ensures ranked[at].file < |s| && ranked[at].score == s[ranked[at].file]
  {
    var head := Heads(ranked)[at];
    assert head in multiset(Heads(ranked));
    assert head in Listed(s);
  }
}
