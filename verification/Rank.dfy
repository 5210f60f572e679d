/** Files ranked by what depends on them: the power iteration as it is run, over arrays and
    hash maps, is the one whose mathematics is proved, and the order is total. */
module Rank {
  import opened Vectors
  import opened PageRank
  import opened Stationary
  import opened References

  const MAX_ITERATIONS: nat := 64
  const EPSILON := 0.000000001

  // --------------------------------------------------------------------- the graph as a matrix

  predicate Within(edges: Edges, n: nat) {
    forall e | e in edges :: e.0 < n && e.1 < n
  }

  function Row(edges: Edges, n: nat, from: nat): (r: Vector)
    ensures |r| == n && forall to | 0 <= to < n :: r[to] == At(edges, from, to)
  {
    seq(n, to requires 0 <= to < n => At(edges, from, to))
  }

  function Out(edges: Edges, n: nat, from: nat): real {
    Sum(Row(edges, n, from))
  }

  /** How much of what a file hands on takes one edge; none, where nothing leaves. */
  function Ratio(x: real, y: real): real {
    if y == 0.0 then 0.0 else x / y
  }

  function Ratios(edges: Edges, n: nat, from: nat, out: real): (r: Vector)
    ensures |r| == n && forall to | 0 <= to < n :: r[to] == Ratio(At(edges, from, to), out)
  {
    seq(n, to requires 0 <= to < n => Ratio(At(edges, from, to), out))
  }

  /** What the files with references hand on, before those without are spread. */
  function Along(edges: Edges, outs: Vector): (q: Matrix)
    ensures Square(q, |outs|)
    ensures forall i | 0 <= i < |outs| :: q[i] == Ratios(edges, |outs|, i, outs[i])
  {
    seq(|outs|, i requires 0 <= i < |outs| => Ratios(edges, |outs|, i, outs[i]))
  }

  /** A file that references nothing hands its share to everyone. */
  function Hands(edges: Edges, outs: Vector): (q: Matrix)
    ensures Square(q, |outs|)
    ensures forall i | 0 <= i < |outs| ::
      q[i] == if outs[i] == 0.0 then Uniform(|outs|) else Ratios(edges, |outs|, i, outs[i])
  {
    seq(|outs|, i requires 0 <= i < |outs| =>
      if outs[i] == 0.0 then Uniform(|outs|) else Ratios(edges, |outs|, i, outs[i]))
  }

  predicate Totals(edges: Edges, outs: Vector) {
    forall i | 0 <= i < |outs| :: outs[i] == Out(edges, |outs|, i)
  }

  lemma {:induction false} SumRatios(v: Vector, w: Vector, out: real)
    requires |v| == |w| && out != 0.0
    requires forall i | 0 <= i < |v| :: w[i] == Ratio(v[i], out)
    ensures Sum(w) == Sum(v) / out
  {
    if v != [] {
      var n := |v| - 1;
      SumRatios(v[..n], w[..n], out);
    }
  }

  /** Each file hands on its whole share and nothing negative, referenced or dangling. */
  lemma HandsAreShares(edges: Edges, outs: Vector)
    requires Positive(edges) && Totals(edges, outs) && |outs| > 0
    ensures Shares(Hands(edges, outs), |outs|)
  {
    hide Sum, Mul, Ratio, NonNegative;
    var n, q := |outs|, Hands(edges, outs);
    forall i | 0 <= i < n ensures NonNegative(q[i]) && Sum(q[i]) == 1.0 {
      if outs[i] == 0.0 {
        UniformWeighs(n);
      } else {
        RatiosWeigh(edges, n, i);
      }
    }
  }

  lemma RatiosWeigh(edges: Edges, n: nat, i: nat)
    requires Positive(edges) && Out(edges, n, i) != 0.0
    ensures NonNegative(Ratios(edges, n, i, Out(edges, n, i))) && Sum(Ratios(edges, n, i, Out(edges, n, i))) == 1.0
  {
    hide Sum, Ratio;
    var row, out := Row(edges, n, i), Out(edges, n, i);
    SumNonNegative(row);
    SumRatios(row, Ratios(edges, n, i, out), out);
    forall j | 0 <= j < n ensures Ratio(row[j], out) >= 0.0 {
      RatioSign(row[j], out);
    }
  }

  lemma RatioSign(x: real, y: real)
    requires x >= 0.0 && y >= 0.0
    ensures Ratio(x, y) >= 0.0
  {
  }

  // ------------------------------------------------------------------------ one edge at a time

  /** One more edge changes one entry of one row. */
  lemma {:induction false} OneMoreFlow(s: Vector, q: Matrix, r: Matrix, i: nat, j: nat, x: real, k: nat)
    requires Square(q, |s|) && Square(r, |s|) && i < |s| && j < |s| && k <= |s|
    requires q[i][j] == 0.0 && r == q[i := q[i][j := x]]
    ensures Flow(s, r, k) == if i < k then Flow(s, q, k)[j := Flow(s, q, k)[j] + Mul(s[i], x)] else Flow(s, q, k)
  {
    hide Mul, Sum, At, Flow;
    if k == 0 {
      NothingFlowsYet(s, q);
      NothingFlowsYet(s, r);
    } else {
      OneMoreFlow(s, q, r, i, j, x, k - 1);
      FlowStep(s, q, k);
      FlowStep(s, r, k);
      MulLaws(s[i], 0.0, 0.0);
      assert Times(s[i], r[i]) == Times(s[i], q[i])[j := Mul(s[i], x)];
    }
  }

  lemma NothingFlowsYet(s: Vector, q: Matrix)
    requires Square(q, |s|)
    ensures Flow(s, q, 0) == Flat(|s|, 0.0)
  {
  }

  lemma FlowStep(s: Vector, q: Matrix, k: nat)
    requires Square(q, |s|) && 0 < k <= |s|
    ensures Flow(s, q, k) == Plus(Flow(s, q, k - 1), Times(s[k - 1], q[k - 1]))
  {
  }

  function Dangling(s: Vector, outs: Vector, k: nat): real
    requires |s| == |outs| && k <= |s|
  {
    if k == 0 then 0.0 else Dangling(s, outs, k - 1) + if outs[k - 1] == 0.0 then s[k - 1] else 0.0
  }

  lemma FlowAt(s: Vector, q: Matrix, k: nat, j: nat)
    requires Square(q, |s|) && 0 < k <= |s| && j < |s|
    ensures Flow(s, q, k)[j] == Flow(s, q, k - 1)[j] + Mul(s[k - 1], q[k - 1][j])
  {
  }

  lemma HandsBesideAlong(edges: Edges, outs: Vector, i: nat, j: nat)
    requires i < |outs| && j < |outs|
    ensures var h, a := Hands(edges, outs)[i][j], Along(edges, outs)[i][j];
            if outs[i] == 0.0 then h == 1.0 / |outs| as real && a == 0.0 else h == a
  {
  }

  /** Spreading the dangling share once over everyone is handing it on file by file. */
  lemma {:induction false} DanglingIsSpread(edges: Edges, outs: Vector, s: Vector, k: nat, j: nat)
    requires |s| == |outs| && k <= |s| && j < |s|
    ensures Flow(s, Hands(edges, outs), k)[j]
         == Flow(s, Along(edges, outs), k)[j] + Mul(Dangling(s, outs, k), 1.0 / |s| as real)
  {
    hide Mul, Hands, Along, Flow;
    var u := 1.0 / |s| as real;
    MulLaws(u, 0.0, 0.0);
    if k > 0 {
      DanglingIsSpread(edges, outs, s, k - 1, j);
      HandsBesideAlong(edges, outs, k - 1, j);
      FlowAt(s, Hands(edges, outs), k, j);
      FlowAt(s, Along(edges, outs), k, j);
      MulLaws(u, Dangling(s, outs, k - 1), s[k - 1]);
      MulLaws(s[k - 1], 0.0, 0.0);
      Commutes(s[k - 1], u);
    } else {
      NoFlow(s, Hands(edges, outs), j);
      NoFlow(s, Along(edges, outs), j);
    }
  }

  lemma NoFlow(s: Vector, q: Matrix, j: nat)
    requires Square(q, |s|) && j < |s|
    ensures Flow(s, q, 0)[j] == 0.0
  {
  }

  lemma Commutes(x: real, y: real)
    ensures Mul(x, y) == Mul(y, x)
  {
  }

  // ------------------------------------------------------------------------------ as it is run

  lemma RowOfOneMore(done: Edges, e: (nat, nat), w: real, n: nat, i: nat)
    requires e.1 < n
    ensures Row(done[e := w], n, i) == if i == e.0 then Row(done, n, i)[e.1 := w] else Row(done, n, i)
  {
  }

  lemma NoRow(n: nat, i: nat)
    ensures Row(map[], n, i) == Flat(n, 0.0) && Out(map[], n, i) == 0.0
  {
    SumFlat(n, 0.0);
  }

  /** What leaves each file, added up in whatever order the edges come. */
  method Leaving(edges: Edges, n: nat) returns (outgoing: array<real>)
    requires Within(edges, n)
    ensures outgoing.Length == n && Totals(edges, outgoing[..])
    ensures fresh(outgoing)
  {
    hide Sum;
    outgoing := new real[n](i => 0.0);
    var left := edges.Keys;
    ghost var done: Edges := map[];
    forall i: nat ensures Out(done, n, i) == 0.0 { NoRow(n, i); }
    while left != {}
      invariant left !! done.Keys && left + done.Keys == edges.Keys
      invariant forall e | e in done :: done[e] == edges[e]
      invariant forall i | 0 <= i < n :: outgoing[i] == Out(done, n, i)
    {
      var e :| e in left;
      forall i | 0 <= i < n
        ensures Out(done[e := edges[e]], n, i) == Out(done, n, i) + if i == e.0 then edges[e] else 0.0
      {
        RowOfOneMore(done, e, edges[e], n, i);
        SumUpdate(Row(done, n, i), e.1, edges[e]);
      }
      outgoing[e.0] := outgoing[e.0] + edges[e];
      done, left := done[e := edges[e]], left - {e};
    }
    assert done == edges;
  }

  method DanglingShare(score: array<real>, outgoing: array<real>) returns (dangling: real)
    requires score.Length == outgoing.Length
    ensures dangling == Dangling(score[..], outgoing[..], score.Length)
  {
    dangling := 0.0;
    for file := 0 to score.Length
      invariant dangling == Dangling(score[..], outgoing[..], file)
    {
      if outgoing[file] == 0.0 {
        dangling := dangling + score[file];
      }
    }
  }

  lemma AlongOneMore(done: Edges, e: (nat, nat), w: real, outs: Vector)
    requires e !in done && e.0 < |outs| && e.1 < |outs|
    ensures var q := Along(done, outs);
            q[e.0][e.1] == 0.0 && Along(done[e := w], outs) == q[e.0 := q[e.0][e.1 := Ratio(w, outs[e.0])]]
  {
    var q, r := Along(done, outs), Along(done[e := w], outs);
    forall i | 0 <= i < |outs| ensures r[i] == q[e.0 := q[e.0][e.1 := Ratio(w, outs[e.0])]][i] {}
  }

  lemma {:induction false} NothingAlong(s: Vector, outs: Vector, k: nat)
    requires |s| == |outs| && k <= |s|
    ensures Flow(s, Along(map[], outs), k) == Flat(|s|, 0.0)
  {
    hide Mul;
    if k > 0 {
      NothingAlong(s, outs, k - 1);
      MulLaws(s[k - 1], 0.0, 0.0);
    }
  }

  /** What every file starts an iteration with: the teleport, and its part of the dangling. */
  function Base(uniform: real, dangling: real): real {
    (1.0 - DAMPING) * uniform + DAMPING * dangling * uniform
  }

  /** What one edge passes on. */
  function Passed(score: real, weight: real, outgoing: real): real
    requires outgoing != 0.0
  {
    DAMPING * score * weight / outgoing
  }

  /** One iteration, edge by edge in any order, is one step of the mathematics. */
  method Spread(edges: Edges, outgoing: array<real>, score: array<real>) returns (next: array<real>)
    requires Positive(edges) && Within(edges, outgoing.Length) && Totals(edges, outgoing[..])
    requires score.Length == outgoing.Length > 0
    ensures fresh(next) && next[..] == Step(score[..], Hands(edges, outgoing[..]))
  {
    hide Sum, Mul, Flow, Along, Ratio, Base, Passed, Hands, Row, Positive;
    var n := score.Length;
    ghost var s, outs := score[..], outgoing[..];
    var dangling := DanglingShare(score, outgoing);
    var uniform := 1.0 / n as real;
    var base := Base(uniform, dangling);
    next := new real[n](i => base);
    var left := edges.Keys;
    ghost var done: Edges := map[];
    NothingAlong(s, outs, n);
    while left != {}
      invariant fresh(next) && next.Length == n
      invariant score[..] == s && outgoing[..] == outs
      invariant left !! done.Keys && left + done.Keys == edges.Keys
      invariant forall e | e in done :: done[e] == edges[e]
      invariant forall j | 0 <= j < n :: next[j] == base + DAMPING * Flow(s, Along(done, outs), n)[j]
    {
      var e :| e in left;
      OutIsPositive(edges, n, e);
      AlongOneMore(done, e, edges[e], outs);
      OneMoreFlow(s, Along(done, outs), Along(done[e := edges[e]], outs), e.0, e.1, Ratio(edges[e], outs[e.0]), n);
      OneEdge(score[e.0], edges[e], outgoing[e.0]);
      next[e.1] := next[e.1] + Passed(score[e.0], edges[e], outgoing[e.0]);
      done, left := done[e := edges[e]], left - {e};
    }
    assert done == edges;
    forall j | 0 <= j < n ensures next[j] == Step(s, Hands(edges, outs))[j] {
      DanglingIsSpread(edges, outs, s, n, j);
      OneCoordinate(n, dangling, Flow(s, Along(edges, outs), n)[j], Flow(s, Hands(edges, outs), n)[j]);
    }
  }

  lemma OutIsPositive(edges: Edges, n: nat, e: (nat, nat))
    requires Positive(edges) && e in edges && e.1 < n
    ensures Out(edges, n, e.0) > 0.0
  {
    var row := Row(edges, n, e.0);
    SumNonNegative(row);
    assert row[e.1] == edges[e];
  }

  lemma OneEdge(s: real, w: real, out: real)
    requires out > 0.0
    ensures Passed(s, w, out) == DAMPING * Mul(s, Ratio(w, out))
  {
  }

  lemma OneCoordinate(n: nat, dangling: real, along: real, all: real)
    requires n > 0 && all == along + Mul(dangling, 1.0 / n as real)
    ensures Base(1.0 / n as real, dangling) + DAMPING * along
         == (1.0 - DAMPING) / n as real + Mul(DAMPING, all)
  {
  }

  method Moved(next: array<real>, score: array<real>) returns (moved: real)
    requires next.Length == score.Length
    ensures moved == Distance(next[..], score[..])
  {
    moved := 0.0;
    for file := 0 to score.Length
      invariant moved == Distance(next[..file], score[..file])
    {
      assert next[..file + 1][..file] == next[..file] && score[..file + 1][..file] == score[..file];
      moved := moved + Abs(next[file] - score[file]);
    }
    assert next[..score.Length] == next[..] && score[..score.Length] == score[..];
  }

  /** Where the iteration stops: at the first step that moved less than `EPSILON`, or at
      the hard stop. */
  predicate StopsAt(q: Matrix, n: nat, k: nat)
    requires Square(q, n)
  {
    && 1 <= k <= MAX_ITERATIONS
    && (k < MAX_ITERATIONS ==> Distance(Iterate(q, n, k), Iterate(q, n, k - 1)) < EPSILON)
    && forall i | 1 <= i < k :: Distance(Iterate(q, n, i), Iterate(q, n, i - 1)) >= EPSILON
  }

  method Scores(edges: Edges, n: nat) returns (score: array<real>, ghost outs: Vector, ghost k: nat)
    requires n > 0 && Positive(edges) && Within(edges, n)
    ensures |outs| == n && Totals(edges, outs) && StopsAt(Hands(edges, outs), n, k)
    ensures score[..] == Iterate(Hands(edges, outs), n, k)
  {
    hide Step, Distance, Sum, Out, Hands, Uniform;
    var outgoing := Leaving(edges, n);
    outs := outgoing[..];
    ghost var q := Hands(edges, outs);
    var uniform := 1.0 / n as real;
    score := new real[n](i => uniform);
    IterateFirst(q, n, score[..]);
    k := 0;
    var moving := true;
    for i := 0 to MAX_ITERATIONS
      invariant outgoing[..] == outs && score.Length == n
      invariant k <= i && (moving ==> k == i) && (!moving ==> k >= 1)
      invariant score[..] == Iterate(q, n, k)
      invariant forall i | 1 <= i <= k && (moving || i < k) :: Distance(Iterate(q, n, i), Iterate(q, n, i - 1)) >= EPSILON
      invariant !moving ==> Distance(Iterate(q, n, k), Iterate(q, n, k - 1)) < EPSILON
    {
      if moving {
        var next := Spread(edges, outgoing, score);
        var moved := Moved(next, score);
        score := next;
        k := k + 1;
        moving := moved >= EPSILON;
      }
    }
  }

  lemma IterateFirst(q: Matrix, n: nat, s: Vector)
    requires Square(q, n) && n > 0 && |s| == n && forall i | 0 <= i < n :: s[i] == 1.0 / n as real
    ensures s == Iterate(q, n, 0)
  {
  }

  /** Over every graph of references: each iterate is a distribution, dangling files
      included, and each iteration moves at most the damping times what the last one did. */
  lemma EveryIterateIsADistribution(edges: Edges, outs: Vector, k: nat)
    requires Positive(edges) && Totals(edges, outs) && outs != []
    ensures var q, n := Hands(edges, outs), |outs|;
      && Distribution(Iterate(q, n, k), n)
      && Distance(Iterate(q, n, k + 1), Iterate(q, n, k)) <= 2.0 * Power(DAMPING, k)
      && Distance(Iterate(q, n, k + 2), Iterate(q, n, k + 1)) <= DAMPING * Distance(Iterate(q, n, k + 1), Iterate(q, n, k))
  {
    hide *;
    HandsAreShares(edges, outs);
    IteratesAreDistributions(Hands(edges, outs), |outs|, k);
    MovesLessAndLess(Hands(edges, outs), |outs|, k);
  }

  /** And the ranking has one score it is on its way to, which it is near where it stops. */
  lemma EveryRankingSettles(edges: Edges, outs: Vector, k: nat) returns (still: Vector)
    requires Positive(edges) && Totals(edges, outs) && outs != []
    requires StopsAt(Hands(edges, outs), |outs|, k)
    ensures var q, n := Hands(edges, outs), |outs|;
      && Settles(q, n, still)
      && (k < MAX_ITERATIONS ==> (1.0 - DAMPING) * Distance(Iterate(q, n, k), still) <= DAMPING * EPSILON)
  {
    hide Settles, Distance, Iterate, Positive, Totals, Hands;
    HandsAreShares(edges, outs);
    still := TheIterationSettles(Hands(edges, outs), |outs|);
    if k < MAX_ITERATIONS {
      StoppedNear(Hands(edges, outs), |outs|, still, k - 1, EPSILON);
    }
  }

  // ----------------------------------------------------------------------------------- the order

  datatype Entry = Entry(file: nat, weight: real)

  /** The order of a ranking: by weight, then by index. */
  predicate Before(a: Entry, b: Entry) {
    a.weight > b.weight || (a.weight == b.weight && a.file <= b.file)
  }

  predicate Ordered(entries: seq<Entry>) {
    forall i, j | 0 <= i < j < |entries| :: Before(entries[i], entries[j])
  }

  lemma InsertKeepsOrder(entries: seq<Entry>, at: nat, e: Entry)
    requires Ordered(entries) && at <= |entries|
    requires forall i | 0 <= i < at :: Before(entries[i], e)
    requires at < |entries| ==> !Before(entries[at], e)
    ensures Ordered(entries[..at] + [e] + entries[at..])
  {
    forall i | at <= i < |entries| ensures Before(e, entries[i]) {
      assert Before(entries[at], entries[i]) || i == at;
    }
  }

  method Sort(entries: seq<Entry>) returns (sorted: seq<Entry>)
    ensures Ordered(sorted) && multiset(sorted) == multiset(entries) && |sorted| == |entries|
  {
    sorted := [];
    for k := 0 to |entries|
      invariant Ordered(sorted) && multiset(sorted) == multiset(entries[..k]) && |sorted| == k
    {
      var e := entries[k];
      var at := 0;
      while at < |sorted| && Before(sorted[at], e)
        invariant at <= |sorted| && forall i | 0 <= i < at :: Before(sorted[i], e)
      {
        at := at + 1;
      }
      InsertKeepsOrder(sorted, at, e);
      assert sorted == sorted[..at] + sorted[at..];
      assert entries[..k + 1] == entries[..k] + [e];
      sorted := sorted[..at] + [e] + sorted[at..];
    }
    assert entries[..|entries|] == entries;
  }

  lemma SameLast(a: seq<Entry>, b: seq<Entry>)
    requires Ordered(a) && Ordered(b) && multiset(a) == multiset(b) && a != [] && b != []
    ensures a[|a| - 1] == b[|b| - 1]
  {
    hide Before;
    var x, y := a[|a| - 1], b[|b| - 1];
    assert x in multiset(b) && y in multiset(a);
    var i :| 0 <= i < |b| && b[i] == x;
    var j :| 0 <= j < |a| && a[j] == y;
    assert x == y || (Before(x, y) && Before(y, x));
    Antisymmetric(x, y);
  }

  lemma Antisymmetric(x: Entry, y: Entry)
    ensures Before(x, y) && Before(y, x) ==> x == y
  {
  }

  lemma SameFront(a: seq<Entry>, b: seq<Entry>)
    requires multiset(a) == multiset(b) && a != [] && b != [] && a[|a| - 1] == b[|b| - 1]
    ensures multiset(a[..|a| - 1]) == multiset(b[..|b| - 1])
  {
    var x := a[|a| - 1];
    assert a == a[..|a| - 1] + [x] && b == b[..|b| - 1] + [x];
    assert multiset(a[..|a| - 1]) + multiset{x} == multiset(b[..|b| - 1]) + multiset{x};
    assert multiset(a[..|a| - 1]) == multiset(a[..|a| - 1]) + multiset{x} - multiset{x};
  }

  /** The order is total, so what is sorted is determined by what is in it. */
  lemma {:induction false} OnlyOneOrder(a: seq<Entry>, b: seq<Entry>)
    requires Ordered(a) && Ordered(b) && multiset(a) == multiset(b)
    ensures a == b
  {
    hide Before;
    assert |multiset(a)| == |a| && |multiset(b)| == |b|;
    if a != [] {
      SameLast(a, b);
      SameFront(a, b);
      OnlyOneOrder(a[..|a| - 1], b[..|b| - 1]);
      assert a == a[..|a| - 1] + [a[|a| - 1]] && b == b[..|b| - 1] + [b[|b| - 1]];
    }
  }

  datatype Ranked = Ranked(file: nat, score: real, referrers: seq<Entry>)

  /** Every file that references `to`, once, with the weight of its edge. */
  ghost predicate Referrers(edges: Edges, to: nat, list: seq<Entry>) {
    forall e: Entry :: multiset(list)[e] == if (e.file, to) in edges && edges[(e.file, to)] == e.weight then 1 else 0
  }

  method CollectReferrers(edges: Edges, n: nat) returns (referrers: array<seq<Entry>>)
    requires Within(edges, n)
    ensures fresh(referrers) && referrers.Length == n
    ensures forall to | 0 <= to < n :: Referrers(edges, to, referrers[to])
  {
    referrers := new seq<Entry>[n](i => []);
    var left := edges.Keys;
    ghost var done: Edges := map[];
    while left != {}
      invariant left !! done.Keys && left + done.Keys == edges.Keys
      invariant forall e | e in done :: done[e] == edges[e]
      invariant forall to | 0 <= to < n :: Referrers(done, to, referrers[to])
    {
      var e :| e in left;
      ghost var before, now := done, done[e := edges[e]];
      forall to | 0 <= to < n && to != e.1 ensures Referrers(now, to, referrers[to]) {
        assert Referrers(before, to, referrers[to]);
      }
      ReferrersOneMore(before, e, edges[e], referrers[e.1]);
      referrers[e.1] := referrers[e.1] + [Entry(e.0, edges[e])];
      done, left := now, left - {e};
    }
    assert done == edges;
  }

  /** Each list put in order, in place. */
  method SortReferrers(referrers: array<seq<Entry>>, ghost edges: Edges)
    requires forall to | 0 <= to < referrers.Length :: Referrers(edges, to, referrers[to])
    modifies referrers
    ensures forall to | 0 <= to < referrers.Length :: Ordered(referrers[to]) && Referrers(edges, to, referrers[to])
  {
    hide Ordered;
    for to := 0 to referrers.Length
      invariant forall f | 0 <= f < referrers.Length :: Referrers(edges, f, referrers[f])
      invariant forall f | 0 <= f < to :: Ordered(referrers[f])
    {
      var sorted := Sort(referrers[to]);
      assert Referrers(edges, to, sorted);
      referrers[to] := sorted;
    }
  }

  lemma ReferrersOneMore(done: Edges, e: (nat, nat), w: real, list: seq<Entry>)
    requires Referrers(done, e.1, list) && e !in done
    ensures Referrers(done[e := w], e.1, list + [Entry(e.0, w)])
  {
  }

  /** The files beside their scores, in the order they were handed over. */
  function Listed(score: Vector): (entries: seq<Entry>)
    ensures |entries| == |score| && forall i | 0 <= i < |score| :: entries[i] == Entry(i, score[i])
  {
    seq(|score|, i requires 0 <= i < |score| => Entry(i, score[i]))
  }

  function Head(r: Ranked): Entry {
    Entry(r.file, r.score)
  }

  function Heads(ranked: seq<Ranked>): (entries: seq<Entry>)
    ensures |entries| == |ranked| && forall i | 0 <= i < |ranked| :: entries[i] == Head(ranked[i])
  {
    seq(|ranked|, i requires 0 <= i < |ranked| => Head(ranked[i]))
  }

  lemma GraphIsWithin(files: seq<FileTags>, root: Root, edges: Edges)
    requires Positive(edges) && forall from, to :: At(edges, from, to) == EdgeWeight(files, root, from, to)
    ensures Within(edges, |files|)
  {
    forall e | e in edges ensures e.0 < |files| && e.1 < |files| {
      assert At(edges, e.0, e.1) > 0.0;
      EdgesAreEvidence(files, root, e.0, e.1);
    }
  }

  lemma NoFiles(edges: Edges)
    ensures Totals(edges, []) && Ordered(Heads([]))
  {
  }

  method Arrange(score: array<real>, referrers: array<seq<Entry>>, edges: Edges) returns (ranked: seq<Ranked>)
    requires referrers.Length == score.Length
    requires forall to | 0 <= to < score.Length :: Ordered(referrers[to]) && Referrers(edges, to, referrers[to])
    ensures Ordered(Heads(ranked)) && multiset(Heads(ranked)) == multiset(Listed(score[..]))
    ensures forall i | 0 <= i < |ranked| :: Ordered(ranked[i].referrers) && Referrers(edges, ranked[i].file, ranked[i].referrers)
  {
    hide Referrers, Ordered;
    var n := score.Length;
    var entries := [];
    for file := 0 to n
      invariant entries == Listed(score[..])[..file]
    {
      entries := entries + [Entry(file, score[file])];
    }
    assert Listed(score[..])[..n] == Listed(score[..]);
    var order := Sort(entries);
    ranked := [];
    for i := 0 to n
      invariant |order| == n && Heads(ranked) == order[..i]
      invariant forall j | 0 <= j < i :: Ordered(ranked[j].referrers) && Referrers(edges, ranked[j].file, ranked[j].referrers)
    {
      var e := order[i];
      assert e in multiset(order) && e in entries;
      ranked := ranked + [Ranked(e.file, e.weight, referrers[e.file])];
    }
    assert order[..n] == order;
  }

  /** Every file, once, most depended-on first: its place is its score, then its index; its
      score is the iterate at which the iteration stopped, and its referrers are its edges. */
  method RankFiles(files: seq<FileTags>, root: Root)
    returns (ranked: seq<Ranked>, ghost edges: Edges, ghost outs: Vector, ghost k: nat)
    ensures Positive(edges) && forall from, to :: At(edges, from, to) == EdgeWeight(files, root, from, to)
    ensures |outs| == |files| && Totals(edges, outs)
    ensures files != [] ==> StopsAt(Hands(edges, outs), |files|, k)
    ensures files != [] ==> var q, n := Hands(edges, outs), |files|;
      && 1 <= k <= 64 && (k < 64 ==> Distance(Iterate(q, n, k), Iterate(q, n, k - 1)) < 0.000000001)
      && forall i | 1 <= i < k :: Distance(Iterate(q, n, i), Iterate(q, n, i - 1)) >= 0.000000001
    ensures Ordered(Heads(ranked))
    ensures forall i, j | 0 <= i < j < |ranked| ::
      ranked[i].score > ranked[j].score || (ranked[i].score == ranked[j].score && ranked[i].file <= ranked[j].file)
    ensures multiset(Heads(ranked)) == multiset(Listed(Iterate(Hands(edges, outs), |files|, k)))
    ensures forall i | 0 <= i < |ranked| :: Ordered(ranked[i].referrers) && Referrers(edges, ranked[i].file, ranked[i].referrers)
  {
    hide Iterate, Totals, Hands, EdgeWeight, Referrers, Ordered, StopsAt, At, Positive, Within, Distance;
    var n := |files|;
    var graph := Graph(files, root);
    edges := graph;
    if n == 0 {
      outs, k := [], 0;
      NoFiles(graph);
      return [], edges, outs, k;
    }
    GraphIsWithin(files, root, graph);
    var score;
    score, outs, k := Scores(graph, n);
    var referrers := CollectReferrers(graph, n);
    SortReferrers(referrers, graph);
    ranked := Arrange(score, referrers, graph);
    StopsInTime(Hands(edges, outs), n, k);
    OrderSaysSo(ranked);
  }

  lemma StopsInTime(q: Matrix, n: nat, k: nat)
    requires Square(q, n) && StopsAt(q, n, k)
    ensures 1 <= k <= 64 && (k < 64 ==> Distance(Iterate(q, n, k), Iterate(q, n, k - 1)) < 0.000000001)
    ensures forall i | 1 <= i < k :: Distance(Iterate(q, n, i), Iterate(q, n, i - 1)) >= 0.000000001
  {
    hide Distance, Iterate;
  }

  lemma OrderSaysSo(ranked: seq<Ranked>)
    requires Ordered(Heads(ranked))
    ensures forall i, j | 0 <= i < j < |ranked| ::
      ranked[i].score > ranked[j].score || (ranked[i].score == ranked[j].score && ranked[i].file <= ranked[j].file)
  {
    forall i, j | 0 <= i < j < |ranked|
      ensures ranked[i].score > ranked[j].score || (ranked[i].score == ranked[j].score && ranked[i].file <= ranked[j].file)
    {
      assert Before(Heads(ranked)[i], Heads(ranked)[j]);
    }
  }
}
