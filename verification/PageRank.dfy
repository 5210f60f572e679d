/** The power iteration as a contraction: what a score is worth spread along the references,
    and where the iteration goes. */
module PageRank {
  import opened Vectors

  type Matrix = seq<Vector>

  const DAMPING := 0.85

  predicate Square(q: Matrix, n: nat) {
    |q| == n && forall i | 0 <= i < n :: |q[i]| == n
  }

  /** Every file hands on its whole share, and nothing negative. */
  predicate Shares(q: Matrix, n: nat) {
    Square(q, n) && forall i | 0 <= i < n :: NonNegative(q[i]) && Sum(q[i]) == 1.0
  }

  predicate Distribution(s: Vector, n: nat) {
    |s| == n && NonNegative(s) && Sum(s) == 1.0
  }

  /** What the first `k` files hand on. */
  function Flow(s: Vector, q: Matrix, k: nat): (r: Vector)
    requires Square(q, |s|) && k <= |s|
    ensures |r| == |s|
  {
    if k == 0 then Flat(|s|, 0.0) else Plus(Flow(s, q, k - 1), Times(s[k - 1], q[k - 1]))
  }

  function Teleport(n: nat): (r: Vector)
    ensures |r| == n
  {
    if n == 0 then [] else Flat(n, (1.0 - DAMPING) / n as real)
  }

  /** One iteration: a share of every score teleports, the rest flows along the edges. */
  function Step(s: Vector, q: Matrix): (r: Vector)
    requires Square(q, |s|)
    ensures |r| == |s|
  {
    Plus(Teleport(|s|), Times(DAMPING, Flow(s, q, |s|)))
  }

  function Uniform(n: nat): (r: Vector)
    ensures |r| == n
  {
    if n == 0 then [] else Flat(n, 1.0 / n as real)
  }

  function Iterate(q: Matrix, n: nat, k: nat): (r: Vector)
    requires Square(q, n)
    ensures |r| == n
  {
    if k == 0 then Uniform(n) else Step(Iterate(q, n, k - 1), q)
  }

  function Power(x: real, k: nat): real {
    if k == 0 then 1.0 else x * Power(x, k - 1)
  }

  // ---------------------------------------------------------------------------- mass is conserved

  lemma {:induction false} FlowConserves(s: Vector, q: Matrix, k: nat)
    requires Shares(q, |s|) && NonNegative(s) && k <= |s|
    ensures NonNegative(Flow(s, q, k)) && Sum(Flow(s, q, k)) == Sum(s[..k])
  {
    hide Mul, Sum, Distance;
    if k == 0 {
      NothingFlows(s);
    } else {
      FlowConserves(s, q, k - 1);
      MulLaws(s[k - 1], 0.0, 0.0);
      MulAllSign(s[k - 1], q[k - 1]);
      SumPlus(Flow(s, q, k - 1), Times(s[k - 1], q[k - 1]));
      SumTimes(s[k - 1], q[k - 1]);
      TakeOneMore(s, k);
    }
  }

  lemma NothingFlows(s: Vector)
    ensures Sum(Flat(|s|, 0.0)) == Sum(s[..0]) && Distance(Flat(|s|, 0.0), Flat(|s|, 0.0)) == 0.0
  {
    MulLaws(|s| as real, 0.0, 0.0);
    SumFlat(|s|, 0.0);
    NoDistance(Flat(|s|, 0.0), Flat(|s|, 0.0));
  }

  lemma MulAllSign(c: real, v: Vector)
    requires c >= 0.0 && NonNegative(v)
    ensures NonNegative(Times(c, v))
  {
    hide Mul;
    forall i | 0 <= i < |v| ensures Mul(c, v[i]) >= 0.0 {
      MulSign(c, v[i]);
    }
  }

  lemma TeleportWeighs(n: nat)
    requires n > 0
    ensures Sum(Teleport(n)) == 1.0 - DAMPING && NonNegative(Teleport(n))
  {
    SumFlat(n, (1.0 - DAMPING) / n as real);
    assert Mul(n as real, (1.0 - DAMPING) / n as real) == 1.0 - DAMPING;
  }

  /** A step takes a distribution to a distribution. */
  lemma StepConserves(s: Vector, q: Matrix)
    requires Shares(q, |s|) && Distribution(s, |s|) && |s| > 0
    ensures Distribution(Step(s, q), |s|)
  {
    hide Mul, Sum, Flow;
    assert s[..|s|] == s;
    FlowConserves(s, q, |s|);
    MulAllSign(DAMPING, Flow(s, q, |s|));
    MulLaws(DAMPING, 0.0, 0.0);
    TeleportWeighs(|s|);
    SumTimes(DAMPING, Flow(s, q, |s|));
    SumPlus(Teleport(|s|), Times(DAMPING, Flow(s, q, |s|)));
  }

  lemma UniformWeighs(n: nat)
    requires n > 0
    ensures NonNegative(Uniform(n)) && Sum(Uniform(n)) == 1.0
  {
    hide Sum;
    SumFlat(n, 1.0 / n as real);
    assert Mul(n as real, 1.0 / n as real) == 1.0;
  }

  lemma {:induction false} IteratesAreDistributions(q: Matrix, n: nat, k: nat)
    requires Shares(q, n) && n > 0
    ensures Distribution(Iterate(q, n, k), n)
  {
    hide Sum, Mul, NonNegative, Step, Uniform;
    if k == 0 {
      UniformWeighs(n);
    } else {
      IteratesAreDistributions(q, n, k - 1);
      StepConserves(Iterate(q, n, k - 1), q);
    }
  }

  // ----------------------------------------------------------------------------------- contraction

  lemma {:induction false} FlowContracts(s: Vector, t: Vector, q: Matrix, k: nat)
    requires |s| == |t| && Shares(q, |s|) && k <= |s|
    ensures Distance(Flow(s, q, k), Flow(t, q, k)) <= Distance(s[..k], t[..k])
  {
    hide Mul, Sum, Distance;
    if k == 0 {
      NothingFlows(s);
    } else {
      MulLaws(Abs(s[k - 1] - t[k - 1]), 0.0, 0.0);
      FlowContracts(s, t, q, k - 1);
      DistancePlus(Flow(s, q, k - 1), Flow(t, q, k - 1), Times(s[k - 1], q[k - 1]), Times(t[k - 1], q[k - 1]));
      DistanceOfMultiples(s[k - 1], t[k - 1], q[k - 1]);
      DistanceTakeOneMore(s, t, k);
    }
  }

  /** Whatever two scores a step starts from, it brings them closer by the damping. */
  lemma StepContracts(s: Vector, t: Vector, q: Matrix)
    requires |s| == |t| && Shares(q, |s|)
    ensures Distance(Step(s, q), Step(t, q)) <= DAMPING * Distance(s, t)
  {
    assert s[..|s|] == s && t[..|t|] == t;
    FlowContracts(s, t, q, |s|);
    DistanceAffine(Teleport(|s|), DAMPING, Flow(s, q, |s|), Flow(t, q, |s|));
  }

  /** What iteration `k` moves is at most twice the damping to the `k`. */
  lemma {:induction false} MovesLessAndLess(q: Matrix, n: nat, k: nat)
    requires Shares(q, n) && n > 0
    ensures Distance(Iterate(q, n, k + 1), Iterate(q, n, k)) <= 2.0 * Power(DAMPING, k)
    ensures Distance(Iterate(q, n, k + 2), Iterate(q, n, k + 1))
         <= DAMPING * Distance(Iterate(q, n, k + 1), Iterate(q, n, k))
  {
    hide Mul, Sum, Distance, Step, NonNegative;
    IteratesAreDistributions(q, n, k);
    IteratesAreDistributions(q, n, k + 1);
    StepContracts(Iterate(q, n, k + 1), Iterate(q, n, k), q);
    if k == 0 {
      DistanceOfShares(Iterate(q, n, 1), Iterate(q, n, 0));
    } else {
      MovesLessAndLess(q, n, k - 1);
    }
  }

  /** Every later iterate stays within twice the damping to the `k` of iterate `k`: the
      iteration settles, whatever it settles on. */
  lemma {:induction false} LaterIteratesStayClose(q: Matrix, n: nat, k: nat, j: nat)
    requires Shares(q, n) && n > 0
    ensures Distance(Iterate(q, n, k), Iterate(q, n, k + j)) <= 2.0 * Power(DAMPING, k)
  {
    hide Mul, Sum, Distance, Step, NonNegative;
    if k == 0 {
      IteratesAreDistributions(q, n, 0);
      IteratesAreDistributions(q, n, j);
      DistanceOfShares(Iterate(q, n, 0), Iterate(q, n, j));
    } else {
      LaterIteratesStayClose(q, n, k - 1, j);
      StepContracts(Iterate(q, n, k - 1), Iterate(q, n, k - 1 + j), q);
    }
  }

  /** Stopping once an iteration moved less than `epsilon` leaves the score within a known
      multiple of it from everything the iteration could still have reached. */
  lemma {:induction false} StoppingIsClose(q: Matrix, n: nat, k: nat, epsilon: real, j: nat)
    requires Shares(q, n) && Distance(Iterate(q, n, k + 1), Iterate(q, n, k)) < epsilon
    ensures (1.0 - DAMPING) * Distance(Iterate(q, n, k + 1), Iterate(q, n, k + 1 + j)) <= DAMPING * epsilon
  {
    hide Mul, Sum, Distance, Step, NonNegative;
    var x, y := Iterate(q, n, k), Iterate(q, n, k + 1);
    if j == 0 {
      NoDistance(y, y);
    } else {
      var before := Iterate(q, n, k + j);
      StoppingIsClose(q, n, k, epsilon, j - 1);
      StepContracts(x, before, q);
      Triangle(x, y, before);
      Symmetric(x, y);
    }
  }

  /** At most one score stands still, and a distribution that does is approached by every
      iterate geometrically. */
  lemma {:induction false} Approaches(q: Matrix, n: nat, still: Vector, k: nat)
    requires Shares(q, n) && n > 0 && Distribution(still, n) && Step(still, q) == still
    ensures Distance(Iterate(q, n, k), still) <= 2.0 * Power(DAMPING, k)
  {
    IteratesAreDistributions(q, n, k);
    if k == 0 {
      DistanceOfShares(Iterate(q, n, 0), still);
    } else {
      Approaches(q, n, still, k - 1);
      StepContracts(Iterate(q, n, k - 1), still, q);
    }
  }

  lemma OnlyOneStandsStill(q: Matrix, n: nat, a: Vector, b: Vector)
    requires Shares(q, n) && |a| == |b| == n && Step(a, q) == a && Step(b, q) == b
    ensures a == b
  {
    StepContracts(a, b, q);
    NoDistance(a, b);
  }
}
