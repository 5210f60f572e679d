/** The score the iteration settles on: it exists, on every graph, by eliminating one file at
    a time; and so every bound on the distance to it is about something. */
module Stationary {
  import opened Vectors
  import opened PageRank

  /** What the first `k` coordinates pass to coordinate `j`. */
  function Inflow(x: Vector, a: Matrix, k: nat, j: nat): real
    requires k <= |x| && k <= |a| && forall i | 0 <= i < k :: j < |a[i]|
  {
    if k == 0 then 0.0 else Inflow(x, a, k - 1, j) + Mul(x[k - 1], a[k - 1][j])
  }

  /** Rows that pass on no more than a share `d` of what they have, and nothing negative. */
  predicate Passes(a: Matrix, n: nat, d: real) {
    Square(a, n) && forall i | 0 <= i < n :: NonNegative(a[i]) && Sum(a[i]) <= d
  }

  ghost predicate Balances(x: Vector, b: Vector, a: Matrix, n: nat) {
    && |x| == n && |b| == n && Square(a, n) && NonNegative(x)
    && forall j | 0 <= j < n :: x[j] == b[j] + Inflow(x, a, n, j)
  }

  // ------------------------------------------------------------------------------ one file fewer

  /** What one row passes on once what it passes to the last is sent on from there. */
  function Rerouted(row: Vector, last: Vector, rate: real): (r: Vector)
    requires |row| == |last| && row != []
    ensures |r| == |row| - 1
  {
    var m := |row| - 1;
    Plus(row[..m], Times(Mul(row[m], rate), last[..m]))
  }

  function Without(a: Matrix, n: nat, rate: real): (r: Matrix)
    requires Square(a, n) && n > 0
    ensures Square(r, n - 1)
    ensures forall i | 0 <= i < n - 1 :: r[i] == Rerouted(a[i], a[n - 1], rate)
  {
    seq(n - 1, i requires 0 <= i < n - 1 => Rerouted(a[i], a[n - 1], rate))
  }

  lemma FrontOfSum(v: Vector)
    requires v != [] && NonNegative(v)
    ensures NonNegative(v[..|v| - 1]) && Sum(v) == Sum(v[..|v| - 1]) + v[|v| - 1] && v[|v| - 1] >= 0.0
  {
  }

  /** Sending the last file's share on takes no row above its bound. */
  lemma ReroutedPasses(row: Vector, last: Vector, d: real, rate: real)
    requires |row| == |last| && row != [] && NonNegative(row) && NonNegative(last)
    requires Sum(row) <= d && Sum(last) <= d && d < 1.0 && rate > 0.0 && Mul(rate, 1.0 - last[|last| - 1]) == 1.0
    ensures NonNegative(Rerouted(row, last, rate)) && Sum(Rerouted(row, last, rate)) <= d
  {
    hide Sum, Mul;
    var m := |row| - 1;
    var c := Mul(row[m], rate);
    FrontOfSum(row);
    FrontOfSum(last);
    MulSign(row[m], rate);
    SumPlus(row[..m], Times(c, last[..m]));
    SumTimes(c, last[..m]);
    MulAllSign(c, last[..m]);
    AtMostAll(row[m], rate, Sum(last[..m]), 1.0 - last[m]);
  }

  /** What is sent on is no more than what came. */
  lemma AtMostAll(share: real, rate: real, mass: real, room: real)
    requires share >= 0.0 && rate > 0.0 && mass <= room && Mul(rate, room) == 1.0
    ensures Mul(Mul(share, rate), mass) <= share
  {
    assert rate * (room - mass) >= 0.0;
    var sent := rate * mass;
    assert sent <= 1.0;
    assert share * (1.0 - sent) >= 0.0;
    assert Mul(Mul(share, rate), mass) == share * sent;
  }

  lemma {:induction false} InflowWithout(x: Vector, a: Matrix, n: nat, rate: real, k: nat, j: nat)
    requires Square(a, n) && n > 0 && |x| == n - 1 && k <= n - 1 && j < n - 1
    ensures Inflow(x, Without(a, n, rate), k, j)
         == Inflow(x, a, k, j) + Mul(Inflow(x, a, k, n - 1), Mul(rate, a[n - 1][j]))
  {
    hide Mul;
    var c := Mul(rate, a[n - 1][j]);
    MulLaws(c, 0.0, 0.0);
    if k > 0 {
      var i := k - 1;
      InflowWithout(x, a, n, rate, i, j);
      var own := Mul(Mul(a[i][n - 1], rate), a[n - 1][j]);
      assert Without(a, n, rate)[i][j] == a[i][j] + own;
      MulLaws(x[i], a[i][j], own);
      Regroup(x[i], a[i][n - 1], rate, a[n - 1][j]);
      MulLaws(c, Inflow(x, a, i, n - 1), Mul(x[i], a[i][n - 1]));
    }
  }

  lemma Regroup(x: real, y: real, r: real, z: real)
    ensures Mul(x, Mul(Mul(y, r), z)) == Mul(Mul(x, y), Mul(r, z))
  {
  }

  lemma {:induction false} InflowOfFront(x: Vector, last: real, a: Matrix, k: nat, j: nat)
    requires k <= |x| && k <= |a| && forall i | 0 <= i < k :: j < |a[i]|
    ensures Inflow(x + [last], a, k, j) == Inflow(x, a, k, j)
  {
    if k > 0 {
      InflowOfFront(x, last, a, k - 1, j);
    }
  }

  lemma {:induction false} InflowSign(x: Vector, a: Matrix, k: nat, j: nat)
    requires k <= |x| && k <= |a| && forall i | 0 <= i < k :: j < |a[i]|
    requires NonNegative(x) && forall i | 0 <= i < k :: NonNegative(a[i])
    ensures Inflow(x, a, k, j) >= 0.0
  {
    hide Mul;
    if k > 0 {
      InflowSign(x, a, k - 1, j);
      MulSign(x[k - 1], a[k - 1][j]);
    }
  }

  /** The base of the smaller system: what the last file had of its own is sent on too. */
  function BaseWithout(b: Vector, a: Matrix, n: nat, rate: real): (r: Vector)
    requires Square(a, n) && n > 0 && |b| == n
    ensures |r| == n - 1
    ensures forall j | 0 <= j < n - 1 :: r[j] == b[j] + Mul(b[n - 1], Mul(rate, a[n - 1][j]))
  {
    seq(n - 1, j requires 0 <= j < n - 1 => b[j] + Mul(b[n - 1], Mul(rate, a[n - 1][j])))
  }

  /** A balance of the smaller system is one of the whole, with what the last file then has. */
  lemma PutBack(x: Vector, b: Vector, a: Matrix, n: nat, rate: real)
    requires Square(a, n) && n > 0 && |b| == n && NonNegative(b)
    requires forall i | 0 <= i < n :: NonNegative(a[i])
    requires rate > 0.0 && Mul(rate, 1.0 - a[n - 1][n - 1]) == 1.0
    requires Balances(x, BaseWithout(b, a, n, rate), Without(a, n, rate), n - 1)
    ensures Balances(x + [Mul(rate, b[n - 1] + Inflow(x, a, n - 1, n - 1))], b, a, n)
  {
    hide Mul, Sum, Without, BaseWithout;
    var m := n - 1;
    var came := b[m] + Inflow(x, a, m, m);
    var last := Mul(rate, came);
    var all := x + [last];
    InflowSign(x, a, m, m);
    MulSign(rate, came);
    forall j | 0 <= j < n ensures all[j] == b[j] + Inflow(all, a, n, j) {
      InflowOfFront(x, last, a, m, j);
      assert Inflow(all, a, n, j) == Inflow(x, a, m, j) + Mul(last, a[m][j]);
      if j < m {
        InflowWithout(x, a, n, rate, m, j);
        SentOn(rate, b[m], Inflow(x, a, m, m), a[m][j]);
      } else {
        OwnShare(rate, came, a[m][m]);
      }
    }
  }

  lemma SentOn(rate: real, b: real, inflow: real, share: real)
    ensures Mul(Mul(rate, b + inflow), share) == Mul(b, Mul(rate, share)) + Mul(inflow, Mul(rate, share))
  {
  }

  lemma OwnShare(rate: real, came: real, own: real)
    requires Mul(rate, 1.0 - own) == 1.0
    ensures Mul(rate, came) == came + Mul(Mul(rate, came), own)
  {
    assert came * (rate * (1.0 - own)) == came;
  }

  lemma {:induction false} ABalanceExists(b: Vector, a: Matrix, n: nat, d: real) returns (x: Vector)
    requires |b| == n && NonNegative(b) && Passes(a, n, d) && d < 1.0
    ensures Balances(x, b, a, n)
    decreases n
  {
    hide Mul, Sum, Without, BaseWithout, Inflow, Rerouted;
    if n == 0 {
      x := [];
    } else {
      var last := a[n - 1];
      FrontOfSum(last);
      SumNonNegative(last[..n - 1]);
      var rate := 1.0 / (1.0 - last[n - 1]);
      RateIsInverse(1.0 - last[n - 1]);
      forall i | 0 <= i < n - 1 ensures NonNegative(Without(a, n, rate)[i]) && Sum(Without(a, n, rate)[i]) <= d {
        ReroutedPasses(a[i], last, d, rate);
      }
      forall j | 0 <= j < n - 1 ensures BaseWithout(b, a, n, rate)[j] >= 0.0 {
        MulSign(rate, last[j]);
        MulSign(b[n - 1], Mul(rate, last[j]));
      }
      var fewer := ABalanceExists(BaseWithout(b, a, n, rate), Without(a, n, rate), n - 1, d);
      PutBack(fewer, b, a, n, rate);
      x := fewer + [Mul(rate, b[n - 1] + Inflow(fewer, a, n - 1, n - 1))];
    }
  }

  lemma RateIsInverse(room: real)
    requires room > 0.0
    ensures 1.0 / room > 0.0 && Mul(1.0 / room, room) == 1.0
  {
  }

  // ------------------------------------------------------------------------------ of the iteration

  /** The matrix of what is handed on, damped. */
  function Damped(q: Matrix): (r: Matrix)
    ensures |r| == |q| && forall i | 0 <= i < |q| :: r[i] == Times(DAMPING, q[i])
  {
    seq(|q|, i requires 0 <= i < |q| => Times(DAMPING, q[i]))
  }

  lemma DampedPasses(q: Matrix, n: nat)
    requires Shares(q, n)
    ensures Passes(Damped(q), n, DAMPING)
  {
    hide Sum, Mul;
    forall i | 0 <= i < n ensures NonNegative(Damped(q)[i]) && Sum(Damped(q)[i]) <= DAMPING {
      MulAllSign(DAMPING, q[i]);
      SumTimes(DAMPING, q[i]);
      MulLaws(DAMPING, 0.0, 0.0);
    }
  }

  lemma {:induction false} FlowIsInflow(s: Vector, q: Matrix, k: nat, j: nat)
    requires Square(q, |s|) && k <= |s| && j < |s|
    ensures Mul(DAMPING, Flow(s, q, k)[j]) == Inflow(s, Damped(q), k, j)
  {
    hide Mul;
    MulLaws(DAMPING, 0.0, 0.0);
    if k > 0 {
      FlowIsInflow(s, q, k - 1, j);
      MulLaws(DAMPING, Flow(s, q, k - 1)[j], Mul(s[k - 1], q[k - 1][j]));
      Commuted(DAMPING, s[k - 1], q[k - 1][j]);
    }
  }

  lemma Commuted(d: real, x: real, y: real)
    ensures Mul(d, Mul(x, y)) == Mul(x, Mul(d, y))
  {
  }

  /** A score that stands still weighs one in all. */
  lemma StillWeighsOne(q: Matrix, n: nat, still: Vector)
    requires Shares(q, n) && n > 0 && |still| == n && NonNegative(still) && Step(still, q) == still
    ensures Sum(still) == 1.0
  {
    hide Sum, Mul, Flow, Times, Plus, NonNegative;
    assert still[..n] == still;
    FlowConserves(still, q, n);
    TeleportWeighs(n);
    SumTimes(DAMPING, Flow(still, q, n));
    SumPlus(Teleport(n), Times(DAMPING, Flow(still, q, n)));
    assert Sum(still) == Sum(Teleport(n)) + Mul(DAMPING, Sum(still));
    OnlyOne(Sum(still));
  }

  lemma OnlyOne(x: real)
    requires x == 1.0 - DAMPING + Mul(DAMPING, x)
    ensures x == 1.0
  {
  }

  /** On every graph some distribution stands still under the iteration. */
  lemma StillExists(q: Matrix, n: nat) returns (still: Vector)
    requires Shares(q, n) && n > 0
    ensures Distribution(still, n) && Step(still, q) == still
  {
    hide Mul, Sum, Flow, Inflow;
    DampedPasses(q, n);
    TeleportWeighs(n);
    still := ABalanceExists(Teleport(n), Damped(q), n, DAMPING);
    forall j | 0 <= j < n ensures Step(still, q)[j] == still[j] {
      FlowIsInflow(still, q, n, j);
    }
    assert Step(still, q) == still;
    StillWeighsOne(q, n, still);
  }

  ghost predicate Settles(q: Matrix, n: nat, still: Vector)
    requires Square(q, n)
  {
    && Distribution(still, n) && Step(still, q) == still
    && (forall other: Vector | |other| == n && Step(other, q) == other :: other == still)
    && (forall k: nat :: Distance(Iterate(q, n, k), still) <= 2.0 * Power(DAMPING, k))
  }

  /** So on every graph the iteration settles: one score stands still, it is a distribution,
      and iterate `k` is within twice the damping to the `k` of it. */
  lemma TheIterationSettles(q: Matrix, n: nat) returns (still: Vector)
    requires Shares(q, n) && n > 0
    ensures Settles(q, n, still)
  {
    hide Distance, Step, Iterate, Sum, NonNegative;
    still := StillExists(q, n);
    forall other: Vector | |other| == n && Step(other, q) == other ensures other == still {
      OnlyOneStandsStill(q, n, other, still);
    }
    forall k: nat ensures Distance(Iterate(q, n, k), still) <= 2.0 * Power(DAMPING, k) {
      Approaches(q, n, still, k);
    }
  }

  /** And the iterate at which it stops, having moved less than `epsilon`, is within a known
      multiple of it from there. */
  lemma StoppedNear(q: Matrix, n: nat, still: Vector, k: nat, epsilon: real)
    requires Shares(q, n) && n > 0 && Settles(q, n, still)
    requires Distance(Iterate(q, n, k + 1), Iterate(q, n, k)) < epsilon
    ensures (1.0 - DAMPING) * Distance(Iterate(q, n, k + 1), still) <= DAMPING * epsilon
  {
    hide Distance, Step, Sum, NonNegative;
    var x, y := Iterate(q, n, k), Iterate(q, n, k + 1);
    StepContracts(x, still, q);
    Triangle(x, y, still);
    Symmetric(x, y);
  }
}
