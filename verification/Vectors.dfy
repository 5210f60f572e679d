/** Finite vectors of reals: sums, scaled sums of vectors, and the distance that adds up
    what each coordinate moved. */
module Vectors {

  type Vector = seq<real>

  /** A product, named so that proofs about sums need not look inside it. */
  function Mul(x: real, y: real): real {
    x * y
  }

  lemma MulLaws(c: real, x: real, y: real)
    ensures Mul(c, x + y) == Mul(c, x) + Mul(c, y)
    ensures Mul(c, x - y) == Mul(c, x) - Mul(c, y)
    ensures Mul(x + y, c) == Mul(x, c) + Mul(y, c)
    ensures Mul(x - y, c) == Mul(x, c) - Mul(y, c)
    ensures Mul(c, 0.0) == Mul(0.0, c) == 0.0 && Mul(c, 1.0) == Mul(1.0, c) == c
  {
  }

  lemma MulSign(c: real, x: real)
    requires c >= 0.0
    ensures x >= 0.0 ==> Mul(c, x) >= 0.0
    ensures Abs(Mul(c, x)) == Mul(c, Abs(x)) && Abs(Mul(x, c)) == Mul(Abs(x), c)
  {
    if x >= 0.0 {
      assert c * x >= 0.0;
    } else {
      assert c * -x >= 0.0;
    }
  }

  function Sum(v: Vector): real {
    if v == [] then 0.0 else Sum(v[..|v| - 1]) + v[|v| - 1]
  }

  function Abs(x: real): (r: real)
    ensures r >= 0.0 && r >= x && r >= -x
  {
    if x >= 0.0 then x else -x
  }

  function Plus(a: Vector, b: Vector): (r: Vector)
    requires |a| == |b|
    ensures |r| == |a| && forall i | 0 <= i < |a| :: r[i] == a[i] + b[i]
  {
    seq(|a|, i requires 0 <= i < |a| => a[i] + b[i])
  }

  function Times(c: real, a: Vector): (r: Vector)
    ensures |r| == |a| && forall i | 0 <= i < |a| :: r[i] == Mul(c, a[i])
  {
    seq(|a|, i requires 0 <= i < |a| => Mul(c, a[i]))
  }

  function Flat(n: nat, x: real): (r: Vector)
    ensures |r| == n && forall i | 0 <= i < n :: r[i] == x
  {
    seq(n, i => x)
  }

  /** How much `a` and `b` differ, coordinate by coordinate. */
  function Distance(a: Vector, b: Vector): (r: real)
    requires |a| == |b|
    ensures r >= 0.0
  {
    if a == [] then 0.0
    else Distance(a[..|a| - 1], b[..|a| - 1]) + Abs(a[|a| - 1] - b[|a| - 1])
  }

  predicate NonNegative(v: Vector) {
    forall i | 0 <= i < |v| :: v[i] >= 0.0
  }

  // ----------------------------------------------------------------------------------------- sums

  lemma {:induction false} SumUpdate(v: Vector, k: nat, x: real)
    requires k < |v|
    ensures Sum(v[k := x]) == Sum(v) - v[k] + x
  {
    var n := |v| - 1;
    if k < n {
      SumUpdate(v[..n], k, x);
      assert v[k := x][..n] == v[..n][k := x];
    } else {
      assert v[k := x][..n] == v[..n];
    }
  }

  lemma {:induction false} SumPlus(a: Vector, b: Vector)
    requires |a| == |b|
    ensures Sum(Plus(a, b)) == Sum(a) + Sum(b)
  {
    if a != [] {
      var n := |a| - 1;
      SumPlus(a[..n], b[..n]);
      assert Plus(a, b)[..n] == Plus(a[..n], b[..n]);
    }
  }

  lemma {:induction false} SumTimes(c: real, a: Vector)
    ensures Sum(Times(c, a)) == Mul(c, Sum(a))
  {
    hide Mul;
    MulLaws(c, 0.0, 0.0);
    if a != [] {
      var n := |a| - 1;
      SumTimes(c, a[..n]);
      assert Times(c, a)[..n] == Times(c, a[..n]);
      MulLaws(c, Sum(a[..n]), a[n]);
    }
  }

  lemma {:induction false} SumFlat(n: nat, x: real)
    ensures Sum(Flat(n, x)) == Mul(n as real, x)
  {
    hide Mul;
    MulLaws(x, 0.0, 0.0);
    if n > 0 {
      SumFlat(n - 1, x);
      assert Flat(n, x)[..n - 1] == Flat(n - 1, x);
      assert n as real == (n - 1) as real + 1.0;
      MulLaws(x, (n - 1) as real, 1.0);
    }
  }

  lemma {:induction false} SumNonNegative(v: Vector)
    requires NonNegative(v)
    ensures Sum(v) >= 0.0
    ensures forall i | 0 <= i < |v| :: v[i] <= Sum(v)
  {
    if v != [] {
      SumNonNegative(v[..|v| - 1]);
      forall i | 0 <= i < |v| ensures v[i] <= Sum(v) {
        if i < |v| - 1 { assert v[..|v| - 1][i] == v[i]; }
      }
    }
  }

  lemma TakeOneMore(s: Vector, k: nat)
    requires 0 < k <= |s|
    ensures Sum(s[..k]) == Sum(s[..k - 1]) + s[k - 1]
  {
    assert s[..k][..k - 1] == s[..k - 1];
  }

  // ------------------------------------------------------------------------------------- distances

  lemma DistanceTakeOneMore(s: Vector, t: Vector, k: nat)
    requires |s| == |t| && 0 < k <= |s|
    ensures Distance(s[..k], t[..k]) == Distance(s[..k - 1], t[..k - 1]) + Abs(s[k - 1] - t[k - 1])
  {
    assert s[..k][..k - 1] == s[..k - 1] && t[..k][..k - 1] == t[..k - 1];
  }

  lemma {:induction false} DistancePlus(a: Vector, b: Vector, x: Vector, y: Vector)
    requires |a| == |b| == |x| == |y|
    ensures Distance(Plus(a, x), Plus(b, y)) <= Distance(a, b) + Distance(x, y)
  {
    if a != [] {
      var n := |a| - 1;
      DistancePlus(a[..n], b[..n], x[..n], y[..n]);
      assert Plus(a, x)[..n] == Plus(a[..n], x[..n]);
      assert Plus(b, y)[..n] == Plus(b[..n], y[..n]);
    }
  }

  /** The same vector added to both, or both scaled: the distance stays, or scales. */
  lemma {:induction false} DistanceAffine(shift: Vector, c: real, a: Vector, b: Vector)
    requires |a| == |b| == |shift| && c >= 0.0
    ensures Distance(Plus(shift, Times(c, a)), Plus(shift, Times(c, b))) == Mul(c, Distance(a, b))
  {
    hide Mul;
    MulLaws(c, 0.0, 0.0);
    if a != [] {
      var n := |a| - 1;
      DistanceAffine(shift[..n], c, a[..n], b[..n]);
      assert Plus(shift, Times(c, a))[..n] == Plus(shift[..n], Times(c, a[..n]));
      assert Plus(shift, Times(c, b))[..n] == Plus(shift[..n], Times(c, b[..n]));
      MulSign(c, a[n] - b[n]);
      MulLaws(c, a[n], b[n]);
      MulLaws(c, Distance(a[..n], b[..n]), Abs(a[n] - b[n]));
    }
  }

  /** Two multiples of one vector differ by what it weighs. */
  lemma {:induction false} DistanceOfMultiples(x: real, y: real, q: Vector)
    requires NonNegative(q)
    ensures Distance(Times(x, q), Times(y, q)) == Mul(Abs(x - y), Sum(q))
  {
    hide Mul;
    MulLaws(Abs(x - y), 0.0, 0.0);
    if q != [] {
      var n := |q| - 1;
      DistanceOfMultiples(x, y, q[..n]);
      assert Times(x, q)[..n] == Times(x, q[..n]);
      assert Times(y, q)[..n] == Times(y, q[..n]);
      MulSign(q[n], x - y);
      MulLaws(q[n], x, y);
      MulLaws(Abs(x - y), Sum(q[..n]), q[n]);
    }
  }

  lemma {:induction false} Triangle(a: Vector, b: Vector, c: Vector)
    requires |a| == |b| == |c|
    ensures Distance(a, c) <= Distance(a, b) + Distance(b, c)
  {
    if a != [] {
      var n := |a| - 1;
      Triangle(a[..n], b[..n], c[..n]);
    }
  }

  lemma {:induction false} Symmetric(a: Vector, b: Vector)
    requires |a| == |b|
    ensures Distance(a, b) == Distance(b, a)
  {
    if a != [] {
      var n := |a| - 1;
      Symmetric(a[..n], b[..n]);
    }
  }

  /** Two vectors of shares are never further apart than everything moving. */
  lemma {:induction false} DistanceOfShares(a: Vector, b: Vector)
    requires |a| == |b| && NonNegative(a) && NonNegative(b)
    ensures Distance(a, b) <= Sum(a) + Sum(b)
  {
    if a != [] {
      var n := |a| - 1;
      DistanceOfShares(a[..n], b[..n]);
    }
  }

  /** Nothing moved exactly where the distance is nothing. */
  lemma {:induction false} NoDistance(a: Vector, b: Vector)
    requires |a| == |b|
    ensures Distance(a, b) == 0.0 <==> a == b
  {
    if a != [] {
      var n := |a| - 1;
      NoDistance(a[..n], b[..n]);
      assert a == a[..n] + [a[n]] && b == b[..n] + [b[n]];
    }
  }
}
