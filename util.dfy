/** The matrix helpers of util.h: scalar multiplication from either side and
    the inner product of two coefficient matrices. A matrix is a Dafny array2;
    the source passes its input matrices by value, so no method here may
    modify them (none has a modifies clause). */
module Util {
  import opened Cmplx

  /** `mat * rhs`, util.h:21-34. The element type's product is passed as mul;
      the loop forms rhs * mat(i, j), the scalar as left operand. */
  method ScaleRight<T(0)>(mat: array2<T>, rhs: T, mul: (T, T) -> T) returns (result: array2<T>)
    ensures fresh(result)
    ensures result.Length0 == mat.Length0 && result.Length1 == mat.Length1
    ensures forall i, j :: 0 <= i < mat.Length0 && 0 <= j < mat.Length1 ==> result[i, j] == mul(rhs, mat[i, j])
  {
    result := new T[mat.Length0, mat.Length1];
    var i := 0;
    while i < mat.Length0
      invariant 0 <= i <= mat.Length0
      invariant forall a, b :: 0 <= a < i && 0 <= b < mat.Length1 ==> result[a, b] == mul(rhs, mat[a, b])
    {
      var j := 0;
      while j < mat.Length1
        invariant 0 <= j <= mat.Length1
        invariant forall a, b :: 0 <= a < i && 0 <= b < mat.Length1 ==> result[a, b] == mul(rhs, mat[a, b])
        invariant forall b :: 0 <= b < j ==> result[i, b] == mul(rhs, mat[i, b])
      {
        result[i, j] := mul(rhs, mat[i, j]);
        j := j + 1;
      }
      i := i + 1;
    }
  }

  /** `lhs * mat`, util.h:40-53: entry (i, j) of the result is lhs * mat(i, j). */
  method ScaleLeft<T(0)>(lhs: T, mat: array2<T>, mul: (T, T) -> T) returns (result: array2<T>)
    ensures fresh(result)
    ensures result.Length0 == mat.Length0 && result.Length1 == mat.Length1
    ensures forall i, j :: 0 <= i < mat.Length0 && 0 <= j < mat.Length1 ==> result[i, j] == mul(lhs, mat[i, j])
  {
    result := new T[mat.Length0, mat.Length1];
    var i := 0;
    while i < mat.Length0
      invariant 0 <= i <= mat.Length0
      invariant forall a, b :: 0 <= a < i && 0 <= b < mat.Length1 ==> result[a, b] == mul(lhs, mat[a, b])
    {
      var j := 0;
      while j < mat.Length1
        invariant 0 <= j <= mat.Length1
        invariant forall a, b :: 0 <= a < i && 0 <= b < mat.Length1 ==> result[a, b] == mul(lhs, mat[a, b])
        invariant forall b :: 0 <= b < j ==> result[i, b] == mul(lhs, mat[i, b])
      {
        result[i, j] := mul(lhs, mat[i, j]);
        j := j + 1;
      }
      i := i + 1;
    }
  }

  /** For complex matrices, `mat * c` and `c * mat` agree entry by entry, and
      each entry is also mat(i, j) * c, the right product the name promises. */
  method ScaleSidesAgree(mat: array2<Complex>, c: Complex) returns (right: array2<Complex>, left: array2<Complex>)
    ensures fresh(right) && fresh(left)
    ensures right.Length0 == left.Length0 == mat.Length0 && right.Length1 == left.Length1 == mat.Length1
    ensures forall i, j :: 0 <= i < mat.Length0 && 0 <= j < mat.Length1 ==>
      right[i, j] == left[i, j] == Mul(mat[i, j], c)
  {
    right := ScaleRight(mat, c, Mul);
    left := ScaleLeft(c, mat, Mul);
    forall i, j | 0 <= i < mat.Length0 && 0 <= j < mat.Length1
      ensures Mul(c, mat[i, j]) == Mul(mat[i, j], c)
    {
      MulCommutes(c, mat[i, j]);
    }
  }

  /** Σ_k us[k]·conj(vs[k]). */
  function Dot(us: seq<Complex>, vs: seq<Complex>): Complex
    requires |us| == |vs|
  {
    if |us| == 0 then Zero else Add(Mul(us[0], Conj(vs[0])), Dot(us[1..], vs[1..]))
  }

  /** Appending one pair of entries adds one term: the sum can be
      accumulated from the first term to the last, as the loops do. */
  lemma {:induction false} DotSnoc(us: seq<Complex>, vs: seq<Complex>, u: Complex, v: Complex)
    requires |us| == |vs|
    ensures Dot(us + [u], vs + [v]) == Add(Dot(us, vs), Mul(u, Conj(v)))
  {
    if |us| > 0 {
      assert (us + [u])[1..] == us[1..] + [u];
      assert (vs + [v])[1..] == vs[1..] + [v];
      DotSnoc(us[1..], vs[1..], u, v);
    } else {
      assert us + [u] == [u] && vs + [v] == [v];
    }
  }

  /** The sum over a concatenation is the sum of the sums. */
  lemma {:induction false} DotAppend(us: seq<Complex>, vs: seq<Complex>, xs: seq<Complex>, ys: seq<Complex>)
    requires |us| == |vs| && |xs| == |ys|
    ensures Dot(us + xs, vs + ys) == Add(Dot(us, vs), Dot(xs, ys))
  {
    if |us| > 0 {
      assert (us + xs)[1..] == us[1..] + xs;
      assert (vs + ys)[1..] == vs[1..] + ys;
      DotAppend(us[1..], vs[1..], xs, ys);
    } else {
      assert us + xs == xs && vs + ys == ys;
    }
  }

  /** The product of a sequence of zeros with itself is zero (used for the
      p = 2 instance below). */
  lemma {:induction false} DotZeros(us: seq<Complex>)
    requires forall i :: 0 <= i < |us| ==> us[i] == Zero
    ensures Dot(us, us) == Zero
  {
    if |us| > 0 {
      DotZeros(us[1..]);
    }
  }

  /** Hermitian symmetry: Dot(vs, us) == conj(Dot(us, vs)). */
  lemma {:induction false} DotHermitian(us: seq<Complex>, vs: seq<Complex>)
    requires |us| == |vs|
    ensures Dot(vs, us) == Conj(Dot(us, vs))
  {
    if |us| > 0 {
      DotHermitian(us[1..], vs[1..]);
      ConjAdd(Mul(us[0], Conj(vs[0])), Dot(us[1..], vs[1..]));
      ConjMulConj(us[0], vs[0]);
    }
  }

  /** Dot(us, us) is a real number that is never negative. */
  lemma {:induction false} DotSelfNonNegative(us: seq<Complex>)
    ensures Dot(us, us).im == 0.0 && Dot(us, us).re >= 0.0
  {
    if |us| > 0 {
      DotSelfNonNegative(us[1..]);
      NormSquared(us[0]);
    }
  }

  /** The column lotan_inner_prod reads in row n: m + p with m = -n. It lies
      in [1, p], so p rows and p + 1 columns suffice. */
  function ReadColumn(n: int, p: int): (col: int)
    requires 0 <= n < p
    ensures 1 <= col <= p
  {
    -n + p
  }

  /** The entries lotan_inner_prod visits, in order: U(n, p - n) for 0 <= n < p. */
  function Diagonal(U: array2<Complex>, p: int): (d: seq<Complex>)
    requires p <= U.Length0 && (p <= 0 || p < U.Length1)
    reads U
    ensures |d| == if p <= 0 then 0 else p
  {
    if p <= 0 then [] else seq(p, n requires 0 <= n < p reads U => U[n, ReadColumn(n, p)])
  }

  /** lotan_inner_prod(U, V, p), util.h:210-222, as written: the inner loop
      runs from m = -n while m <= -n, so it adds exactly one term per degree
      n, U(n, p - n)·conj(V(n, p - n)). */
  method LotanInnerProd(U: array2<Complex>, V: array2<Complex>, p: int) returns (ip: Complex)
    requires p <= U.Length0 && p <= V.Length0
    requires p <= 0 || (p < U.Length1 && p < V.Length1)
    ensures ip == Dot(Diagonal(U, p), Diagonal(V, p))
    ensures p <= 0 ==> ip == Zero
    ensures U == V ==> ip.im == 0.0 && ip.re >= 0.0
  {
    ghost var du, dv := Diagonal(U, p), Diagonal(V, p);
    ip := Zero;
    var n := 0;
    while n < p
      invariant 0 <= n && (p <= 0 || n <= p)
      invariant p <= 0 ==> n == 0
      invariant ip == Dot(du[..n], dv[..n])
    {
      var m := -n;
      while m <= -n
        invariant -n <= m <= -n + 1
        invariant m == -n ==> ip == Dot(du[..n], dv[..n])
        invariant m == -n + 1 ==> ip == Dot(du[..n + 1], dv[..n + 1])
      {
        assert du[..n + 1] == du[..n] + [U[n, m + p]];
        assert dv[..n + 1] == dv[..n] + [V[n, m + p]];
        DotSnoc(du[..n], dv[..n], U[n, m + p], V[n, m + p]);
        ip := Add(ip, Mul(U[n, m + p], Conj(V[n, m + p])));
        m := m + 1;
      }
      n := n + 1;
    }
    assert du[..n] == du && dv[..n] == dv;
    if U == V {
      DotSelfNonNegative(du);
    }
  }

  /** Hermitian symmetry of lotan_inner_prod: swapping U and V conjugates the result. */
  lemma LotanInnerProdHermitian(U: array2<Complex>, V: array2<Complex>, p: int)
    requires p <= U.Length0 && p <= V.Length0
    requires p <= 0 || (p < U.Length1 && p < V.Length1)
    ensures Dot(Diagonal(V, p), Diagonal(U, p)) == Conj(Dot(Diagonal(U, p), Diagonal(V, p)))
  {
    DotHermitian(Diagonal(U, p), Diagonal(V, p));
  }

  /** Row n of the inner product of equation 29 of Lotan (2006): the entries
      U(n, m + p) for -n <= m <= n. */
  function Row(U: array2<Complex>, p: int, n: int): (r: seq<Complex>)
    requires 0 <= n < p <= U.Length0 && 2 * p <= U.Length1
    reads U
    ensures |r| == 2 * n + 1
  {
    seq(2 * n + 1, k requires 0 <= k < 2 * n + 1 reads U => U[n, k - n + p])
  }

  /** The number of (n, m) pairs with 0 <= n < k and -n <= m <= n. */
  function PackedLength(k: nat): nat {
    if k == 0 then 0 else PackedLength(k - 1) + 2 * k - 1
  }

  /** Rows 0..k-1 of equation 29, one after the other. */
  function Packed(U: array2<Complex>, p: int, k: int): (r: seq<Complex>)
    requires 0 <= k <= p <= U.Length0 && 2 * p <= U.Length1
    reads U
    ensures |r| == PackedLength(k)
  {
    if k == 0 then [] else Packed(U, p, k - 1) + Row(U, p, k - 1)
  }

  /** The inner loop of equation 29 for degree n: adds
      U(n, m + p)·conj(V(n, m + p)) to ip for m = -n, ..., n in turn. */
  method AccumulateRow(U: array2<Complex>, V: array2<Complex>, p: int, n: int, ip0: Complex) returns (ip: Complex)
    requires 0 <= n < p <= U.Length0 && p <= V.Length0
    requires 2 * p <= U.Length1 && 2 * p <= V.Length1
    ensures ip == Add(ip0, Dot(Row(U, p, n), Row(V, p, n)))
  {
    ghost var ru, rv := Row(U, p, n), Row(V, p, n);
    ip := ip0;
    var m := -n;
    while m <= n
      invariant -n <= m <= n + 1
      invariant ip == Add(ip0, Dot(ru[..m + n], rv[..m + n]))
    {
      DotSnoc(ru[..m + n], rv[..m + n], ru[m + n], rv[m + n]);
      assert ru[..m + n + 1] == ru[..m + n] + [ru[m + n]];
      assert rv[..m + n + 1] == rv[..m + n] + [rv[m + n]];
      ip := Add(ip, Mul(U[n, m + p], Conj(V[n, m + p])));
      m := m + 1;
    }
    assert ru[..m + n] == ru && rv[..m + n] == rv;
  }

  /** The inner product equation 29 describes: every (n, m) with 0 <= n < p
      and -n <= m <= n, in the same (n, m + p) layout. */
  method Eq29InnerProd(U: array2<Complex>, V: array2<Complex>, p: int) returns (ip: Complex)
    requires p <= U.Length0 && p <= V.Length0
    requires 2 * p <= U.Length1 && 2 * p <= V.Length1
    ensures p <= 0 ==> ip == Zero
    ensures p > 0 ==> ip == Dot(Packed(U, p, p), Packed(V, p, p))
    ensures U == V ==> ip.im == 0.0 && ip.re >= 0.0
  {
    ip := Zero;
    var n := 0;
    while n < p
      invariant 0 <= n && (p <= 0 || n <= p)
      invariant p <= 0 ==> n == 0
      invariant n > 0 ==> ip == Dot(Packed(U, p, n), Packed(V, p, n))
      invariant n == 0 ==> ip == Zero
    {
      ghost var pu, pv := Packed(U, p, n), Packed(V, p, n);
      ip := AccumulateRow(U, V, p, n, ip);
      DotAppend(pu, pv, Row(U, p, n), Row(V, p, n));
      n := n + 1;
    }
    if U == V && p > 0 {
      DotSelfNonNegative(Packed(U, p, p));
    }
  }

  /** Swapping U and V conjugates the equation 29 inner product. */
  lemma Eq29InnerProdHermitian(U: array2<Complex>, V: array2<Complex>, p: int)
    requires 0 <= p <= U.Length0 && p <= V.Length0
    requires 2 * p <= U.Length1 && 2 * p <= V.Length1
    ensures Dot(Packed(V, p, p), Packed(U, p, p)) == Conj(Dot(Packed(U, p, p), Packed(V, p, p)))
  {
    DotHermitian(Packed(U, p, p), Packed(V, p, p));
  }

  // The lemmas from here to Eq29InnerProdIsOne evaluate the two inner
  // products on one p = 2 instance. They take small steps (symbolic p, one
  // peeled entry at a time) because unfolding Dot on a literal sequence of
  // complex products is too costly for the verifier in one go.

  /** The instance on which the two inner products differ: p = 2 and U = V
      with U(1, 2) = 1 (degree 1, order 0) and 0 in the other cells read.
      lotan_inner_prod gives 0 on it. */
  lemma AsWrittenInnerProdIsZero(U: array2<Complex>, p: int)
    requires p == 2 && U.Length0 == 2 && U.Length1 == 4
    requires U[0, 2] == Zero && U[1, 1] == Zero && U[1, 2] == One && U[1, 3] == Zero
    ensures Dot(Diagonal(U, p), Diagonal(U, p)) == Zero
  {
    var d := Diagonal(U, p);
    assert d == [U[0, 2], U[1, 1]];
    DotZeros(d);
  }

  /** Peeling the first entry off a self-product. */
  lemma DotConsSelf(u: Complex, q: seq<Complex>)
    ensures Dot([u] + q, [u] + q) == Add(Mul(u, Conj(u)), Dot(q, q))
  {
    assert ([u] + q)[1..] == q;
  }

  /** A four-entry self-product written out term by term. */
  lemma DotSelfFour(a: Complex, b: Complex, c: Complex, d: Complex)
    ensures Dot([a, b, c, d], [a, b, c, d])
         == Add(Mul(a, Conj(a)), Add(Mul(b, Conj(b)), Add(Mul(c, Conj(c)), Add(Mul(d, Conj(d)), Zero))))
  {
    DotConsSelf(d, []);
    assert [d] + [] == [d];
    DotConsSelf(c, [d]);
    assert [c] + [d] == [c, d];
    DotConsSelf(b, [c, d]);
    assert [b] + [c, d] == [b, c, d];
    DotConsSelf(a, [b, c, d]);
    assert [a] + [b, c, d] == [a, b, c, d];
  }

  /** The product with itself of (0, 0, 1, 0) is 1. */
  lemma DotUnitAtTwo(a: Complex, b: Complex, c: Complex, d: Complex)
    requires a == Zero && b == Zero && c == One && d == Zero
    ensures Dot([a, b, c, d], [a, b, c, d]) == One
  {
    DotSelfFour(a, b, c, d);
    NormSquaredOfZero(a);
    NormSquaredOfZero(b);
    NormSquaredOfOne(c);
    NormSquaredOfZero(d);
    SumAtTwo(Mul(a, Conj(a)), Mul(b, Conj(b)), Mul(c, Conj(c)), Mul(d, Conj(d)));
  }

  lemma SumAtTwo(sa: Complex, sb: Complex, sc: Complex, sd: Complex)
    requires sa == Zero && sb == Zero && sc == One && sd == Zero
    ensures Add(sa, Add(sb, Add(sc, Add(sd, Zero)))) == One
  {
  }

  /** For p = 2 equation 29 visits U(0, 2), U(1, 1), U(1, 2), U(1, 3). */
  lemma PackedAtTwo(U: array2<Complex>, p: int)
    requires p == 2 && U.Length0 == 2 && U.Length1 == 4
    ensures Packed(U, p, p) == [U[0, 2], U[1, 1], U[1, 2], U[1, 3]]
  {
    var r0, r1 := Row(U, p, 0), Row(U, p, 1);
    assert r0 == [U[0, 2]];
    assert r1 == [U[1, 1], U[1, 2], U[1, 3]];
    assert Packed(U, p, p - 1) == r0;
  }

  /** On the same instance, the inner product of equation 29 gives 1. */
  lemma Eq29InnerProdIsOne(U: array2<Complex>, p: int)
    requires p == 2 && U.Length0 == 2 && U.Length1 == 4
    requires U[0, 2] == Zero && U[1, 1] == Zero && U[1, 2] == One && U[1, 3] == Zero
    ensures Dot(Packed(U, p, p), Packed(U, p, p)) == One
  {
    PackedAtTwo(U, p);
    DotUnitAtTwo(U[0, 2], U[1, 1], U[1, 2], U[1, 3]);
  }

  /** The same instance run through both methods. */
  method InnerProdDiverges() returns (written: Complex, intended: Complex)
    ensures written == Zero && intended == One
  {
    var U := new Complex[2, 4];
    U[0, 2], U[1, 1], U[1, 2], U[1, 3] := Zero, Zero, One, Zero;
    written := LotanInnerProd(U, U, 2);
    intended := Eq29InnerProd(U, U, 2);
    AsWrittenInnerProdIsZero(U, 2);
    Eq29InnerProdIsOne(U, 2);
  }
}
