/** The coefficient tables of one re-expansion operator T^(i,j) of Lotan (2006)
    and their symmetry-aware accessors (class ReExpCoeffs_IJ).

    Rotation coefficients R[n](m, s), -n <= m, s <= n, are stored only for
    m >= 0: table R[n] has row m and column s + n. A read with m < 0 is
    answered from the mirrored cell by conjugation. Translation coefficients
    are stored in table S[n] at row l and column n + m. The spherical
    harmonics Y(n, s) of the expansion direction are stored for s >= 0 only. */
module ReExpCalc {
  import opened Cmplx

  /** A cell of a stored table, and whether the value asked for is the
      conjugate of the value stored there. */
  datatype Slot = Slot(row: int, col: int, conjugated: bool)

  /** The cell get_rval(n, m, s) reads: for m >= 0 row m, column s + n; for
      m < 0 the mirrored cell row -m, column -s + n, conjugated. */
  function RReadSlot(n: int, m: int, s: int): (c: Slot)
    requires 0 <= n && -n <= m <= n && -n <= s <= n
    ensures 0 <= c.row <= n && 0 <= c.col <= 2 * n
    ensures c.conjugated <==> m < 0
  {
    if m < 0 then Slot(-m, -s + n, true) else Slot(m, s + n, false)
  }

  /** The cell set_rval(n, m, s, v) writes: row |m|, column s + n, with the
      conjugate of v stored when m < 0. */
  function RWriteSlot(n: int, m: int, s: int): (c: Slot)
    requires 0 <= n && -n <= m <= n && -n <= s <= n
    ensures 0 <= c.row <= n && 0 <= c.col <= 2 * n
    ensures c.conjugated <==> m < 0
  {
    if m < 0 then Slot(-m, s + n, true) else Slot(m, s + n, false)
  }

  /** The cell get_sval and set_sval use: S[n] at row l, column n + m. */
  function SSlot(n: int, l: int, m: int): (c: Slot)
    ensures !c.conjugated
    ensures 0 <= n && -n <= m <= n ==> 0 <= c.col <= 2 * n
  {
    Slot(l, n + m, false)
  }

  /** The cell get_yval(n, s) reads: row n, column |s|, conjugated when s < 0. */
  function YSlot(n: int, s: int): (c: Slot)
    ensures c.row == n && c.col >= 0
    ensures c.conjugated <==> s < 0
  {
    if s < 0 then Slot(n, -s, true) else Slot(n, s, false)
  }

  /** Reading through a slot: the stored value, conjugated if the slot says so. */
  function Read(a: array2<Complex>, c: Slot): Complex
    reads a
    requires 0 <= c.row < a.Length0 && 0 <= c.col < a.Length1
  {
    if c.conjugated then Conj(a[c.row, c.col]) else a[c.row, c.col]
  }

  /** The value a write through slot c stores for the value v. */
  function Stored(v: Complex, c: Slot): Complex {
    if c.conjugated then Conj(v) else v
  }

  /** Each cell of an (n+1)×(2n+1) table is the home of exactly one index
      pair (m, s) with m >= 0: the documented layout fills the table. */
  lemma RLayoutBijective(n: int, i: int, j: int)
    requires 0 <= n && 0 <= i <= n && 0 <= j <= 2 * n
    ensures RReadSlot(n, i, j - n) == Slot(i, j, false)
    ensures forall m, s :: 0 <= m <= n && -n <= s <= n && RReadSlot(n, m, s).row == i && RReadSlot(n, m, s).col == j ==> m == i && s == j - n
  {
  }

  /** A negative-order read and the positive-order read with both indices
      negated look at the same cell, one conjugated and one not. */
  lemma RReadMirrored(n: int, m: int, s: int)
    requires 0 < m <= n && -n <= s <= n
    ensures RReadSlot(n, -m, -s) == RReadSlot(n, m, s).(conjugated := true)
  {
  }

  /** set_rval writes the cell get_rval reads exactly when m >= 0 or s == 0. */
  lemma RWriteMatchesReadIff(n: int, m: int, s: int)
    requires 0 <= n && -n <= m <= n && -n <= s <= n
    ensures (RWriteSlot(n, m, s) == RReadSlot(n, m, s)) <==> (m >= 0 || s == 0)
  {
  }

  /** A negative-order write lands on the cell that the positive-order read
      at the same (n, |m|, s) uses. */
  lemma RWriteIsMirrorRead(n: int, m: int, s: int)
    requires 0 <= n && -n <= m < 0 && -n <= s <= n
    ensures RWriteSlot(n, m, s) == RReadSlot(n, -m, s).(conjugated := true)
  {
  }

  lemma YReadMirrored(n: int, s: int)
    requires 0 < s
    ensures YSlot(n, -s) == YSlot(n, s).(conjugated := true)
  {
  }

  /** One T^(i,j): the rotation tables R[0..p), the translation tables
      S[0..p) and the harmonic table Y of the expansion direction. */
  class ReExpCoeffs {
    const p: nat
    const R: seq<array2<Complex>>
    const S: seq<array2<Complex>>
    const Y: array2<Complex>

    /** The layout of the rotation tables (at least (n+1)×(2n+1) for degree
        n), and that no two tables share storage. */
    predicate Valid() {
      |R| == p && |S| == p &&
      (forall n :: 0 <= n < p ==> R[n].Length0 > n && R[n].Length1 > 2 * n) &&
      (forall i, j :: 0 <= i < p && 0 <= j < p && i != j ==> R[i] != R[j]) &&
      (forall i, j :: 0 <= i < p && 0 <= j < p && i != j ==> S[i] != S[j]) &&
      (forall i, j :: 0 <= i < p && 0 <= j < p ==> R[i] != S[j]) &&
      (forall i :: 0 <= i < p ==> R[i] != Y && S[i] != Y)
    }

    /** Allocates the tables: R[n] is (n+1)×(2n+1), S[n] is p×(2n+1), all
        zero until calc_r and calc_s (not modelled) fill them.
        Y is the caller's harmonic table, which the object only reads. */
    constructor (p: nat, Y: array2<Complex>)
      ensures Valid() && this.p == p && this.Y == Y
      ensures forall n :: 0 <= n < p ==> fresh(R[n]) && fresh(S[n])
      ensures forall n :: 0 <= n < p ==> R[n].Length0 == n + 1 && R[n].Length1 == 2 * n + 1
      ensures forall n :: 0 <= n < p ==> S[n].Length0 == p && S[n].Length1 == 2 * n + 1
    {
      var rs: seq<array2<Complex>> := [];
      var ss: seq<array2<Complex>> := [];
      var k := 0;
      while k < p
        invariant 0 <= k <= p && |rs| == k && |ss| == k
        invariant forall n :: 0 <= n < k ==> fresh(rs[n]) && fresh(ss[n])
        invariant forall n :: 0 <= n < k ==> rs[n].Length0 == n + 1 && rs[n].Length1 == 2 * n + 1
        invariant forall n :: 0 <= n < k ==> ss[n].Length0 == p && ss[n].Length1 == 2 * n + 1
        invariant forall i, j :: 0 <= i < k && 0 <= j < k && i != j ==> rs[i] != rs[j] && ss[i] != ss[j]
        invariant forall i, j :: 0 <= i < k && 0 <= j < k ==> rs[i] != ss[j]
      {
        var r := new Complex[k + 1, 2 * k + 1]((i, j) => Zero);
        var t := new Complex[p, 2 * k + 1]((i, j) => Zero);
        rs, ss := rs + [r], ss + [t];
        k := k + 1;
      }
      this.p, R, S, this.Y := p, rs, ss, Y;
    }

    /** get_rval(n, m, s), ReExpCalc.h:125-129. */
    function GetR(n: int, m: int, s: int): Complex
      requires Valid() && 0 <= n < p && -n <= m <= n && -n <= s <= n
      reads R[n]
    {
      Read(R[n], RReadSlot(n, m, s))
    }

    /** get_sval(n, l, m), ReExpCalc.h:131. */
    function GetS(n: int, l: int, m: int): Complex
      requires Valid() && 0 <= n < p
      requires 0 <= l < S[n].Length0 && 0 <= n + m < S[n].Length1
      reads S[n]
    {
      Read(S[n], SSlot(n, l, m))
    }

    /** get_yval(n, s), ReExpCalc.h:118-122. */
    function GetY(n: int, s: int): Complex
      requires 0 <= n < Y.Length0 && -Y.Length1 < s < Y.Length1
      reads Y
    {
      Read(Y, YSlot(n, s))
    }

    /** set_rval(n, m, s, val), ReExpCalc.h:134-138, as written: for m < 0
        the conjugate of val goes to column s + n, which is not the column
        -s + n that get_rval(n, m, s) reads unless s == 0. */
    method SetR(n: int, m: int, s: int, val: Complex)
      requires Valid() && 0 <= n < p && -n <= m <= n && -n <= s <= n
      modifies R[n]
      ensures Valid()
      ensures var w := RWriteSlot(n, m, s);
        R[n][w.row, w.col] == Stored(val, w) &&
        forall i, j :: 0 <= i < R[n].Length0 && 0 <= j < R[n].Length1 && (i != w.row || j != w.col) ==> R[n][i, j] == old(R[n][i, j])
      ensures forall k :: 0 <= k < p && k != n ==> unchanged(R[k])
      ensures forall k :: 0 <= k < p ==> unchanged(S[k])
      ensures unchanged(Y)
      ensures m >= 0 ==> GetR(n, m, s) == val
      ensures m < 0 ==> GetR(n, -m, s) == Conj(val)
      ensures m < 0 && s == 0 ==> GetR(n, m, s) == val
      ensures m < 0 && s != 0 ==> GetR(n, m, s) == old(GetR(n, m, s))
    {
      var w := RWriteSlot(n, m, s);
      R[n][w.row, w.col] := Stored(val, w);
    }

    /** The setter that get_rval's symmetry calls for: it writes the cell
        get_rval(n, m, s) reads, so that every write is read back. */
    method SetRMirrored(n: int, m: int, s: int, val: Complex)
      requires Valid() && 0 <= n < p && -n <= m <= n && -n <= s <= n
      modifies R[n]
      ensures Valid()
      ensures var w := RReadSlot(n, m, s);
        R[n][w.row, w.col] == Stored(val, w) &&
        forall i, j :: 0 <= i < R[n].Length0 && 0 <= j < R[n].Length1 && (i != w.row || j != w.col) ==> R[n][i, j] == old(R[n][i, j])
      ensures forall k :: 0 <= k < p && k != n ==> unchanged(R[k])
      ensures forall k :: 0 <= k < p ==> unchanged(S[k])
      ensures unchanged(Y)
      ensures GetR(n, m, s) == val
      ensures m != 0 ==> GetR(n, -m, -s) == Conj(val)
    {
      var w := RReadSlot(n, m, s);
      R[n][w.row, w.col] := Stored(val, w);
    }

    /** set_sval(n, l, m, val), ReExpCalc.h:140. */
    method SetS(n: int, l: int, m: int, val: Complex)
      requires Valid() && 0 <= n < p
      requires 0 <= l < S[n].Length0 && 0 <= n + m < S[n].Length1
      modifies S[n]
      ensures Valid()
      ensures S[n][l, n + m] == val
      ensures forall i, j :: 0 <= i < S[n].Length0 && 0 <= j < S[n].Length1 && (i != l || j != n + m) ==> S[n][i, j] == old(S[n][i, j])
      ensures forall k :: 0 <= k < p && k != n ==> unchanged(S[k])
      ensures forall k :: 0 <= k < p ==> unchanged(R[k])
      ensures unchanged(Y)
      ensures GetS(n, l, m) == val
    {
      var w := SSlot(n, l, m);
      S[n][w.row, w.col] := val;
    }
  }

  /** For m >= 0 get_rval returns the stored entry R[n](m, s + n). */
  lemma GetRStored(c: ReExpCoeffs, n: int, m: int, s: int)
    requires c.Valid() && 0 <= n < c.p && 0 <= m <= n && -n <= s <= n
    ensures c.GetR(n, m, s) == c.R[n][m, s + n]
  {
  }

  /** Conjugate symmetry of rotation reads: R(n, -m, -s) == conj(R(n, m, s)). */
  lemma GetRConjSymmetric(c: ReExpCoeffs, n: int, m: int, s: int)
    requires c.Valid() && 0 <= n < c.p && 0 < m <= n && -n <= s <= n
    ensures c.GetR(n, -m, -s) == Conj(c.GetR(n, m, s))
  {
    RReadMirrored(n, m, s);
  }

  /** get_yval returns the stored harmonic for s >= 0 and its conjugate
      symmetry Y(n, -s) == conj(Y(n, s)) for s > 0. */
  lemma GetYConjSymmetric(c: ReExpCoeffs, n: int, s: int)
    requires 0 <= n < c.Y.Length0 && 0 <= s < c.Y.Length1
    ensures c.GetY(n, s) == c.Y[n, s]
    ensures s > 0 ==> c.GetY(n, -s) == Conj(c.GetY(n, s))
  {
  }

  /** get_sval returns the stored entry S[n](l, n + m). */
  lemma GetSStored(c: ReExpCoeffs, n: int, l: int, m: int)
    requires c.Valid() && 0 <= n < c.p
    requires 0 <= l < c.S[n].Length0 && 0 <= n + m < c.S[n].Length1
    ensures c.GetS(n, l, m) == c.S[n][l, n + m]
  {
  }

  /** A concrete instance of the set_rval / get_rval disagreement at degree
      1: set_rval(1, 1, -1, 0) then set_rval(1, -1, 1, 1); get_rval(1, -1, 1)
      then reads 0, not the 1 just written for (1, -1, 1). */
  method SetThenGetDisagree() returns (written: Complex, read: Complex)
    ensures written == One && read == Zero
  {
    var y := new Complex[2, 2]((i, j) => Zero);
    var c := new ReExpCoeffs(2, y);
    c.SetR(1, 1, -1, Zero);
    written := One;
    c.SetR(1, -1, 1, written);
    read := c.GetR(1, -1, 1);
  }
}
