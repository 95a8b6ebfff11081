/**
 * Flood-MAR: the flooding and recharge suitability surfaces, each rescaled
 * to 0..1 with its own minimum and maximum, multiplied cell by cell.  A
 * surface is a sequence of cells, `None` for NoData; the statistics are
 * taken over the cells that hold data.
 */
module FloodMAR {
  import opened Wrappers

  type Surface = seq<Option<real>>

  /** `v` is the value of some data cell and no data cell is below it. */
  predicate IsLeast(r: Surface, v: real) {
    (exists c :: 0 <= c < |r| && r[c] == Some(v)) && forall c :: 0 <= c < |r| && r[c].Some? ==> v <= r[c].value
  }

  /** `v` is the value of some data cell and no data cell is above it. */
  predicate IsGreatest(r: Surface, v: real) {
    (exists c :: 0 <= c < |r| && r[c] == Some(v)) && forall c :: 0 <= c < |r| && r[c].Some? ==> r[c].value <= v
  }

  predicate HasData(r: Surface) {
    exists c :: 0 <= c < |r| && r[c].Some?
  }

  /** `raster.minimum`: absent for a surface without data. */
  function Minimum(r: Surface): (m: Option<real>)
    ensures m.Some? <==> HasData(r)
    ensures m.Some? ==> IsLeast(r, m.value)
    decreases |r|
  {
    if |r| == 0 then None
    else
      var rest := Minimum(r[1..]);
      assert forall c :: 1 <= c < |r| ==> r[c] == r[1..][c - 1];
      if r[0].None? then rest
      else if rest.None? || r[0].value <= rest.value then Some(r[0].value)
      else rest
  }

  /** `raster.maximum`: absent for a surface without data. */
  function Maximum(r: Surface): (m: Option<real>)
    ensures m.Some? <==> HasData(r)
    ensures m.Some? ==> IsGreatest(r, m.value)
    decreases |r|
  {
    if |r| == 0 then None
    else
      var rest := Maximum(r[1..]);
      assert forall c :: 1 <= c < |r| ==> r[c] == r[1..][c - 1];
      if r[0].None? then rest
      else if rest.None? || r[0].value >= rest.value then Some(r[0].value)
      else rest
  }

  /** The surface is not constant: its minimum is below its maximum. */
  predicate Spread(r: Surface) {
    HasData(r) && Minimum(r).value < Maximum(r).value
  }

  /** One cell of `(raster - lo) / (hi - lo)`. */
  function Unit(x: real, lo: real, hi: real): real
    requires lo < hi
  {
    (x - lo) / (hi - lo)
  }

  lemma MulPositive(a: real, b: real)
    requires 0.0 < a && 0.0 < b
    ensures 0.0 < a * b
  {
  }

  lemma MulNonnegative(a: real, b: real)
    requires 0.0 <= a && 0.0 <= b
    ensures 0.0 <= a * b
  {
  }

  lemma QuotientAtMostOne(q: real, d: real, u: real)
    requires d > 0.0 && q * d == u && u <= d
    ensures q <= 1.0
  {
    if q > 1.0 {
      MulPositive(q - 1.0, d);
      assert false;
    }
  }

  lemma QuotientNonnegative(q: real, d: real, u: real)
    requires d > 0.0 && q * d == u && 0.0 <= u
    ensures 0.0 <= q
  {
    if q < 0.0 {
      MulPositive(-q, d);
      assert false;
    }
  }

  lemma QuotientOrdered(p: real, q: real, d: real)
    requires d > 0.0 && p * d <= q * d
    ensures p <= q
  {
    if p > q {
      MulPositive(p - q, d);
      assert false;
    }
  }

  /** A value between `lo` and `hi` goes to 0..1, `lo` to 0 and `hi` to 1. */
  lemma UnitBounds(x: real, lo: real, hi: real)
    requires lo < hi && lo <= x <= hi
    ensures 0.0 <= Unit(x, lo, hi) <= 1.0
    ensures x == lo ==> Unit(x, lo, hi) == 0.0
    ensures x == hi ==> Unit(x, lo, hi) == 1.0
  {
    var q := Unit(x, lo, hi);
    assert q * (hi - lo) == x - lo;
    QuotientAtMostOne(q, hi - lo, x - lo);
    QuotientNonnegative(q, hi - lo, x - lo);
    if x == lo {
      QuotientOrdered(q, 0.0, hi - lo);
    }
    if x == hi {
      QuotientOrdered(1.0, q, hi - lo);
    }
  }

  /** Rescaling keeps the order of the values. */
  lemma UnitMonotone(x: real, y: real, lo: real, hi: real)
    requires lo < hi && x <= y
    ensures Unit(x, lo, hi) <= Unit(y, lo, hi)
  {
    var p, q := Unit(x, lo, hi), Unit(y, lo, hi);
    assert p * (hi - lo) == x - lo && q * (hi - lo) == y - lo;
    QuotientOrdered(p, q, hi - lo);
  }

  /** `a * x + b` */
  function Shift(x: real, a: real, b: real): real {
    a * x + b
  }

  lemma ShiftMonotone(x: real, y: real, a: real, b: real)
    requires a > 0.0 && x <= y
    ensures Shift(x, a, b) <= Shift(y, a, b)
    ensures x < y ==> Shift(x, a, b) < Shift(y, a, b)
  {
  }

  /** `(a * u) / (a * v) == u / v` */
  lemma CancelFactor(a: real, u: real, v: real)
    requires a != 0.0 && v != 0.0
    ensures (a * u) / (a * v) == u / v
  {
    var q := u / v;
    assert u == q * v;
    assert a * u == q * (a * v);
  }

  /** Rescaling a shifted value with the shifted bounds is rescaling the value. */
  lemma UnitShift(x: real, lo: real, hi: real, a: real, b: real)
    requires lo < hi && a > 0.0
    ensures Shift(lo, a, b) < Shift(hi, a, b)
    ensures Unit(Shift(x, a, b), Shift(lo, a, b), Shift(hi, a, b)) == Unit(x, lo, hi)
  {
    ShiftMonotone(lo, hi, a, b);
    assert Shift(x, a, b) - Shift(lo, a, b) == a * (x - lo);
    assert Shift(hi, a, b) - Shift(lo, a, b) == a * (hi - lo);
    CancelFactor(a, x - lo, hi - lo);
  }

  /** `(raster - lo) / (hi - lo)`, NoData staying NoData. */
  function Normalise(r: Surface, lo: real, hi: real): (n: Surface)
    requires lo < hi
    ensures |n| == |r| && forall c :: 0 <= c < |r| ==> (n[c].Some? <==> r[c].Some?)
    ensures forall c :: 0 <= c < |r| && r[c].Some? ==> n[c] == Some(Unit(r[c].value, lo, hi))
  {
    seq(|r|, c requires 0 <= c < |r| => if r[c].Some? then Some(Unit(r[c].value, lo, hi)) else None)
  }

  /** Lines 64-65: a surface rescaled with its own minimum and maximum. */
  function Rescaled(r: Surface): (n: Surface)
    requires Spread(r)
    ensures |n| == |r|
  {
    Normalise(r, Minimum(r).value, Maximum(r).value)
  }

  /** Cell `c` of `n` is no greater than cell `d` whenever that holds in `r`. */
  predicate OrderKept(r: Surface, n: Surface)
    requires |n| == |r|
  {
    forall c, d :: 0 <= c < |r| && 0 <= d < |r| && r[c].Some? && r[d].Some? && n[c].Some? && n[d].Some? ==>
      r[c].value <= r[d].value ==> n[c].value <= n[d].value
  }

  /**
   * A rescaled surface holds data where the surface does, every value lies
   * in 0..1, the minimum cells become 0 and the maximum cells 1, and the
   * order of the cells is kept.
   */
  lemma RescaledRange(r: Surface)
    requires Spread(r)
    ensures forall c :: 0 <= c < |r| ==> (Rescaled(r)[c].Some? <==> r[c].Some?)
    ensures forall c :: 0 <= c < |r| && r[c].Some? ==> 0.0 <= Rescaled(r)[c].value <= 1.0
    ensures forall c :: 0 <= c < |r| && r[c] == Minimum(r) ==> Rescaled(r)[c] == Some(0.0)
    ensures forall c :: 0 <= c < |r| && r[c] == Maximum(r) ==> Rescaled(r)[c] == Some(1.0)
    ensures OrderKept(r, Rescaled(r))
  {
    var lo, hi := Minimum(r).value, Maximum(r).value;
    var n := Rescaled(r);
    forall c | 0 <= c < |r| && r[c].Some?
      ensures 0.0 <= n[c].value <= 1.0 && (r[c] == Minimum(r) ==> n[c] == Some(0.0))
      ensures r[c] == Maximum(r) ==> n[c] == Some(1.0)
    {
      UnitBounds(r[c].value, lo, hi);
    }
    forall c, d | 0 <= c < |r| && 0 <= d < |r| && r[c].Some? && r[d].Some? && r[c].value <= r[d].value
      ensures n[c].value <= n[d].value
    {
      UnitMonotone(r[c].value, r[d].value, lo, hi);
    }
  }

  /** `a * r + b` cell by cell. */
  function Affine(r: Surface, a: real, b: real): (s: Surface)
    ensures |s| == |r| && forall c :: 0 <= c < |r| ==> (s[c].Some? <==> r[c].Some?)
    ensures forall c :: 0 <= c < |r| && r[c].Some? ==> s[c] == Some(Shift(r[c].value, a, b))
  {
    seq(|r|, c requires 0 <= c < |r| => if r[c].Some? then Some(Shift(r[c].value, a, b)) else None)
  }

  /** A positive scaling and a shift move the minimum and the maximum with them. */
  lemma AffineStatistics(r: Surface, a: real, b: real)
    requires a > 0.0 && HasData(r)
    ensures HasData(Affine(r, a, b))
    ensures Minimum(Affine(r, a, b)) == Some(Shift(Minimum(r).value, a, b))
    ensures Maximum(Affine(r, a, b)) == Some(Shift(Maximum(r).value, a, b))
  {
    var s := Affine(r, a, b);
    var lo, hi := Minimum(r).value, Maximum(r).value;
    var c :| 0 <= c < |r| && r[c] == Some(lo);
    var d :| 0 <= d < |r| && r[d] == Some(hi);
    assert s[c] == Some(Shift(lo, a, b)) && s[d] == Some(Shift(hi, a, b));
    forall e | 0 <= e < |r| && s[e].Some? ensures Shift(lo, a, b) <= s[e].value <= Shift(hi, a, b) {
      ShiftMonotone(lo, r[e].value, a, b);
      ShiftMonotone(r[e].value, hi, a, b);
    }
    assert IsLeast(s, Shift(lo, a, b));
    assert IsGreatest(s, Shift(hi, a, b));
    LeastUnique(s, Minimum(s).value, Shift(lo, a, b));
    GreatestUnique(s, Maximum(s).value, Shift(hi, a, b));
  }

  lemma LeastUnique(r: Surface, u: real, v: real)
    requires IsLeast(r, u) && IsLeast(r, v)
    ensures u == v
  {
    var c :| 0 <= c < |r| && r[c] == Some(u);
    var d :| 0 <= d < |r| && r[d] == Some(v);
    assert v <= r[c].value && u <= r[d].value;
  }

  lemma GreatestUnique(r: Surface, u: real, v: real)
    requires IsGreatest(r, u) && IsGreatest(r, v)
    ensures u == v
  {
    var c :| 0 <= c < |r| && r[c] == Some(u);
    var d :| 0 <= d < |r| && r[d] == Some(v);
    assert r[c].value <= v && r[d].value <= u;
  }

  /** Rescaling ignores the units a surface is in: a positive scaling and a shift give the same result. */
  lemma RescaledAffineInvariant(r: Surface, a: real, b: real)
    requires a > 0.0 && Spread(r)
    ensures Spread(Affine(r, a, b))
    ensures Rescaled(Affine(r, a, b)) == Rescaled(r)
  {
    var s := Affine(r, a, b);
    AffineStatistics(r, a, b);
    var lo, hi := Minimum(r).value, Maximum(r).value;
    UnitShift(lo, lo, hi, a, b);
    var n, m := Rescaled(s), Rescaled(r);
    forall c | 0 <= c < |r| ensures n[c] == m[c] {
      if r[c].Some? {
        UnitShift(r[c].value, lo, hi, a, b);
      }
    }
  }

  /** One cell of the product. */
  function Mul(x: real, y: real): real {
    x * y
  }

  /** Line 69: the cell-wise product, NoData where either surface is NoData. */
  function Product(f: Surface, g: Surface): (p: Surface)
    requires |f| == |g|
    ensures |p| == |f| && forall c :: 0 <= c < |f| ==> (p[c].Some? <==> f[c].Some? && g[c].Some?)
    ensures forall c :: 0 <= c < |f| && f[c].Some? && g[c].Some? ==> p[c] == Some(Mul(f[c].value, g[c].value))
  {
    seq(|f|, c requires 0 <= c < |f| => if f[c].Some? && g[c].Some? then Some(Mul(f[c].value, g[c].value)) else None)
  }

  /** The product does not depend on the order of its factors, and a 0 in either gives 0. */
  lemma ProductProperties(f: Surface, g: Surface)
    requires |f| == |g|
    ensures Product(f, g) == Product(g, f)
    ensures forall c :: 0 <= c < |f| && f[c] == Some(0.0) && g[c].Some? ==> Product(f, g)[c] == Some(0.0)
    ensures forall c :: 0 <= c < |f| && g[c] == Some(0.0) && f[c].Some? ==> Product(f, g)[c] == Some(0.0)
  {
    var p, q := Product(f, g), Product(g, f);
    forall c | 0 <= c < |f| ensures p[c] == q[c] {
      if f[c].Some? && g[c].Some? {
        assert Mul(f[c].value, g[c].value) == Mul(g[c].value, f[c].value);
      }
    }
  }

  lemma UnitProduct(a: real, b: real)
    requires 0.0 <= a <= 1.0 && 0.0 <= b <= 1.0
    ensures 0.0 <= Mul(a, b) <= 1.0
  {
    MulNonnegative(a, b);
    MulNonnegative(a, 1.0 - b);
  }

  /** Every data cell of `r` lies in 0..1. */
  predicate InUnitRange(r: Surface) {
    forall c :: 0 <= c < |r| && r[c].Some? ==> 0.0 <= r[c].value <= 1.0
  }

  lemma ProductInUnitRange(f: Surface, g: Surface)
    requires |f| == |g| && InUnitRange(f) && InUnitRange(g)
    ensures InUnitRange(Product(f, g))
  {
    var p := Product(f, g);
    forall c | 0 <= c < |f| && p[c].Some? ensures 0.0 <= p[c].value <= 1.0 {
      UnitProduct(f[c].value, g[c].value);
    }
  }

  /** Lines 57-69: both surfaces rescaled with their own statistics, then multiplied. */
  function FloodMar(flood: Surface, recharge: Surface): (r: Surface)
    requires |flood| == |recharge| && Spread(flood) && Spread(recharge)
    ensures |r| == |flood|
    ensures forall c :: 0 <= c < |r| ==> (r[c].Some? <==> flood[c].Some? && recharge[c].Some?)
    ensures InUnitRange(r)
  {
    RescaledRange(flood);
    RescaledRange(recharge);
    ProductInUnitRange(Rescaled(flood), Rescaled(recharge));
    Product(Rescaled(flood), Rescaled(recharge))
  }

  /**
   * The Flood-MAR surface is the same with the surfaces swapped, is 0 where
   * the flooding surface is at its minimum, is 1 where both are at their
   * maximum, and does not change when the flooding surface is rescaled
   * positively (by symmetry, neither when the recharge surface is).
   */
  lemma FloodMarProperties(flood: Surface, recharge: Surface, a: real, b: real)
    requires |flood| == |recharge| && Spread(flood) && Spread(recharge) && a > 0.0
    ensures FloodMar(flood, recharge) == FloodMar(recharge, flood)
    ensures forall c :: 0 <= c < |flood| && flood[c] == Minimum(flood) && recharge[c].Some? ==>
      FloodMar(flood, recharge)[c] == Some(0.0)
    ensures forall c :: 0 <= c < |flood| && flood[c] == Maximum(flood) && recharge[c] == Maximum(recharge) ==>
      FloodMar(flood, recharge)[c] == Some(1.0)
    ensures Spread(Affine(flood, a, b)) && FloodMar(Affine(flood, a, b), recharge) == FloodMar(flood, recharge)
  {
    ProductProperties(Rescaled(flood), Rescaled(recharge));
    RescaledRange(flood);
    RescaledRange(recharge);
    RescaledAffineInvariant(flood, a, b);
  }
}
