/** Exchange arithmetic: integer amounts multiplied by rational prices.
    Models libraries/chain/protocol/asset.cpp. */
module Options {
  datatype Option<+T> = None | Some(value: T) {
    predicate IsFailure() { None? }

    function PropagateFailure<U>(): Option<U>
      requires None?
    {
      None
    }

    function Extract(): T
      requires Some?
    {
      value
    }
  }
}

module Prices {
  import opened Options

  type AssetId = nat

  const CORE: AssetId := 0

  /// GRAPHENE_MAX_SHARE_SUPPLY
  const MAX_SHARE_SUPPLY: nat := 1_000_000_000_000_000

  /// GRAPHENE_COLLATERAL_RATIO_DENOM
  const RATIO_DENOM: nat := 1000

  /// GRAPHENE_100_PERCENT
  const HUNDRED_PERCENT: nat := 10_000

  datatype Asset = Asset(amount: nat, id: AssetId)

  /// A rate of exchange, base per quote; never kept in lowest terms.
  datatype Price = Price(base: Asset, quote: Asset) {
    /// What price::validate demands.
    predicate Valid() {
      base.amount > 0 && quote.amount > 0 && base.id != quote.id
    }

    function Inverse(): Price {
      Price(quote, base)
    }
  }

  /// a * num / den, rounded down.
  function FloorMul(a: nat, num: nat, den: nat): nat
    requires den > 0
  {
    a * num / den
  }

  /// a * num / den, rounded up, the way multiply_and_round_up computes it.
  function CeilMul(a: nat, num: nat, den: nat): nat
    requires den > 0
  {
    (a * num + den - 1) / den
  }

  lemma DivisionBounds(x: nat, d: nat)
    requires d > 0
    ensures x / d * d <= x < x / d * d + d
  {
    assert x == x / d * d + x % d;
  }

  lemma ProductMonotone(q: nat, r: nat, d: nat)
    requires q <= r
    ensures q * d <= r * d
  {
    var k := r - q;
    assert (q + k) * d == q * d + k * d;
  }

  lemma ProductLess(q: nat, r: nat, d: nat)
    ensures q < r ==> q * d + d <= r * d
  {
    if q < r {
      ProductMonotone(q + 1, r, d);
      assert (q + 1) * d == q * d + d;
    }
  }

  /** The rounded-down product is the greatest amount worth at most `a`. */
  lemma FloorIsGreatest(a: nat, num: nat, den: nat, r: nat)
    requires den > 0
    ensures r <= FloorMul(a, num, den) <==> r * den <= a * num
  {
    var q := FloorMul(a, num, den);
    DivisionBounds(a * num, den);
    if r <= q { ProductMonotone(r, q, den); } else { ProductLess(q, r, den); }
  }

  /** The rounded-up product is the least amount worth at least `a`. */
  lemma CeilIsLeast(a: nat, num: nat, den: nat, r: nat)
    requires den > 0
    ensures CeilMul(a, num, den) <= r <==> a * num <= r * den
  {
    var q := CeilMul(a, num, den);
    DivisionBounds(a * num + den - 1, den);
    if q <= r { ProductMonotone(q, r, den); } else { ProductLess(r, q, den); }
  }

  /** Rounding up one way and rounding down the other way are a Galois
      connection.  Every "stabilization" step of the market code rests on it. */
  lemma RoundingGalois(cover: nat, pay: nat, num: nat, den: nat)
    requires num > 0 && den > 0
    ensures CeilMul(cover, num, den) <= pay <==> cover <= FloorMul(pay, den, num)
  {
    CeilIsLeast(cover, num, den, pay);
    FloorIsGreatest(pay, den, num, cover);
  }

  lemma CeilMonotone(c: nat, c': nat, num: nat, den: nat)
    requires den > 0 && c <= c'
    ensures CeilMul(c, num, den) <= CeilMul(c', num, den)
  {
    CeilIsLeast(c, num, den, CeilMul(c', num, den));
    CeilIsLeast(c', num, den, CeilMul(c', num, den));
    ProductMonotone(c, c', num);
  }

  lemma FloorMonotone(p: nat, p': nat, num: nat, den: nat)
    requires den > 0 && p <= p'
    ensures FloorMul(p, num, den) <= FloorMul(p', num, den)
  {
    FloorIsGreatest(p, num, den, FloorMul(p, num, den));
    FloorIsGreatest(p', num, den, FloorMul(p, num, den));
    ProductMonotone(p, p', num);
  }

  /// x1/y1 <= x2/y2 <= x3/y3
  lemma FractionsTransitive(x1: nat, y1: nat, x2: nat, y2: nat, x3: nat, y3: nat)
    requires y1 > 0 && y2 > 0 && y3 > 0
    requires x1 * y2 <= x2 * y1 && x2 * y3 <= x3 * y2
    ensures x1 * y3 <= x3 * y1
    ensures x1 * y2 < x2 * y1 || x2 * y3 < x3 * y2 ==> x1 * y3 < x3 * y1
  {
    // both sides times y2
    Regroup(x1, y2, y3);
    Regroup(x2, y1, y3);
    Regroup(x3, y2, y1);
    ProductMonotone(x1 * y2, x2 * y1, y3);
    ProductMonotone(x2 * y3, x3 * y2, y1);
    ProductLess(x1 * y2, x2 * y1, y3);
    ProductLess(x2 * y3, x3 * y2, y1);
    if x3 * y1 <= x1 * y3 {
      ProductMonotone(x3 * y1, x1 * y3, y2);
      ProductLess(x3 * y1, x1 * y3, y2);
    }
  }

  /// x/y == p/q
  lemma SameComparison(x: nat, y: nat, p: nat, q: nat, u: nat, v: nat)
    requires y > 0 && q > 0 && v > 0 && x * q == p * y
    ensures x * v < u * y <==> p * v < u * q
  {
    if x * v < u * y { FractionsTransitive(p, q, x, y, u, v); }
    if p * v < u * q { FractionsTransitive(x, y, p, q, u, v); }
  }

  /// asset * price: converts whichever side matches, rounding down; throws on
  /// a zero divisor, a foreign asset or a result above the share supply.
  function Times(a: Asset, p: Price): (r: Option<Asset>)
  {
    if a.id == p.base.id then
      if p.base.amount == 0 then None
      else Bounded(FloorMul(a.amount, p.quote.amount, p.base.amount), p.quote.id)
    else if a.id == p.quote.id then
      if p.quote.amount == 0 then None
      else Bounded(FloorMul(a.amount, p.base.amount, p.quote.amount), p.base.id)
    else None
  }

  /// asset::multiply_and_round_up.
  function TimesUp(a: Asset, p: Price): (r: Option<Asset>)
  {
    if a.id == p.base.id then
      if p.base.amount == 0 then None
      else Bounded(CeilMul(a.amount, p.quote.amount, p.base.amount), p.quote.id)
    else if a.id == p.quote.id then
      if p.quote.amount == 0 then None
      else Bounded(CeilMul(a.amount, p.base.amount, p.quote.amount), p.base.id)
    else None
  }

  /** `asset * price` is the greatest amount of the other asset worth no more than the asset,
      whichever side of the price it is on; it throws when that exceeds the share supply. */
  lemma TimesIsGreatest(a: Asset, p: Price, v: nat)
    requires p.Valid() && (a.id == p.base.id || a.id == p.quote.id)
    ensures
      var (from, to) := if a.id == p.base.id then (p.base, p.quote) else (p.quote, p.base);
      && (Times(a, p).None? <==> (MAX_SHARE_SUPPLY + 1) * from.amount <= a.amount * to.amount)
      && (Times(a, p).Some? ==>
            Times(a, p).value.id == to.id && (v <= Times(a, p).value.amount <==> v * from.amount <= a.amount * to.amount))
  {
    hide FloorMul;
    var (from, to) := if a.id == p.base.id then (p.base, p.quote) else (p.quote, p.base);
    FloorIsGreatest(a.amount, to.amount, from.amount, v);
    FloorIsGreatest(a.amount, to.amount, from.amount, MAX_SHARE_SUPPLY + 1);
  }

  /** Rounded up it is the least amount worth at least the asset. */
  lemma TimesUpIsLeast(a: Asset, p: Price, v: nat)
    requires p.Valid() && (a.id == p.base.id || a.id == p.quote.id)
    ensures
      var (from, to) := if a.id == p.base.id then (p.base, p.quote) else (p.quote, p.base);
      && (TimesUp(a, p).None? <==> MAX_SHARE_SUPPLY * from.amount < a.amount * to.amount)
      && (TimesUp(a, p).Some? ==>
            TimesUp(a, p).value.id == to.id && (TimesUp(a, p).value.amount <= v <==> a.amount * to.amount <= v * from.amount))
  {
    hide CeilMul;
    var (from, to) := if a.id == p.base.id then (p.base, p.quote) else (p.quote, p.base);
    CeilIsLeast(a.amount, to.amount, from.amount, v);
    CeilIsLeast(a.amount, to.amount, from.amount, MAX_SHARE_SUPPLY);
  }

  function Bounded(amount: nat, id: AssetId): Option<Asset> {
    if amount <= MAX_SHARE_SUPPLY then Some(Asset(amount, id)) else None
  }

  /// a < b for prices of the same pair of assets.
  predicate Less(a: Price, b: Price) {
    b.quote.amount * a.base.amount < a.quote.amount * b.base.amount
  }

  // ------------------------------------------------------------------
  // price * ratio

  /// Euclid's algorithm, as boost::rational normalises.
  function Gcd(a: nat, b: nat): (g: nat)
    requires a > 0
    ensures 0 < g <= a && (b > 0 ==> g <= b)
    decreases b
  {
    if b == 0 then a
    else if a % b == 0 then
      assert b <= a by { DivisionBounds(a, b); ProductLess(a / b, 1, b); }
      b
    else
      assert a % b <= a by { DivisionBounds(a, b); }
      Gcd(b, a % b)
  }

  lemma {:induction false} GcdDivides(a: nat, b: nat)
    requires a > 0
    ensures a % Gcd(a, b) == 0 && b % Gcd(a, b) == 0
    decreases b
  {
    if b != 0 && a % b != 0 {
      GcdDivides(b, a % b);
      DividesSum(a / b, b, a % b, Gcd(a, b));
      assert a == a / b * b + a % b;
    } else if b != 0 {
      assert b % b == 0 by { MultipleHasNoRemainder(1, b); }
    } else {
      assert a % a == 0 by { MultipleHasNoRemainder(1, a); }
    }
  }

  lemma DividesSum(q: nat, b: nat, r: nat, g: nat)
    requires g > 0 && b % g == 0 && r % g == 0
    ensures (q * b + r) % g == 0
  {
    var x, y := b / g, r / g;
    assert q * b + r == (q * x + y) * g by {
      assert b == x * g && r == y * g;
      assert q * (x * g) == (q * x) * g;
    }
    MultipleHasNoRemainder(q * x + y, g);
  }

  lemma MultipleHasNoRemainder(k: nat, g: nat)
    requires g > 0
    ensures (k * g) % g == 0
  {
    DivisionBounds(k * g, g);
    var q := k * g / g;
    ProductLess(q, k, g);
    ProductLess(k, q, g);
    assert q == k;
  }

  /// A positive fraction, not necessarily in lowest terms.
  datatype Fraction = Fraction(num: nat, den: nat) {
    predicate Positive() { num > 0 && den > 0 }

    predicate Fits() { num <= MAX_SHARE_SUPPLY && den <= MAX_SHARE_SUPPLY }

    predicate Same(o: Fraction) { num * o.den == o.num * den }

    function Reduce(): (r: Fraction)
      requires Positive()
      ensures r.Positive() && r.num <= num && r.den <= den
    {
      var g := Gcd(num, den);
      QuotientBounds(num, g);
      QuotientBounds(den, g);
      Fraction(num / g, den / g)
    }
  }

  lemma QuotientBounds(x: nat, g: nat)
    requires 0 < g <= x
    ensures 1 <= x / g <= x
  {
    DivisionBounds(x, g);
    ProductMonotone(1, g, x / g);
    assert x / g * g == g * (x / g);
  }

  lemma ReduceIsExact(f: Fraction)
    requires f.Positive()
    ensures f.Reduce().Same(f)
  {
    var g := Gcd(f.num, f.den);
    GcdDivides(f.num, f.den);
    var x, y := f.num / g, f.den / g;
    assert f.num == x * g by { DividesExactly(f.num, g); }
    assert f.den == y * g by { DividesExactly(f.den, g); }
    Regroup(x, y, g);
  }

  lemma DividesExactly(n: nat, g: nat)
    requires g > 0 && n % g == 0
    ensures n == n / g * g
  {
  }

  lemma Regroup(x: int, y: int, z: int)
    ensures x * (y * z) == (x * z) * y == (x * y) * z == y * (x * z)
  {
  }

  /// The shrinking loop: halve both parts until both fit the share supply.
  function ShrinkToFit(f: Fraction): (r: Fraction)
    requires f.Positive()
    ensures r.Positive() && r.Fits()
    ensures f.Fits() ==> r == f
    decreases f.num + f.den
  {
    if f.Fits() then f
    else if f.num == 1 then Fraction(1, MAX_SHARE_SUPPLY)
    else if f.den == 1 then Fraction(MAX_SHARE_SUPPLY, 1)
    else ShrinkToFit(Fraction(f.num / 2, f.den / 2).Reduce())
  }

  predicate HalvesBeforeFitting(f: Fraction) {
    !f.Fits() && f.num != 1 && f.den != 1
  }

  /// The fallback candidate tried when halving lost precision: 1/n or n/1.
  function UnitCandidate(f: Fraction): (r: Fraction)
    requires f.Positive()
    ensures r.Positive() && r.Fits()
  {
    if f.num > f.den then
      QuotientBounds(f.num, f.den);
      Fraction(Min(f.num / f.den, MAX_SHARE_SUPPLY), 1)
    else
      QuotientBounds(f.den, f.num);
      Fraction(1, Min(f.den / f.num, MAX_SHARE_SUPPLY))
  }

  function Min(a: nat, b: nat): nat { if a <= b then a else b }

  function Max(a: nat, b: nat): nat { if a <= b then b else a }

  function Distance(a: nat, b: nat): nat { if a <= b then b - a else a - b }

  /// |a - f| < |b - f|
  predicate Closer(a: Fraction, b: Fraction, f: Fraction) {
    Distance(a.num * f.den, f.num * a.den) * b.den < Distance(b.num * f.den, f.num * b.den) * a.den
  }

  /// price * ratio.  Exact when the reduced product fits; otherwise the nearer of
  /// two approximations, and never on the wrong side of `p`.
  function Scale(p: Price, num: nat, den: nat): (r: Price)
    requires p.Valid() && num > 0 && den > 0
    ensures r.Valid() && r.base.id == p.base.id && r.quote.id == p.quote.id
  {
    if num == den then p
    else
      var exact := ScaledFraction(p, num, den);
      var shrunk := ShrinkToFit(exact);
      var unit := UnitCandidate(exact);
      var halved := HalvesBeforeFitting(exact);
      var c :=
        if !halved then shrunk
        else if unit.num == MAX_SHARE_SUPPLY || unit.den == MAX_SHARE_SUPPLY then unit
        else if Closer(unit, shrunk, exact) then unit
        else shrunk;
      var np := Price(Asset(c.num, p.base.id), Asset(c.den, p.quote.id));
      if !exact.Fits() && ((num > den && Less(np, p)) || (num < den && Less(p, np))) then p
      else np
  }

  function ScaledFraction(p: Price, num: nat, den: nat): (r: Fraction)
    requires p.Valid() && num > 0 && den > 0
    ensures r.Positive()
  {
    assert p.base.amount * num > 0 && p.quote.amount * den > 0;
    Fraction(p.base.amount * num, p.quote.amount * den).Reduce()
  }

  /// Whether price * ratio is computed without approximation.
  predicate ScalesExactly(p: Price, num: nat, den: nat)
    requires p.Valid() && num > 0 && den > 0
  {
    num == den || ScaledFraction(p, num, den).Fits()
  }

  /** When the reduced product fits, scaling is exact rational multiplication. */
  lemma ScaleExact(p: Price, num: nat, den: nat)
    requires p.Valid() && num > 0 && den > 0 && ScalesExactly(p, num, den)
    ensures var r := Scale(p, num, den);
            r.base.amount * (p.quote.amount * den) == (p.base.amount * num) * r.quote.amount
  {
    if num == den {
      assert p.base.amount * (p.quote.amount * den) == (p.base.amount * num) * p.quote.amount;
    } else {
      ReduceIsExact(Fraction(p.base.amount * num, p.quote.amount * den));
    }
  }

  /** Scaling up never lowers a price and scaling down never raises it, for
      every price and ratio, however large the intermediate products are. */
  lemma ScaleDirection(p: Price, num: nat, den: nat)
    requires p.Valid() && num > 0 && den > 0
    ensures num >= den ==> !Less(Scale(p, num, den), p)
    ensures num <= den ==> !Less(p, Scale(p, num, den))
  {
    if num != den && ScaledFraction(p, num, den).Fits() {
      var r := Scale(p, num, den);
      ScaleExact(p, num, den);
      var x, y, b, q := r.base.amount, r.quote.amount, p.base.amount, p.quote.amount;
      // x * q * den == b * num * y
      ScaledComparison(x, y, b, q, num, den);
    }
  }

  /** When halving loses precision, neither the halved fraction nor the unit fraction is nearer
      to the exact product than what is taken, unless that would be on the wrong side. */
  lemma ScaleIsNearest(p: Price, num: nat, den: nat)
    requires p.Valid() && num > 0 && den > 0 && num != den && HalvesBeforeFitting(ScaledFraction(p, num, den))
    requires var unit := UnitCandidate(ScaledFraction(p, num, den)); unit.num != MAX_SHARE_SUPPLY && unit.den != MAX_SHARE_SUPPLY
    ensures
      var exact, r := ScaledFraction(p, num, den), Scale(p, num, den);
      var taken := Fraction(r.base.amount, r.quote.amount);
      r == p || (!Closer(UnitCandidate(exact), taken, exact) && !Closer(ShrinkToFit(exact), taken, exact))
  {
    hide ShrinkToFit;
    hide UnitCandidate;
    hide ScaledFraction;
    hide Distance;
  }

  lemma ScaledComparison(x: nat, y: nat, b: nat, q: nat, num: nat, den: nat)
    requires num > 0 && den > 0
    requires x * (q * den) == (b * num) * y
    ensures num >= den ==> q * x >= y * b
    ensures num <= den ==> y * b >= q * x
  {
    assert (q * x) * den == (y * b) * num by {
      assert x * (q * den) == (q * x) * den;
      assert (b * num) * y == (y * b) * num;
    }
    if den <= num { CrossComparison(q * x, y * b, den, num); }
    if num <= den { CrossComparison(y * b, q * x, num, den); }
  }

  lemma CrossComparison(l: nat, m: nat, c: nat, d: nat)
    requires 0 < c <= d && l * c == m * d
    ensures l >= m
  {
    if l < m {
      ProductLess(l, m, c);
      ProductMonotone(c, d, m);
    }
  }
}
