/** The amounts that change hands in a match, and what rounding does to them
    (database::match in db_market.cpp). */
module Trades {
  import opened Prices

  /// What the taker pays and receives.  `TakerFilled` when the taker is the smaller
  /// side and rounding favours the maker, `MakerFilled` the other way round;
  /// `Dust` when the taker's rest buys nothing at the match price.
  datatype Trade = Dust | TakerFilled(pays: nat, receives: nat) | MakerFilled(pays: nat, receives: nat)

  /// A taker with `t` meets a maker with `m`, at `b` units of the maker's asset for
  /// `q` units of the taker's.
  function LimitTrade(t: nat, m: nat, b: nat, q: nat): Trade
    requires b > 0 && q > 0
  {
    if t <= FloorMul(m, q, b) then
      var r := FloorMul(t, b, q);
      if r == 0 then Dust else TakerFilled(CeilMul(r, q, b), r)
    else
      var p := FloorMul(m, q, b);
      MakerFilled(p, CeilMul(p, b, q))
  }

  /// A taker with `t` meets a position that may buy up to `m`, at `b` units of
  /// collateral for `q` units of debt.
  function CallTrade(t: nat, m: nat, b: nat, q: nat): Trade
    requires b > 0 && q > 0
  {
    if m > t then
      var r := FloorMul(t, b, q);
      if r == 0 then Dust else TakerFilled(CeilMul(r, q, b), r)
    else
      MakerFilled(m, CeilMul(m, b, q))
  }

  /// In plain amounts: `t` for sale meets `m`, at `b` units of the second asset for `q` of
  /// the first.  The smaller side gets all it can buy and pays the least that buys it.
  predicate FairTrade(t: nat, m: nat, b: nat, q: nat, pays: nat, receives: nat) {
    if t * b <= m * q then
      receives * q <= t * b < (receives + 1) * q && receives * q <= pays * b < receives * q + b
    else
      pays * b <= m * q < (pays + 1) * b && pays * b <= receives * q < pays * b + q
  }

  /// The same when up to `m` of the asset for sale is wanted.
  predicate FairCover(t: nat, m: nat, b: nat, q: nat, pays: nat, receives: nat) {
    if m > t then
      receives * q <= t * b < (receives + 1) * q && receives * q <= pays * b < receives * q + b
    else
      pays == m && m * b <= receives * q < m * b + q
  }

  /** The trade is fair at exactly this price; it is dust when a fair one gives nothing. */
  lemma LimitTradeIsFair(t: nat, m: nat, b: nat, q: nat)
    requires b > 0 && q > 0
    ensures var trade := LimitTrade(t, m, b, q);
      if trade.Dust? then FairTrade(t, m, b, q, 0, 0) else FairTrade(t, m, b, q, trade.pays, trade.receives)
    ensures LimitTrade(t, m, b, q).Dust? <==> t * b <= m * q && t * b < q
  {
    hide FloorMul;
    hide CeilMul;
    var r, p := FloorMul(t, b, q), FloorMul(m, q, b);
    FloorIsGreatest(m, q, b, t);
    FloorIsGreatest(t, b, q, 1);
    FloorBounds(t, b, q);
    FloorBounds(m, q, b);
    CeilBounds(r, q, b);
    CeilBounds(p, b, q);
    assert (r + 1) * q == r * q + q && (p + 1) * b == p * b + b;
  }

  lemma CallTradeIsFair(t: nat, m: nat, b: nat, q: nat)
    requires b > 0 && q > 0
    ensures var trade := CallTrade(t, m, b, q);
      if trade.Dust? then FairCover(t, m, b, q, 0, 0) else FairCover(t, m, b, q, trade.pays, trade.receives)
    ensures CallTrade(t, m, b, q).Dust? <==> m > t && t * b < q
  {
    hide FloorMul;
    hide CeilMul;
    var r := FloorMul(t, b, q);
    FloorIsGreatest(t, b, q, 1);
    FloorBounds(t, b, q);
    CeilBounds(r, q, b);
    CeilBounds(m, b, q);
    assert (r + 1) * q == r * q + q;
  }

  lemma CeilBounds(a: nat, num: nat, den: nat)
    requires num > 0 && den > 0
    ensures a * num <= CeilMul(a, num, den) * den < a * num + den
    ensures a > 0 ==> CeilMul(a, num, den) > 0
  {
    DivisionBounds(a * num + den - 1, den);
    if a > 0 { ProductMonotone(1, a, num); }
  }

  lemma FloorBounds(a: nat, num: nat, den: nat)
    requires den > 0
    ensures FloorMul(a, num, den) * den <= a * num < FloorMul(a, num, den) * den + den
  {
    DivisionBounds(a * num, den);
  }

  /** Whoever is filled pays the least amount that still buys what it gets, gets the
      most its whole offer can buy, and keeps too little to buy anything more. */
  lemma SmallerSideIsFilled(x: nat, b: nat, q: nat)
    requires b > 0 && q > 0
    ensures var got := FloorMul(x, b, q);
            var paid := CeilMul(got, q, b);
            && paid <= x
            && FloorMul(paid, b, q) == got
            && FloorMul(x - paid, b, q) == 0
            && (forall p: nat :: FloorMul(p, b, q) >= got ==> p >= paid)
            && got * q <= paid * b < got * q + b
            && (got > 0 ==> paid > 0)
  {
    hide FloorMul;
    hide CeilMul;
    var got := FloorMul(x, b, q);
    var paid := CeilMul(got, q, b);
    RoundingGalois(got, x, q, b);
    RoundingGalois(got, paid, q, b);
    FloorMonotone(paid, x, b, q);
    CeilBounds(got, q, b);
    assert FloorMul(x - paid, b, q) == 0 by {
      FloorBounds(x, b, q);
      FloorIsGreatest(x - paid, b, q, 1);
      assert (x - paid) * b == x * b - paid * b;
    }
    forall p: nat | FloorMul(p, b, q) >= got ensures p >= paid {
      RoundingGalois(got, p, q, b);
    }
  }

  /** Nothing is traded for nothing, nobody pays more than is for sale, and one side
      is left with less than the match price can turn into anything. */
  lemma TradeWithinOffers(t: nat, m: nat, b: nat, q: nat)
    requires t > 0 && b > 0 && q > 0 && FloorMul(m, q, b) > 0
    ensures match LimitTrade(t, m, b, q)
            case Dust => FloorMul(t, b, q) == 0
            case TakerFilled(p, r) =>
              && 0 < p <= t && 0 < r <= m && FloorMul(t - p, b, q) == 0
              && r * q <= p * b < r * q + b
            case MakerFilled(p, r) =>
              && 0 < p < t && 0 < r <= m && FloorMul(m - r, q, b) == 0
              && p * b <= r * q < p * b + q
  {
    SmallerSideIsFilled(t, b, q);
    SmallerSideIsFilled(m, q, b);
    if t <= FloorMul(m, q, b) {
      var r := FloorMul(t, b, q);
      FloorMonotone(t, FloorMul(m, q, b), b, q);
      BackAndForth(m, q, b);
    }
  }

  lemma BackAndForth(m: nat, num: nat, den: nat)
    requires num > 0 && den > 0
    ensures FloorMul(FloorMul(m, num, den), den, num) <= m
  {
    var x := FloorMul(m, num, den);
    FloorIsGreatest(m, num, den, x);
    FloorIsGreatest(x, den, num, m + 1);
    assert (m + 1) * num == m * num + num;
  }

  /** The same for a position: it never buys more than it may, and when the taker is
      the smaller side the taker is used up. */
  lemma CallTradeWithinOffers(t: nat, m: nat, b: nat, q: nat)
    requires t > 0 && b > 0 && q > 0
    ensures match CallTrade(t, m, b, q)
            case Dust => FloorMul(t, b, q) == 0
            case TakerFilled(p, r) =>
              && 0 < p <= t && p < m && 0 < r && FloorMul(t - p, b, q) == 0
              && r * q <= p * b < r * q + b
            case MakerFilled(p, r) =>
              && p == m <= t && p * b <= r * q < p * b + q && (m > 0 ==> r > 0)
  {
    SmallerSideIsFilled(t, b, q);
    CeilBounds(m, b, q);
  }

  /** At a price no better than the match price, dust stays dust. */
  lemma DustAtOwnPrice(x: nat, b: nat, q: nat, base: nat, quote: nat)
    requires b > 0 && q > 0 && base > 0 && quote > 0
    requires quote * q <= base * b && FloorMul(x, b, q) == 0
    ensures FloorMul(x, quote, base) == 0
  {
    FloorIsGreatest(x, b, q, 1);
    FloorIsGreatest(x, quote, base, 1);
    assert x * b < q;
    // so x * quote * b < quote * q <= base * b
    ProductLess(x * b, q, quote);
    Regroup(x, quote, b);
    if base <= x * quote {
      ProductMonotone(base, x * quote, b);
      assert false;
    }
  }
}
