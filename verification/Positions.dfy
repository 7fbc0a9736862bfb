/** Margin positions in the order of their collateralization, and which of them the
    market may call. */
module Positions {
  import opened Options
  import opened Prices
  import opened MarginCall
  import opened MarketState
  import opened OrderBook

  type Calls = map<(Account, AssetId), CallOrder>

  /// Not above the maintenance collateralization.
  predicate Called(feed: Feed, c: CallOrder)
    requires feed.price.Valid() && feed.mcr > 0
  {
    !Less(feed.Maintenance(), c.Collateralization())
  }

  /// Sells debt for collateral at the squeeze price or better.
  predicate Squeezes(feed: Feed, o: LimitOrder)
    requires feed.price.Valid() && feed.mssr > 0
  {
    && o.price.base.id == feed.price.base.id && o.price.quote.id == feed.price.quote.id
    && !Less(o.price, feed.SqueezePrice())
  }

  lemma LessMeans(a: Price, b: Price)
    ensures Less(a, b) <==> b.quote.amount * a.base.amount < a.quote.amount * b.base.amount
  {
  }

  /** In plain amounts, where the ratio is not approximated: a position is called when its
      collateral is worth no more than `mcr` thousandths of its debt. */
  lemma CalledMeans(feed: Feed, c: CallOrder)
    requires feed.price.Valid() && feed.mcr > 0 && feed.mssr > 0 && c.debt.amount > 0
    requires ScalesExactly(feed.price.Inverse(), feed.mcr, RATIO_DENOM)
    ensures Called(feed, c) <==>
      c.collateral.amount * (feed.price.base.amount * RATIO_DENOM) <= (feed.price.quote.amount * feed.mcr) * c.debt.amount
  {
    hide Scale;
    hide ScalesExactly;
    var m := feed.Maintenance();
    FeedRatios(feed);
    SameComparison(m.base.amount, m.quote.amount, feed.price.quote.amount * feed.mcr, feed.price.base.amount * RATIO_DENOM,
                   c.collateral.amount, c.debt.amount);
  }

  /** An order squeezes when it asks no more than `mssr` thousandths of the feed for debt. */
  lemma SqueezesMeans(feed: Feed, o: LimitOrder)
    requires feed.price.Valid() && feed.mcr > 0 && feed.mssr > 0 && o.price.Valid()
    requires ScalesExactly(feed.price, RATIO_DENOM, feed.mssr)
    requires o.price.base.id == feed.price.base.id && o.price.quote.id == feed.price.quote.id
    ensures Squeezes(feed, o) <==>
      o.price.quote.amount * (feed.price.base.amount * RATIO_DENOM) <= (feed.price.quote.amount * feed.mssr) * o.price.base.amount
  {
    hide Scale;
    hide ScalesExactly;
    hide Less;
    var q := feed.SqueezePrice();
    assert Squeezes(feed, o) <==> !(q.quote.amount * o.price.base.amount < o.price.quote.amount * q.base.amount) by { LessMeans(o.price, q); }
    hide Squeezes;
    FeedRatios(feed);
    SameComparison(q.quote.amount, q.base.amount, feed.price.quote.amount * feed.mssr, feed.price.base.amount * RATIO_DENOM,
                   o.price.quote.amount, o.price.base.amount);
  }

  /// Margin calls are made for this asset.
  predicate Callable(s: State, a: AssetId) {
    && s.MarketIssued(a) && !s.Settled(a)
    && !s.assets[a].bitasset.value.predictionMarket && s.assets[a].bitasset.value.feed.Some?
  }

  ghost predicate FeedsValid(s: State) {
    forall a <- s.assets :: s.MarketIssued(a) && s.assets[a].bitasset.value.feed.Some? ==>
      s.assets[a].bitasset.value.feed.value.Valid(a, s.assets[a].bitasset.value.backing)
  }

  /// No order but those excepted could fill a position that may be called.
  ghost predicate NoneCallable(s: State, a: AssetId, except: set<nat>)
    requires FeedsValid(s)
  {
    Callable(s, a) && a !in s.revived ==>
      var feed := s.assets[a].bitasset.value.feed.value;
      forall k <- s.calls, i <- s.limits ::
        k.1 == a && i !in except && Squeezes(feed, s.limits[i]) ==> !Called(feed, s.calls[k])
  }

  /** Positions are ordered by collateralization. */
  lemma LeastIsLeast(c: CallOrder, d: CallOrder, e: CallOrder)
    requires c.debt.amount > 0 && d.debt.amount > 0 && e.debt.amount > 0
    requires !Less(d.Collateralization(), c.Collateralization()) && !Less(e.Collateralization(), d.Collateralization())
    ensures !Less(e.Collateralization(), c.Collateralization())
  {
    FractionsTransitive(c.collateral.amount, c.debt.amount, d.collateral.amount, d.debt.amount, e.collateral.amount, e.debt.amount);
  }

  /** Below a position that is not called, none is. */
  lemma NotCalledAbove(feed: Feed, c: CallOrder, d: CallOrder)
    requires feed.price.Valid() && feed.mcr > 0 && c.debt.amount > 0 && d.debt.amount > 0
    requires !Called(feed, c) && !Less(d.Collateralization(), c.Collateralization())
    ensures !Called(feed, d)
  {
    var m := feed.Maintenance();
    FractionsTransitive(m.base.amount, m.quote.amount, c.collateral.amount, c.debt.amount, d.collateral.amount, d.debt.amount);
  }

  /** An order ahead of a squeezing order squeezes as well. */
  lemma SqueezesAhead(feed: Feed, o: LimitOrder, p: LimitOrder)
    requires feed.price.Valid() && feed.mssr > 0 && o.price.Valid() && p.price.Valid()
    requires SameMarket(o, p) && !Less(o.price, p.price) && Squeezes(feed, p)
    ensures Squeezes(feed, o)
  {
    var q := feed.SqueezePrice();
    FractionsTransitive(o.price.quote.amount, o.price.base.amount, p.price.quote.amount, p.price.base.amount, q.quote.amount, q.base.amount);
  }

  /// The position margin calls and settlements turn to first.
  method LeastCollateralized(m: Calls, a: AssetId) returns (r: Option<(Account, AssetId)>)
    requires forall k <- m :: m[k].debt.amount > 0
    ensures r.Some? ==>
      && r.value in m && r.value.1 == a
      && forall k <- m :: k.1 == a ==> !Less(m[k].Collateralization(), m[r.value].Collateralization())
    ensures r.None? ==> forall k <- m :: k.1 != a
  {
    r := None;
    var todo := m.Keys;
    while todo != {}
      invariant todo <= m.Keys
      invariant r.Some? ==>
        && r.value in m && r.value.1 == a
        && forall k <- m :: k !in todo && k.1 == a ==> !Less(m[k].Collateralization(), m[r.value].Collateralization())
      invariant r.None? ==> forall k <- m :: k !in todo ==> k.1 != a
      decreases |todo|
    {
      var k :| k in todo;
      todo := todo - {k};
      if k.1 == a {
        if r.None? {
          r := Some(k);
        } else if Less(m[k].Collateralization(), m[r.value].Collateralization()) {
          forall j <- m | j !in todo && j.1 == a ensures !Less(m[j].Collateralization(), m[k].Collateralization()) {
            if j != k {
              LeastIsLeast(m[k], m[r.value], m[j]);
            }
          }
          r := Some(k);
        }
      }
    }
  }

  /// Trades among orders that leave the positions alone expose no position.
  lemma NoneCallableShrinks(s: State, t: State, a: AssetId, except: set<nat>)
    requires FeedsValid(s) && SameSetup(s, t) && NoneCallable(s, a, except)
    requires Shrinks(s.limits, t.limits) && (a in s.revived ==> a in t.revived)
    requires forall k <- t.calls :: k.1 == a ==> k in s.calls && t.calls[k] == s.calls[k]
    ensures FeedsValid(t) && NoneCallable(t, a, except)
  {
    SameFeeds(s, t);
  }

  lemma SameFeeds(s: State, t: State)
    requires FeedsValid(s) && SameSetup(s, t)
    ensures FeedsValid(t)
    ensures forall a <- s.assets :: s.assets[a].bitasset == t.assets[a].bitasset
    ensures forall a :: Callable(s, a) == Callable(t, a)
  {
    forall a <- s.assets ensures s.assets[a].bitasset == t.assets[a].bitasset {
      assert s.assets[a].Setup().bitasset == t.assets[a].Setup().bitasset;
    }
  }

  /** As long as a position is called, no other order can have been squeezing, so
      whatever a match does to the positions, no other order meets them. */
  lemma NoOtherSqueezes(s: State, t: State, a: AssetId, id: nat, key: (Account, AssetId))
    requires FeedsValid(s) && SameSetup(s, t) && NoneCallable(s, a, {id}) && Callable(s, a) && t.revived == s.revived
    requires key in s.calls && key.1 == a && Called(s.assets[a].bitasset.value.feed.value, s.calls[key])
    requires Shrinks(s.limits, t.limits)
    ensures FeedsValid(t) && NoneCallable(t, a, {id})
  {
    SameFeeds(s, t);
    var feed := s.assets[a].bitasset.value.feed.value;
    if a !in s.revived {
      forall i <- t.limits | i != id ensures !Squeezes(feed, t.limits[i]) {
        assert t.limits[i].price == s.limits[i].price;
      }
    }
  }
}
