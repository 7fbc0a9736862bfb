/** Placing an order on the book: database::apply_order in db_market.cpp. */
module Orders {
  import opened Options
  import opened Prices
  import opened MarginCall
  import opened MarketState
  import opened MarketDatabase
  import opened OrderBook
  import opened Trades
  import opened Positions
  import opened Matching

  function FeedOf(s: State, a: AssetId): (feed: Feed)
    requires Callable(s, a) && FeedsValid(s)
    ensures feed.Valid(a, s.assets[a].bitasset.value.backing)
  {
    s.assets[a].bitasset.value.feed.value
  }

  /// The position has no target ratio, or the feed's price can be multiplied by the
  /// ratios it is judged by without losing precision.
  predicate ExactFor(feed: Feed, c: CallOrder)
    requires feed.price.Valid() && feed.mcr > 0
  {
    || c.targetRatio.None?
    || (ScalesExactly(feed.price.Inverse(), feed.mcr, RATIO_DENOM)
        && ScalesExactly(feed.price.Inverse(), EffectiveRatio(c, feed.mcr), RATIO_DENOM))
  }

  /// A match of the position at this price trades nothing, for ever.
  predicate Idles(c: CallOrder, matchPrice: Price, feed: Feed) {
    && c.Valid() && matchPrice.Valid() && feed.price.Valid() && feed.mcr > 0
    && c.targetRatio.Some? && CoversNothing(c, matchPrice, feed.price, feed.mcr)
  }

  /// Some called position of the asset idles at the squeeze price.
  ghost predicate Jams(s: State, a: AssetId) {
    && Callable(s, a) && FeedsValid(s)
    && exists k <- s.calls ::
      k.1 == a && Called(FeedOf(s, a), s.calls[k]) && Idles(s.calls[k], FeedOf(s, a).SqueezePrice().Inverse(), FeedOf(s, a))
  }

  /** Such a position exists: a feed of 4 * 10^14 for 3 and a maintenance ratio of 1750. */
  lemma PositionsCanIdle(matchPrice: Price)
    requires matchPrice.Valid()
    ensures
      var c := CallOrder(0, Asset(10, 0), Asset(761_904_761_904_760, 1), Some(1750));
      var feed := Feed(Price(Asset(400_000_000_000_000, 1), Asset(3, 0)), 1750, 1100);
      feed.Valid(1, 0) && Called(feed, c) && Idles(c, matchPrice, feed)
  {
    hide Scale;
    hide EstimateOf;
    hide TermsOf;
    hide StableCover;
    CalledButCoversNothing(matchPrice);
    OrientedEitherWay(matchPrice);
  }

  lemma OrientedEitherWay(matchPrice: Price)
    requires matchPrice.Valid()
    ensures
      var c := CallOrder(0, Asset(10, 0), Asset(761_904_761_904_760, 1), Some(1750));
      var p := Price(Asset(3, 0), Asset(400_000_000_000_000, 1));
      && TermsOf(c, matchPrice, p, 1750) == TermsOf(c, matchPrice, p.Inverse(), 1750)
      && EstimateOf(c, matchPrice, p, 1750) == EstimateOf(c, matchPrice, p.Inverse(), 1750)
  {
    hide Scale;
  }

  /** With an exact feed a called position always has something to cover. */
  lemma CalledCovers(feed: Feed, c: CallOrder, matchPrice: Price)
    requires feed.Valid(c.debt.id, c.collateral.id) && c.Valid() && matchPrice.Valid()
    requires ExactFor(feed, c) && Called(feed, c)
    ensures c.targetRatio.Some? ==> !CoversNothing(c, matchPrice, feed.price, feed.mcr)
    ensures !Less(feed.Maintenance(), c.Collateralization())
  {
    if c.targetRatio.Some? {
      CalledPositionCoversSomething(c, matchPrice, feed.price, feed.mcr);
    }
  }

  /// What is left of the order and the position after debt has been sold.
  lemma CoverOutcome(o: LimitOrder, debt: nat, toBuy: nat, mp: Price)
    requires o.price.Valid() && o.forSale > 0 && toBuy <= debt && mp.Valid()
    requires o.price.quote.amount * mp.quote.amount <= o.price.base.amount * mp.base.amount
    ensures match CallTrade(o.forSale, toBuy, mp.base.amount, mp.quote.amount)
            case Dust => o.ToReceive() == 0
            case TakerFilled(pays, gets) =>
              0 < pays <= o.forSale && pays < debt && (pays == o.forSale || Reduced(o, pays).ToReceive() == 0)
            case MakerFilled(pays, gets) => pays == toBuy <= o.forSale
  {
    var b, q := mp.base.amount, mp.quote.amount;
    CallTradeWithinOffers(o.forSale, toBuy, b, q);
    match CallTrade(o.forSale, toBuy, b, q)
    case Dust => DustAtOwnPrice(o.forSale, b, q, o.price.base.amount, o.price.quote.amount);
    case TakerFilled(pays, gets) => DustAtOwnPrice(o.forSale - pays, b, q, o.price.base.amount, o.price.quote.amount);
    case MakerFilled(pays, gets) =>
  }

  /// What get_max_debt_to_cover promises of the amount at a price.
  ghost predicate ToCover(c: CallOrder, feed: Feed, matchPrice: Price, toBuy: nat)
    requires c.Valid() && feed.price.Valid() && feed.mcr > 0 && matchPrice.Valid()
  {
    && 0 < toBuy <= c.debt.amount
    && (c.targetRatio.None? ==> toBuy == c.debt.amount)
    && (toBuy < c.debt.amount ==> TermsOf(c, matchPrice, feed.price, feed.mcr).Reaches(toBuy))
  }

  /// The debt a called position may buy back; nothing exactly when it idles.
  method DebtToCover(c: CallOrder, feed: Feed, matchPrice: Price) returns (r: Option<nat>)
    requires c.Valid() && feed.Valid(c.debt.id, c.collateral.id) && matchPrice.Valid() && Quotes(Oriented(matchPrice, c), c)
    requires Called(feed, c)
    ensures r == MaxDebt(c, matchPrice, feed.price, feed.mcr)
    ensures r.None? <==> c.targetRatio.Some? && SearchOverflows(c, matchPrice, feed.price, feed.mcr)
    ensures r == Some(0) <==> Idles(c, matchPrice, feed)
    ensures r == Some(0) ==> !ExactFor(feed, c)
    ensures r.Some? ==> r.value <= c.debt.amount
    ensures r.Some? && r.value > 0 ==> ToCover(c, feed, matchPrice, r.value)
  {
    hide CoversNothing;
    hide ScalesExactly;
    hide MaxDebt;
    hide SearchOverflows;
    r := GetMaxDebtToCover(c, matchPrice, feed.price, feed.mcr, feed.Maintenance());
    if r == Some(0) && ExactFor(feed, c) {
      CalledCovers(feed, c, matchPrice);
    }
  }

  /// A product exceeds the share supply, the fees cannot be paid, or the position has too
  /// little collateral.
  predicate CoverThrows(db: Database, s: State, o: LimitOrder, c: CallOrder, trade: Trade, cull: bool)
    requires o.Valid(s.assets.Keys)
  {
    !trade.Dust? &&
    (|| trade.receives > MAX_SHARE_SUPPLY || trade.pays > MAX_SHARE_SUPPLY || trade.receives > c.collateral.amount
     || (trade.pays <= o.forSale && !db.Fillable(s, o, trade.pays, trade.receives, cull)))
  }

  /// Selling debt to the called position throws: it has no collateral, the debt to cover
  /// cannot be computed, or the trade of that much fails.
  ghost predicate SqueezeThrows(db: Database, s: State, o: LimitOrder, c: CallOrder, feed: Feed)
    requires feed.price.Valid() && feed.mcr > 0 && feed.mssr > 0 && o.Valid(s.assets.Keys)
  {
    || c.collateral.amount == 0
    || (c.Valid()
        && var most := MaxDebt(c, feed.SqueezePrice().Inverse(), feed.price, feed.mcr);
           most.None? || (most.value > 0 &&
             var trade := SqueezeTrade(o, feed, most.value);
             CoverThrows(db, s, o, c, trade, trade.TakerFilled?)))
  }

  function SqueezeTrade(o: LimitOrder, feed: Feed, toBuy: nat): Trade
    requires feed.price.Valid() && feed.mssr > 0
  {
    CallTrade(o.forSale, toBuy, feed.SqueezePrice().quote.amount, feed.SqueezePrice().base.amount)
  }

  lemma SqueezeOutcome(o: LimitOrder, debt: nat, toBuy: nat, feed: Feed)
    requires o.price.Valid() && o.forSale > 0 && toBuy <= debt && feed.price.Valid() && feed.mssr > 0 && Squeezes(feed, o)
    ensures o.price.base.id == feed.price.base.id && o.price.quote.id == feed.price.quote.id
    ensures match SqueezeTrade(o, feed, toBuy)
            case Dust => o.ToReceive() == 0
            case TakerFilled(pays, gets) =>
              0 < pays <= o.forSale && pays < debt && (pays == o.forSale || Reduced(o, pays).ToReceive() == 0)
            case MakerFilled(pays, gets) => pays == toBuy <= o.forSale
  {
    CoverOutcome(o, debt, toBuy, feed.SqueezePrice().Inverse());
  }

  /// The order and the position after the trade; nothing happens for dust.
  ghost predicate SoldTo(s: State, t: State, id: nat, key: (Account, AssetId), trade: Trade)
    requires id in s.limits && s.limits[id].price.Valid() && key in s.calls && s.calls[key].debt.id in s.assets
  {
    if trade.Dust? then t == s
    else
      && trade.pays <= s.limits[id].forSale && trade.receives <= s.calls[key].collateral.amount
      && trade.pays <= s.calls[key].debt.amount && trade.pays <= s.Supply(s.calls[key].debt.id)
      && t.limits == Filled(s.limits, id, trade.pays, trade.TakerFilled?)
      && t.calls == CallFilled(s, key, trade.receives, trade.pays).calls
  }

  /// The order has sold debt to the position, up to `wanted`, for amounts that are fair at
  /// `b` units of collateral for `q` units of debt, and both owners have what is theirs.
  ghost predicate SoldAt(s: State, t: State, id: nat, key: (Account, AssetId), wanted: nat, b: nat, q: nat)
    requires id in s.limits && key in s.calls && s.calls[key].collateral.id in s.assets
  {
    exists pays, receives ::
      FairCover(s.limits[id].forSale, wanted, b, q, pays, receives) && SoldAmounts(s, t, id, key, pays, receives)
  }

  ghost predicate SoldAmounts(s: State, t: State, id: nat, key: (Account, AssetId), pays: nat, receives: nat)
    requires id in s.limits && key in s.calls && s.calls[key].collateral.id in s.assets
  {
    var o, c := s.limits[id], s.calls[key];
    && pays <= o.forSale && pays <= c.debt.amount && receives <= c.collateral.amount
    && (id in t.limits ==> t.limits[id].forSale == o.forSale - pays)
    && (key in t.calls <==> pays < c.debt.amount)
    && (key in t.calls ==> t.calls[key].debt.amount == c.debt.amount - pays && t.calls[key].collateral.amount == c.collateral.amount - receives)
    && CoverPaid(s, t, id, key, pays, receives)
  }

  lemma SoldNothing(s: State, id: nat, key: (Account, AssetId))
    requires id in s.limits && key in s.calls && s.calls[key].collateral.id in s.assets && s.calls[key].debt.amount > 0
    ensures SoldAmounts(s, s, id, key, 0, 0)
  {
    assert MarketFee(s.assets[s.calls[key].collateral.id], 0) == 0;
  }

  lemma SoldBy(s: State, t: State, id: nat, key: (Account, AssetId), trade: Trade, cull: bool)
    requires id in s.limits && s.limits[id].price.Valid() && key in s.calls && s.calls[key].debt.id in s.assets && !trade.Dust?
    requires trade.pays <= s.limits[id].forSale && trade.receives <= s.calls[key].collateral.amount
    requires trade.pays <= s.calls[key].debt.amount && trade.pays <= s.Supply(s.calls[key].debt.id)
    requires t.limits == Filled(s.limits, id, trade.pays, cull) && t.calls == CallFilled(s, key, trade.receives, trade.pays).calls
    requires s.calls[key].collateral.id in s.assets && CoverPaid(s, t, id, key, trade.pays, trade.receives)
    ensures SoldAmounts(s, t, id, key, trade.pays, trade.receives)
  {
    hide CoverPaid;
    hide LimitOrder.ToReceive;
  }

  /// database::match for a new limit order and a position, at the squeeze price.
  method MatchCall(db: Database, id: nat, key: (Account, AssetId)) returns (r: Match, toBuy: nat)
    requires Ready(db.s, id) && id in db.s.limits && key in db.s.calls && CallsValid(db.s) && Backed(db.s)
    requires FeedsValid(db.s) && Callable(db.s, key.1)
    requires Squeezes(FeedOf(db.s, key.1), db.s.limits[id]) && Called(FeedOf(db.s, key.1), db.s.calls[key])
    modifies db
    ensures r.GoOn? || r.Finished? ==> Ready(db.s, id) && Trading(old(db.s), db.s, key.1)
    ensures r.GoOn? || r.Finished? ==>
      var c, feed := old(db.s).calls[key], FeedOf(old(db.s), key.1);
      && c.Valid() && ToCover(c, feed, feed.SqueezePrice().Inverse(), toBuy)
      && SoldTo(old(db.s), db.s, id, key, SqueezeTrade(old(db.s).limits[id], feed, toBuy))
      && c.collateral.id in old(db.s).assets
      && SoldAt(old(db.s), db.s, id, key, toBuy, feed.SqueezePrice().quote.amount, feed.SqueezePrice().base.amount)
    ensures r.Finished? ==> id !in db.s.limits || db.s.limits[id].ToReceive() == 0
    ensures r.GoOn? ==> id in db.s.limits && db.s.Supply(key.1) < old(db.s).Supply(key.1)
    ensures r.Thrown? <==> SqueezeThrows(db, old(db.s), old(db.s).limits[id], old(db.s).calls[key], FeedOf(old(db.s), key.1))
    ensures r.Endless? <==>
      Idles(old(db.s).calls[key], FeedOf(old(db.s), key.1).SqueezePrice().Inverse(), FeedOf(old(db.s), key.1))
    ensures r.Endless? ==> db.s == old(db.s) && !ExactFor(FeedOf(old(db.s), key.1), old(db.s).calls[key])
  {
    hide Gap;
    hide DebtGap;
    hide Burns;
    hide CallsShrink;
    hide UncrossedExcept;
    hide WorthExcept;
    hide Shrinks;
    hide CoversNothing;
    hide Feed.SqueezePrice;
    hide CallTrade;
    hide ToCover;
    hide FairCover;
    hide SoldAmounts;
    hide CoverPaid;
    hide ExactFor;
    hide FeedsValid;
    hide Called;
    hide Squeezes;
    hide MaxDebt;
    hide SearchOverflows;
    hide Database.Fillable;
    var o, c, feed := db.s.limits[id], db.s.calls[key], FeedOf(db.s, key.1);
    assert CallValid(db.s, key, c);
    if c.collateral.amount == 0 {
      return Thrown, 0;
    }
    var mp := feed.SqueezePrice().Inverse();
    var most := DebtToCover(c, feed, mp);
    if most.None? {
      return Thrown, 0;
    }
    toBuy := most.value;
    if toBuy == 0 {
      return Endless, 0;
    }
    DebtWithinSupply(db.s, key);
    SqueezeOutcome(o, c.debt.amount, toBuy, feed);
    var trade := SqueezeTrade(o, feed, toBuy);
    CallTradeIsFair(o.forSale, toBuy, feed.SqueezePrice().quote.amount, feed.SqueezePrice().base.amount);
    if trade.Dust? {
      SoldNothing(db.s, id, key);
      TradingReflexive(db.s, key.1);
      return Finished, toBuy;
    }
    if trade.receives > MAX_SHARE_SUPPLY || trade.pays > MAX_SHARE_SUPPLY {
      return Thrown, 0;
    }
    ghost var s0 := db.s;
    var ok := CoverCall(db, id, key, trade, trade.TakerFilled?);
    if !ok {
      return Thrown, 0;
    }
    SoldBy(s0, db.s, id, key, trade, trade.TakerFilled?);
    assert db.s.assets.Keys == s0.assets.Keys by { TradingKeepsAssets(s0, db.s, key.1); }
    FilledStaysReady(s0, db.s, id, id, trade.pays, trade.TakerFilled?);
    r := if id in db.s.limits then GoOn else Finished;
  }

  lemma TradingReflexive(s: State, a: AssetId)
    ensures Trading(s, s, a)
  {
  }

  lemma TradingKeepsAssets(s: State, t: State, a: AssetId)
    requires Trading(s, t, a)
    ensures s.assets.Keys == t.assets.Keys && SameSetup(s, t)
  {
  }

  /// A called position that the order is due throws.
  ghost predicate CallStuck(db: Database, s: State, id: nat, a: AssetId) {
    && OrdersValid(s) && id in s.limits && FeedsValid(s) && Callable(s, a) && Squeezes(FeedOf(s, a), s.limits[id])
    && exists k <- s.calls ::
      k.1 == a && Called(FeedOf(s, a), s.calls[k]) && SqueezeThrows(db, s, s.limits[id], s.calls[k], FeedOf(s, a))
  }

  /// What makes apply_order throw: a match, or the order asks for more than the share supply.
  ghost predicate Stuck(db: Database, s: State, id: nat, a: AssetId) {
    || BookStuck(db, s, id) || CallStuck(db, s, id, a)
    || (id in s.limits && s.limits[id].price.Valid() && s.limits[id].ToReceive() > MAX_SHARE_SUPPLY)
  }

  /// The loop of apply_order over the positions that are called.
  method MatchPositions(db: Database, id: nat, a: AssetId) returns (r: Match)
    requires Ready(db.s, id) && id in db.s.limits && CallsValid(db.s) && Backed(db.s)
    requires FeedsValid(db.s) && Callable(db.s, a) && Squeezes(FeedOf(db.s, a), db.s.limits[id])
    requires NoneCallable(db.s, a, {id})
    modifies db
    ensures r.GoOn? || r.Finished? ==>
      Ready(db.s, id) && Trading(old(db.s), db.s, a) && FeedsValid(db.s) && NoneCallable(db.s, a, {id})
    ensures r.Finished? ==> id !in db.s.limits || db.s.limits[id].ToReceive() == 0
    ensures r.GoOn? ==>
      && id in db.s.limits
      && forall k <- db.s.calls :: k.1 == a ==> !Called(FeedOf(old(db.s), a), db.s.calls[k])
    ensures r.Thrown? ==> exists u :: Trading(old(db.s), u, a) && CallStuck(db, u, id, a)
    ensures r.Endless? ==> exists k <- old(db.s).calls :: k.1 == a && !ExactFor(FeedOf(old(db.s), a), old(db.s).calls[k])
    ensures r.Endless? ==> Trading(old(db.s), db.s, a) && Jams(db.s, a)
  {
    hide Gap;
    hide DebtGap;
    hide Burns;
    hide Ready;
    hide NoneCallable;
    hide Called;
    hide Squeezes;
    hide ExactFor;
    hide Idles;
    hide SqueezeThrows;
    var feed := FeedOf(db.s, a);
    TradingReflexive(db.s, a);
    while true
      invariant Ready(db.s, id) && id in db.s.limits && CallsValid(db.s) && Backed(db.s)
      invariant FeedsValid(db.s) && Callable(db.s, a) && FeedOf(db.s, a) == feed && Squeezes(feed, db.s.limits[id])
      invariant Trading(old(db.s), db.s, a) && NoneCallable(db.s, a, {id})
      decreases db.s.Supply(a)
    {
      ghost var s1 := db.s;
      var key := LeastCollateralized(db.s.calls, a);
      if key.None? {
        return GoOn;
      }
      if !Called(feed, db.s.calls[key.value]) {
        forall k <- db.s.calls | k.1 == a ensures !Called(feed, db.s.calls[k]) {
          NotCalledAbove(feed, db.s.calls[key.value], db.s.calls[k]);
        }
        return GoOn;
      }
      var toBuy;
      r, toBuy := MatchCall(db, id, key.value);
      if r.Thrown? {
        CallIsStuck(db, s1, id, key.value);
        return;
      }
      if r.Endless? {
        SameExactness(feed, old(db.s).calls[key.value], s1.calls[key.value]);
        return;
      }
      TradingKeepsAssets(s1, db.s, a);
      NoOtherSqueezes(s1, db.s, a, id, key.value);
      TradingTransitive(old(db.s), s1, db.s, a);
      if r.Finished? {
        return;
      }
      SameFeeds(s1, db.s);
      CallsStayValid(s1, db.s, a);
      StaysBacked(s1, db.s);
      SqueezesAtPrice(feed, db.s.limits[id], s1.limits[id]);
    }
  }

  lemma CallIsStuck(db: Database, s: State, id: nat, k: (Account, AssetId))
    requires Ready(s, id) && id in s.limits && FeedsValid(s) && k in s.calls && Callable(s, k.1)
    requires Squeezes(FeedOf(s, k.1), s.limits[id]) && Called(FeedOf(s, k.1), s.calls[k])
    requires SqueezeThrows(db, s, s.limits[id], s.calls[k], FeedOf(s, k.1))
    ensures CallStuck(db, s, id, k.1)
  {
    hide SqueezeThrows;
    hide Squeezes;
    hide Called;
  }

  lemma SqueezesAtPrice(feed: Feed, o: LimitOrder, p: LimitOrder)
    requires feed.price.Valid() && feed.mssr > 0 && o.price == p.price
    ensures Squeezes(feed, o) == Squeezes(feed, p)
  {
  }

  lemma SameExactness(feed: Feed, c: CallOrder, d: CallOrder)
    requires feed.price.Valid() && feed.mcr > 0 && c.targetRatio == d.targetRatio
    ensures ExactFor(feed, c) == ExactFor(feed, d)
  {
  }

  lemma BookTrading(s: State, t: State, a: AssetId)
    requires SameCore(s, t) && SameButLimits(s, t) && SameGaps(s, t) && Shrinks(s.limits, t.limits)
    ensures Trading(s, t, a)
  {
    hide Gap;
    hide DebtGap;
    CoreBurnsNothing(s, t, a);
    SameDebts(s, t);
  }

  ghost predicate AllMet(s: State, except: set<nat>) {
    FeedsValid(s) && forall a :: NoneCallable(s, a, except)
  }

  lemma AllMetShrinks(s: State, t: State, except: set<nat>)
    requires AllMet(s, except) && SameSetup(s, t) && t.calls == s.calls && Shrinks(s.limits, t.limits) && t.revived == s.revived
    ensures AllMet(t, except)
  {
    SameFeeds(s, t);
    forall a { NoneCallableShrinks(s, t, a, except); }
  }

  /** Positions in `a` were covered while some order was squeezing: the others are
      still met by no order. */
  lemma AllMetCovered(s: State, t: State, a: AssetId, id: nat)
    requires AllMet(s, {id}) && Trading(s, t, a) && FeedsValid(t) && NoneCallable(t, a, {id})
    ensures AllMet(t, {id})
  {
    forall b ensures NoneCallable(t, b, {id}) {
      if b != a {
        NoneCallableShrinks(s, t, b, {id});
      }
    }
  }

  /// The order cannot meet a position: it is gone, does not squeeze, or none is called.
  ghost predicate Harmless(s: State, id: nat) {
    FeedsValid(s) && (id in s.limits && Callable(s, s.limits[id].price.base.id) && s.limits[id].price.base.id !in s.revived ==>
      var feed := FeedOf(s, s.limits[id].price.base.id);
      !Squeezes(feed, s.limits[id]) ||
      forall k <- s.calls :: k.1 == s.limits[id].price.base.id ==> !Called(feed, s.calls[k]))
  }

  lemma AllMetWith(s: State, id: nat)
    requires AllMet(s, {id}) && Harmless(s, id)
    ensures AllMet(s, {})
  {
    forall a ensures NoneCallable(s, a, {}) {
      assert NoneCallable(s, a, {id});
    }
  }

  lemma HarmlessShrinks(s: State, t: State, id: nat)
    requires Harmless(s, id) && SameSetup(s, t) && t.calls == s.calls && Shrinks(s.limits, t.limits) && t.revived == s.revived
    ensures Harmless(t, id)
  {
    SameFeeds(s, t);
  }

  ghost predicate Inexact(s: State, a: AssetId) {
    && Callable(s, a) && FeedsValid(s)
    && exists k <- s.calls :: k.1 == a && !ExactFor(FeedOf(s, a), s.calls[k])
  }

  lemma SameInexact(s: State, t: State, a: AssetId)
    requires FeedsValid(s) && SameSetup(s, t) && t.calls == s.calls && Inexact(t, a)
    ensures Inexact(s, a)
  {
    SameFeeds(s, t);
  }

  /// Order `id` has been matched as far as it goes.
  ghost predicate Matched(s: State, id: nat) {
    || id !in s.limits
    || (s.limits[id].price.Valid() && s.limits[id].ToReceive() == 0)
    || (AllMet(s, {}) && forall j <- s.limits :: !Crosses(s.limits[id], s.limits[j]))
  }

  /// What the stages of apply_order keep.
  ghost predicate Underway(s: State, t: State, id: nat, a: AssetId) {
    Ready(t, id) && CallsValid(t) && Backed(t) && AllMet(t, {id}) && Trading(s, t, a)
  }

  lemma BookStage(s: State, t: State, u: State, id: nat, a: AssetId)
    requires Underway(s, t, id, a)
    requires Ready(u, id) && SameCore(t, u) && SameButLimits(t, u) && SameGaps(t, u) && Shrinks(t.limits, u.limits)
    ensures Underway(s, u, id, a) && SameSetup(t, u)
  {
    hide Gap;
    hide DebtGap;
    hide Ready;
    BookTrading(t, u, a);
    TradingTransitive(s, t, u, a);
    CallsStayValid(t, u, a);
    StaysBacked(t, u);
    AllMetShrinks(t, u, {id});
  }

  lemma CallStage(s: State, t: State, u: State, id: nat, a: AssetId)
    requires Underway(s, t, id, a)
    requires Ready(u, id) && Trading(t, u, a) && FeedsValid(u) && NoneCallable(u, a, {id})
    ensures Underway(s, u, id, a)
  {
    hide Gap;
    hide DebtGap;
    hide Ready;
    TradingTransitive(s, t, u, a);
    CallsStayValid(t, u, a);
    StaysBacked(t, u);
    AllMetCovered(t, u, a, id);
  }

  lemma BookThrew(db: Database, s: State, t: State, id: nat, a: AssetId)
    requires Trading(s, t, a) && exists u :: BookTraded(t, u) && BookStuck(db, u, id)
    ensures exists u :: Trading(s, u, a) && Stuck(db, u, id, a)
  {
    hide BookStuck;
    hide CallStuck;
    hide Trading;
    hide SameCore;
    hide Gap;
    var u :| BookTraded(t, u) && BookStuck(db, u, id);
    BookTrading(t, u, a);
    TradingTransitive(s, t, u, a);
    assert Stuck(db, u, id, a);
  }

  lemma CallThrew(db: Database, s: State, t: State, id: nat, a: AssetId)
    requires Trading(s, t, a) && exists u :: Trading(t, u, a) && CallStuck(db, u, id, a)
    ensures exists u :: Trading(s, u, a) && Stuck(db, u, id, a)
  {
    hide BookStuck;
    hide CallStuck;
    hide Trading;
    var u :| Trading(t, u, a) && CallStuck(db, u, id, a);
    TradingTransitive(s, t, u, a);
    assert Stuck(db, u, id, a);
  }

  /// The first two stages, when the new order is good enough for margin calls: limit
  /// orders with a better price, then positions.
  method MatchSqueezing(db: Database, id: nat, a: AssetId) returns (r: Match)
    requires Underway(db.s, db.s, id, a) && id in db.s.limits && db.s.limits[id].price.base.id == a
    requires Callable(db.s, a) && Squeezes(FeedOf(db.s, a), db.s.limits[id])
    modifies db
    ensures r.GoOn? || r.Finished? ==> Underway(old(db.s), db.s, id, a)
    ensures r.Finished? ==> id !in db.s.limits || db.s.limits[id].ToReceive() == 0
    ensures r.GoOn? ==> id in db.s.limits && Harmless(db.s, id)
    ensures r.Endless? ==> Inexact(old(db.s), a) && Trading(old(db.s), db.s, a) && Jams(db.s, a)
    ensures r.Thrown? ==> exists u :: Trading(old(db.s), u, a) && Stuck(db, u, id, a)
  {
    hide Gap;
    hide DebtGap;
    hide Jams;
    hide BookStuck;
    hide CallStuck;
    hide Ready;
    hide NoneCallable;
    hide Squeezes;
    hide Called;
    hide ExactFor;
    hide SameCore;
    ghost var s0 := db.s;
    r := MatchBook(db, id, Some(FeedOf(db.s, a).SqueezePrice().Inverse()));
    if r.Thrown? {
      BookThrew(db, s0, s0, id, a);
      return;
    }
    ghost var s1 := db.s;
    BookStage(s0, s0, s1, id, a);
    if r.Finished? {
      return;
    }
    SameFeeds(s0, s1);
    SqueezesAtPrice(FeedOf(s0, a), s0.limits[id], s1.limits[id]);
    r := MatchPositions(db, id, a);
    if r.Thrown? {
      CallThrew(db, s0, s1, id, a);
      return;
    }
    if r.Endless? {
      SameInexact(s0, s1, a);
      TradingTransitive(s0, s1, db.s, a);
      return;
    }
    CallStage(s0, s1, db.s, id, a);
  }

  /// All stages of apply_order.
  method MatchOrder(db: Database, id: nat) returns (r: Match)
    requires id in db.s.limits && Underway(db.s, db.s, id, db.s.limits[id].price.base.id)
    modifies db
    ensures r.GoOn? || r.Finished? ==>
      Underway(old(db.s), db.s, id, old(db.s).limits[id].price.base.id) && Matched(db.s, id)
    ensures r.Endless? ==>
      var a := old(db.s).limits[id].price.base.id;
      Inexact(old(db.s), a) && Trading(old(db.s), db.s, a) && Jams(db.s, a)
    ensures r.Thrown? ==>
      var a := old(db.s).limits[id].price.base.id;
      exists u :: Trading(old(db.s), u, a) && Stuck(db, u, id, a)
  {
    hide Gap;
    hide DebtGap;
    hide Stuck;
    hide UncrossedExcept;
    hide WorthExcept;
    hide NoneCallable;
    hide Squeezes;
    hide Called;
    hide ExactFor;
    hide SameCore;
    hide Trading;
    hide Harmless;
    ghost var s0 := db.s;
    var a := db.s.limits[id].price.base.id;
    if Callable(db.s, a) && Squeezes(FeedOf(db.s, a), db.s.limits[id]) {
      r := MatchSqueezing(db, id, a);
      if !r.GoOn? {
        return;
      }
    } else {
      DoesNotSqueeze(db.s, id);
    }
    ghost var s1 := db.s;
    r := MatchBook(db, id, None);
    if r.Thrown? {
      BookThrew(db, s0, s1, id, a);
      return;
    }
    BookStage(s0, s1, db.s, id, a);
    if r.GoOn? {
      HarmlessShrinks(s1, db.s, id);
      AllMetWith(db.s, id);
    }
  }

  lemma DoesNotSqueeze(s: State, id: nat)
    requires id in s.limits && FeedsValid(s)
    requires Callable(s, s.limits[id].price.base.id) ==> !Squeezes(FeedOf(s, s.limits[id].price.base.id), s.limits[id])
    ensures Harmless(s, id)
  {
  }

  /// What holds of orders and positions between operations.
  ghost predicate Orderly(s: State) {
    && OrdersValid(s) && Uncrossed(s.limits) && Worth(s.limits)
    && CallsValid(s) && Backed(s) && AllMet(s, {})
  }

  lemma MatchedIsOrderly(s: State, t: State, id: nat, a: AssetId)
    requires Underway(s, t, id, a) && Matched(t, id) && (id in t.limits ==> t.limits[id].ToReceive() > 0)
    ensures Orderly(t)
  {
    if id in t.limits {
      UncrossedWith(t.limits, id);
    } else {
      DoesNotExist(t, id);
    }
  }

  lemma DoesNotExist(s: State, id: nat)
    requires id !in s.limits && UncrossedExcept(s.limits, id) && AllMet(s, {id})
    ensures Uncrossed(s.limits) && AllMet(s, {})
  {
    AllMetWith(s, id);
  }

  /** An order behind another one of its market has nothing to match: the one ahead
      of it would have matched already. */
  lemma BehindIsMatched(s: State, id: nat, j: nat)
    requires Ready(s, id) && AllMet(s, {id}) && id in s.limits && j in s.limits && j != id
    requires SameMarket(s.limits[j], s.limits[id]) && Ahead(j, s.limits[j], id, s.limits[id])
    ensures Matched(s, id)
  {
    var o, p := s.limits[id], s.limits[j];
    assert !Less(p.price, o.price);
    forall k <- s.limits ensures !Crosses(o, s.limits[k]) {
      if Crosses(o, s.limits[k]) {
        BehindCrossesLess(p, o, s.limits[k]);
        assert false;
      }
    }
    var a := o.price.base.id;
    if Callable(s, a) && a !in s.revived && Squeezes(FeedOf(s, a), o) {
      SqueezesAhead(FeedOf(s, a), p, o);
      assert NoneCallable(s, a, {id});
    }
    AllMetWith(s, id);
  }

  /// Cancelling what is left of the order.
  lemma CullIsOrderly(s: State, t: State, u: State, id: nat, a: AssetId)
    requires Underway(s, t, id, a) && id in t.limits
    requires u.limits == t.limits - {id} && SameCore(t, u) && SameButLimits(t, u) && SameGaps(t, u)
    ensures Orderly(u) && Trading(s, u, a)
  {
    hide Gap;
    hide DebtGap;
    hide SameCore;
    hide Trading;
    hide NoneCallable;
    SameIds(t, u);
    RemovedReady(t, u, id);
    BookStage(s, t, u, id, a);
    DoesNotExist(u, id);
  }

  lemma RemovedReady(s: State, t: State, id: nat)
    requires Ready(s, id) && t.limits == s.limits - {id} && t.assets.Keys == s.assets.Keys
    ensures Ready(t, id) && Shrinks(s.limits, t.limits)
  {
    UncrossedShrinks(s.limits, t.limits, id);
  }

  /// apply_order.  An order that is not at the front of its side of the book cannot
  /// match; otherwise it is matched, and what is then too small is cancelled.
  method ApplyOrder(db: Database, id: nat) returns (r: Match)
    requires id in db.s.limits && Underway(db.s, db.s, id, db.s.limits[id].price.base.id)
    requires db.s.limits[id].ToReceive() > 0
    modifies db
    ensures r.GoOn? || r.Finished? ==>
      && Orderly(db.s) && Trading(old(db.s), db.s, old(db.s).limits[id].price.base.id)
      && (r.Finished? <==> id !in db.s.limits)
    ensures r.Endless? ==>
      var a := old(db.s).limits[id].price.base.id;
      Inexact(old(db.s), a) && Trading(old(db.s), db.s, a) && Jams(db.s, a)
    ensures r.Thrown? ==>
      var a := old(db.s).limits[id].price.base.id;
      exists u :: Trading(old(db.s), u, a) && Stuck(db, u, id, a)
  {
    hide Gap;
    hide DebtGap;
    hide BookStuck;
    hide CallStuck;
    hide NoneCallable;
    hide Trading;
    hide Squeezes;
    hide Called;
    hide SameCore;
    ghost var s0 := db.s;
    var o := db.s.limits[id];
    if exists j <- db.s.limits :: j != id && SameMarket(db.s.limits[j], o) && Ahead(j, db.s.limits[j], id, o) {
      ghost var j :| j in db.s.limits && j != id && SameMarket(db.s.limits[j], o) && Ahead(j, db.s.limits[j], id, o);
      BehindIsMatched(db.s, id, j);
      MatchedIsOrderly(s0, s0, id, o.price.base.id);
      return GoOn;
    }
    r := MatchOrder(db, id);
    if r.Thrown? || r.Endless? {
      return;
    }
    ghost var s1 := db.s;
    if id in db.s.limits {
      var c := db.MaybeCull(id);
      if c.Failed? {
        assert Stuck(db, s1, id, o.price.base.id);
        return Thrown;
      }
      if c.Gone? {
        CullIsOrderly(s0, s1, db.s, id, o.price.base.id);
        return Finished;
      }
    }
    MatchedIsOrderly(s0, s1, id, o.price.base.id);
    r := if id in db.s.limits then GoOn else Finished;
  }
}