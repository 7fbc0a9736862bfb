/** Margin calls and black swans: check_call_orders in db_market.cpp and
    check_for_blackswan in db_update.cpp. */
module MarginCalls {
  import opened Options
  import opened Prices
  import opened MarginCall
  import opened MarketState
  import opened MarketDatabase
  import opened OrderBook
  import opened Trades
  import opened Positions
  import opened Matching
  import opened Orders
  import opened GlobalSettlement
  import opened MarketInvariant

  datatype Swan = Refused | No | Yes

  function BackingOf(s: State, a: AssetId): AssetId
    requires s.MarketIssued(a)
  {
    s.assets[a].bitasset.value.backing
  }

  /// Someone would buy the position's collateral for more than its debt: the squeeze
  /// price or some order is above the position's debt per collateral.
  ghost predicate Supported(s: State, a: AssetId, feed: Feed, c: CallOrder)
    requires s.MarketIssued(a) && feed.price.Valid() && feed.mssr > 0
  {
    || Less(c.Collateralization().Inverse(), feed.SqueezePrice())
    || exists i <- s.limits :: Sells(s.limits[i], a, BackingOf(s, a)) && Less(c.Collateralization().Inverse(), s.limits[i].price)
  }

  /// No position is a black swan.
  ghost predicate AllSupported(s: State, a: AssetId, feed: Feed)
    requires s.MarketIssued(a) && feed.price.Valid() && feed.mssr > 0
  {
    forall k <- s.calls :: k.1 == a ==> Supported(s, a, feed, s.calls[k])
  }

  lemma SupportedAbove(s: State, a: AssetId, feed: Feed, c: CallOrder, d: CallOrder)
    requires s.MarketIssued(a) && feed.price.Valid() && feed.mssr > 0 && c.debt.amount > 0 && d.debt.amount > 0
    requires forall i <- s.limits :: s.limits[i].price.Valid()
    requires Supported(s, a, feed, c) && !Less(d.Collateralization(), c.Collateralization())
    ensures Supported(s, a, feed, d)
  {
    if Less(c.Collateralization().Inverse(), feed.SqueezePrice()) {
      LessThanBoth(c, d, feed.SqueezePrice());
    } else {
      var i :| i in s.limits && Sells(s.limits[i], a, BackingOf(s, a)) && Less(c.Collateralization().Inverse(), s.limits[i].price);
      LessThanBoth(c, d, s.limits[i].price);
    }
  }

  lemma LessThanBoth(c: CallOrder, d: CallOrder, p: Price)
    requires c.debt.amount > 0 && d.debt.amount > 0 && p.base.amount > 0
    requires Less(c.Collateralization().Inverse(), p) && !Less(d.Collateralization(), c.Collateralization())
    ensures Less(d.Collateralization().Inverse(), p)
  {
    FractionsTransitive(p.quote.amount, p.base.amount, c.collateral.amount, c.debt.amount, d.collateral.amount, d.debt.amount);
  }

  /// The highest price anyone would pay for collateral.
  ghost predicate IsHighest(s: State, a: AssetId, feed: Feed, h: Price)
    requires s.MarketIssued(a) && feed.price.Valid() && feed.mssr > 0
  {
    && h.Valid() && !Less(h, feed.SqueezePrice())
    && (forall i <- s.limits :: Sells(s.limits[i], a, BackingOf(s, a)) ==> s.limits[i].price.Valid() && !Less(h, s.limits[i].price))
    && (h == feed.SqueezePrice() || exists i <- s.limits :: Sells(s.limits[i], a, BackingOf(s, a)) && s.limits[i].price == h)
  }

  /** A position is supported exactly when the highest price is above its own. */
  lemma SupportedByHighest(s: State, a: AssetId, feed: Feed, h: Price, c: CallOrder)
    requires s.MarketIssued(a) && feed.price.Valid() && feed.mssr > 0 && IsHighest(s, a, feed, h) && c.debt.amount > 0
    ensures Supported(s, a, feed, c) <==> Less(c.Collateralization().Inverse(), h)
  {
    if !Less(c.Collateralization().Inverse(), h) {
      NotAbove(c, h, feed.SqueezePrice());
      forall i <- s.limits | Sells(s.limits[i], a, BackingOf(s, a))
        ensures !Less(c.Collateralization().Inverse(), s.limits[i].price)
      {
        NotAbove(c, h, s.limits[i].price);
      }
    }
  }

  lemma NotAbove(c: CallOrder, h: Price, p: Price)
    requires c.debt.amount > 0 && h.Valid() && p.Valid() && !Less(c.Collateralization().Inverse(), h) && !Less(h, p)
    ensures !Less(c.Collateralization().Inverse(), p)
  {
    FractionsTransitive(c.collateral.amount, c.debt.amount, h.quote.amount, h.base.amount, p.quote.amount, p.base.amount);
  }

  /// The highest bid, as the index of limit orders and the feed give it.
  method Highest(s: State, a: AssetId, feed: Feed) returns (h: Price)
    requires OrdersValid(s) && s.MarketIssued(a) && feed.price.Valid() && feed.mssr > 0
    ensures IsHighest(s, a, feed, h)
  {
    var best := BestSeller(s.limits, a, BackingOf(s, a));
    h := feed.SqueezePrice();
    if best.Some? {
      var o := s.limits[best.value];
      if !Less(o.price, h) {
        h := o.price;
      }
      forall i <- s.limits | Sells(s.limits[i], a, BackingOf(s, a)) ensures !Less(h, s.limits[i].price) {
        var p := s.limits[i].price;
        FractionsTransitive(h.quote.amount, h.base.amount, o.price.quote.amount, o.price.base.amount, p.quote.amount, p.base.amount);
      }
    }
  }

  lemma LeastSupported(s: State, a: AssetId, feed: Feed, key: (Account, AssetId))
    requires Sound(s) && s.MarketIssued(a) && feed.price.Valid() && feed.mssr > 0 && key in s.calls && key.1 == a
    requires forall k <- s.calls :: k.1 == a ==> !Less(s.calls[k].Collateralization(), s.calls[key].Collateralization())
    requires Supported(s, a, feed, s.calls[key])
    ensures AllSupported(s, a, feed)
  {
    forall k <- s.calls | k.1 == a ensures Supported(s, a, feed, s.calls[k]) {
      assert CallValid(s, k, s.calls[k]) && CallValid(s, key, s.calls[key]);
      SupportedAbove(s, a, feed, s.calls[key], s.calls[k]);
    }
  }

  function SwanPrice(c: CallOrder, feed: Feed): Price {
    var own := c.Collateralization().Inverse();
    if Less(feed.price, own) then own else feed.price
  }

  /** The asset is settled at the price that takes less collateral for the debt: the
      position's own or the feed's. */
  lemma SwanPriceIsHigher(c: CallOrder, feed: Feed)
    requires feed.price.Valid() && c.debt.amount > 0
    ensures
      var p, own := SwanPrice(c, feed), Price(c.debt, c.collateral);
      && (p == own || p == feed.price)
      && own.base.amount * p.quote.amount <= p.base.amount * own.quote.amount
      && feed.price.base.amount * p.quote.amount <= p.base.amount * feed.price.quote.amount
  {
  }

  /// A position has lost all support, and the asset is settled at that position's
  /// price or, when it is better, at the feed's.
  ghost predicate StruckBySwan(s: State, t: State, a: AssetId) {
    && s.MarketIssued(a) && s.assets[a].bitasset.value.feed.Some?
    && var feed := s.assets[a].bitasset.value.feed.value;
       && feed.Valid(a, BackingOf(s, a))
       && exists k <- s.calls ::
            k.1 == a && !Supported(s, a, feed, s.calls[k]) && GloballySettled(s, t, a, SwanPrice(s.calls[k], feed))
  }

  /// A position has lost all support, but settlement is not allowed or some position
  /// cannot be valued at its price.
  ghost predicate SwanRefused(s: State, a: AssetId, enable: bool) {
    && s.MarketIssued(a) && !s.Settled(a) && s.assets[a].bitasset.value.feed.Some?
    && var feed := s.assets[a].bitasset.value.feed.value;
       && feed.Valid(a, BackingOf(s, a))
       && exists k <- s.calls ::
            && k.1 == a && !Supported(s, a, feed, s.calls[k])
            && (enable ==> !AllPayable(s.calls, a, SwanPrice(s.calls[k], feed)))
  }

  /// check_for_blackswan
  method CheckForBlackSwan(db: Database, a: AssetId, enable: bool) returns (r: Swan)
    requires Sound(db.s)
    modifies db
    ensures r.No? ==> db.s == old(db.s) && !db.s.Settled(a)
    ensures r.No? && db.s.MarketIssued(a) && db.s.assets[a].bitasset.value.feed.Some? ==>
      && db.s.assets[a].bitasset.value.feed.value.Valid(a, BackingOf(db.s, a))
      && AllSupported(db.s, a, db.s.assets[a].bitasset.value.feed.value)
    ensures r.Yes? ==> Sound(db.s) && db.s.Settled(a) && db.s.revived == old(db.s).revived
    ensures r.Yes? && old(db.s).Settled(a) ==> db.s == old(db.s)
    ensures r.Yes? && !old(db.s).Settled(a) ==> enable && StruckBySwan(old(db.s), db.s, a)
    ensures r.Refused? ==> SwanRefused(old(db.s), a, enable)
  {
    hide Gap;
    hide DebtGap;
    hide IsHighest;
    hide Supported;
    hide AssetsValid;
    hide Backed;
    hide GloballySettled;
    hide AllPayable;
    if !db.s.MarketIssued(a) {
      return No;
    }
    if db.s.Settled(a) {
      return Yes;
    }
    if db.s.assets[a].bitasset.value.feed.None? {
      return No;
    }
    SoundFeeds(db.s);
    var feed := db.s.assets[a].bitasset.value.feed.value;
    assert forall k <- db.s.calls :: CallValid(db.s, k, db.s.calls[k]);
    var key := LeastCollateralized(db.s.calls, a);
    if key.None? {
      return No;
    }
    var swan := db.s.calls[key.value].Collateralization().Inverse();
    var highest := Highest(db.s, a, feed);
    SupportedByHighest(db.s, a, feed, highest, db.s.calls[key.value]);
    if Less(swan, highest) {
      LeastSupported(db.s, a, feed, key.value);
      return No;
    }
    if !enable {
      return Refused;
    }
    ghost var s0 := db.s;
    var p := SwanPrice(db.s.calls[key.value], feed);
    var ok := GloballySettle(db, a, p);
    if !ok {
      return Refused;
    }
    SettlementKeepsSound(s0, db.s, a, p);
    return Yes;
  }

  // ------------------------------------------------------------------
  // Margin calls

  /// Orders meet no called position, except perhaps in asset `a`.
  ghost predicate MetBut(s: State, a: AssetId) {
    FeedsValid(s) && forall b :: b != a ==> NoneCallable(s, b, {})
  }

  lemma MetButTrading(s: State, t: State, a: AssetId)
    requires MetBut(s, a) && Trading(s, t, a)
    ensures MetBut(t, a)
  {
    SameFeeds(s, t);
    forall b | b != a ensures NoneCallable(t, b, {}) {
      NoneCallableShrinks(s, t, b, {});
    }
  }

  lemma MetAfterSettlement(s: State, t: State, a: AssetId, p: Price)
    requires MetBut(s, a) && GloballySettled(s, t, a, p) && AssetsValid(t)
    ensures AllMet(t, {})
  {
    hide SameGaps;
    hide Reimbursed;
    SoundFeeds(t);
    forall b ensures NoneCallable(t, b, {}) {
      if b != a && Callable(t, b) {
        assert NoneCallable(s, b, {}) && FeedOf(t, b) == FeedOf(s, b);
      }
    }
  }

  lemma MetAll(s: State, a: AssetId)
    requires MetBut(s, a) && NoneCallable(s, a, {})
    ensures AllMet(s, {})
  {
  }

  /// A margin call at the order's price throws: the debt to cover cannot be computed, or
  /// the trade of that much fails.
  ghost predicate CallThrows(db: Database, s: State, o: LimitOrder, c: CallOrder, feed: Feed)
    requires feed.price.Valid() && feed.mcr > 0 && o.Valid(s.assets.Keys)
  {
    && c.Valid()
    && var most := MaxDebt(c, o.price, feed.price, feed.mcr);
       most.None? || (most.value > 0 &&
         CoverThrows(db, s, o, c, CallTrade(o.forSale, most.value, o.price.quote.amount, o.price.base.amount), true))
  }

  /// The front order and the least collateralized position trade at the order's price.
  method CallOnce(db: Database, a: AssetId, id: nat, key: (Account, AssetId)) returns (r: Match, toBuy: nat)
    requires Sound(db.s) && FeedsValid(db.s) && Callable(db.s, a) && id in db.s.limits && key in db.s.calls && key.1 == a
    requires Squeezes(FeedOf(db.s, a), db.s.limits[id]) && Called(FeedOf(db.s, a), db.s.calls[key])
    requires db.s.calls[key].collateral.amount > 0
    modifies db
    ensures !r.Finished?
    ensures r.GoOn? ==> Sound(db.s) && Trading(old(db.s), db.s, a) && db.s.Supply(a) < old(db.s).Supply(a)
    ensures r.GoOn? ==>
      var c, o := old(db.s).calls[key], old(db.s).limits[id];
      && c.Valid() && o.price.Valid() && ToCover(c, FeedOf(old(db.s), a), o.price, toBuy)
      && SoldFor(old(db.s), db.s, id, key, CallTrade(o.forSale, toBuy, o.price.quote.amount, o.price.base.amount))
      && c.collateral.id in old(db.s).assets && SoldAt(old(db.s), db.s, id, key, toBuy, o.price.quote.amount, o.price.base.amount)
    ensures r.Thrown? <==> CallThrows(db, old(db.s), old(db.s).limits[id], old(db.s).calls[key], FeedOf(old(db.s), a))
    ensures r.Endless? <==> Idles(old(db.s).calls[key], old(db.s).limits[id].price, FeedOf(old(db.s), a))
    ensures r.Endless? ==> db.s == old(db.s) && !ExactFor(FeedOf(old(db.s), a), old(db.s).calls[key])
  {
    hide Gap;
    hide DebtGap;
    hide Burns;
    hide CallsShrink;
    hide Shrinks;
    hide Idles;
    hide MaxDebt;
    hide SearchOverflows;
    hide Database.Fillable;
    hide CallTrade;
    hide FairCover;
    hide SoldAmounts;
    hide CoverPaid;
    hide ExactFor;
    hide ToCover;
    hide FeedsValid;
    hide AssetsValid;
    hide Called;
    hide Squeezes;
    hide Uncrossed;
    hide Conserved;
    hide SettlesValid;
    hide BidsValid;
    hide IdsIssued;
    hide Backed;
    var o, c, feed := db.s.limits[id], db.s.calls[key], FeedOf(db.s, a);
    assert CallValid(db.s, key, c);
    var mp := o.price.Inverse();
    SqueezesMarket(feed, o);
    var most := DebtToCover(c, feed, o.price);
    if most.None? {
      return Thrown, 0;
    }
    toBuy := most.value;
    if toBuy == 0 {
      return Endless, 0;
    }
    DebtWithinSupply(db.s, key);
    CoverOutcome(o, c.debt.amount, toBuy, mp);
    var trade := CallTrade(o.forSale, toBuy, mp.base.amount, mp.quote.amount);
    if trade.receives > MAX_SHARE_SUPPLY || trade.pays > MAX_SHARE_SUPPLY {
      return Thrown, 0;
    }
    ghost var s0 := db.s;
    var ok := CoverCall(db, id, key, trade, true);
    if !ok {
      return Thrown, 0;
    }
    CallTradeIsFair(o.forSale, toBuy, o.price.quote.amount, o.price.base.amount);
    SoldBy(s0, db.s, id, key, trade, true);
    TradingKeepsAssets(s0, db.s, a);
    FilledBookSound(s0, db.s, id, trade.pays);
    TradingKeepsSound(s0, db.s, a);
    return GoOn, toBuy;
  }

  lemma SqueezesMarket(feed: Feed, o: LimitOrder)
    requires feed.price.Valid() && feed.mssr > 0 && Squeezes(feed, o)
    ensures o.price.base.id == feed.price.base.id && o.price.quote.id == feed.price.quote.id
  {
  }

  /// The order and the position after a trade in which the order is the maker.
  ghost predicate SoldFor(s: State, t: State, id: nat, key: (Account, AssetId), trade: Trade)
    requires id in s.limits && s.limits[id].price.Valid() && key in s.calls && s.calls[key].debt.id in s.assets
  {
    && !trade.Dust?
    && trade.pays <= s.limits[id].forSale && trade.receives <= s.calls[key].collateral.amount
    && trade.pays <= s.calls[key].debt.amount && trade.pays <= s.Supply(s.calls[key].debt.id)
    && t.limits == Filled(s.limits, id, trade.pays, true)
    && t.calls == CallFilled(s, key, trade.receives, trade.pays).calls
  }

  lemma BelowHasCollateral(c: CallOrder, p: Price)
    requires Less(c.Collateralization().Inverse(), p)
    ensures c.collateral.amount > 0
  {
    assert c.collateral.amount == 0 ==> c.collateral.amount * p.base.amount == 0;
  }

  lemma SupportedHasCollateral(s: State, a: AssetId, feed: Feed, c: CallOrder)
    requires s.MarketIssued(a) && feed.price.Valid() && feed.mssr > 0 && Supported(s, a, feed, c)
    ensures c.collateral.amount > 0
  {
    hide Less;
    if Less(c.Collateralization().Inverse(), feed.SqueezePrice()) {
      BelowHasCollateral(c, feed.SqueezePrice());
    } else {
      var i :| i in s.limits && Less(c.Collateralization().Inverse(), s.limits[i].price);
      BelowHasCollateral(c, s.limits[i].price);
    }
  }

  lemma NoneCallableByFront(s: State, a: AssetId, best: Option<nat>)
    requires FeedsValid(s) && OrdersValid(s) && Callable(s, a)
    requires best.Some? ==>
      && best.value in s.limits && !Squeezes(FeedOf(s, a), s.limits[best.value])
      && Sells(s.limits[best.value], a, BackingOf(s, a))
      && forall j <- s.limits :: Sells(s.limits[j], a, BackingOf(s, a)) && j != best.value ==>
           Ahead(best.value, s.limits[best.value], j, s.limits[j])
    requires best.None? ==> forall j <- s.limits :: !Sells(s.limits[j], a, BackingOf(s, a))
    ensures NoneCallable(s, a, {})
  {
    var feed := FeedOf(s, a);
    forall i <- s.limits | Squeezes(feed, s.limits[i]) ensures false {
      assert Sells(s.limits[i], a, BackingOf(s, a));
      if i != best.value {
        assert !Less(s.limits[best.value].price, s.limits[i].price);
        SqueezesAhead(feed, s.limits[best.value], s.limits[i]);
      }
    }
  }

  lemma NoneCallableByLeast(s: State, a: AssetId, key: (Account, AssetId))
    requires FeedsValid(s) && CallsValid(s) && Callable(s, a) && key in s.calls && !Called(FeedOf(s, a), s.calls[key])
    requires forall k <- s.calls :: k.1 == a ==> !Less(s.calls[k].Collateralization(), s.calls[key].Collateralization())
    ensures NoneCallable(s, a, {})
  {
    forall k <- s.calls | k.1 == a ensures !Called(FeedOf(s, a), s.calls[k]) {
      assert CallValid(s, k, s.calls[k]) && CallValid(s, key, s.calls[key]);
      NotCalledAbove(FeedOf(s, a), s.calls[key], s.calls[k]);
    }
  }

  lemma MetWithout(s: State, a: AssetId)
    requires MetBut(s, a) && (!Callable(s, a) || forall k <- s.calls :: k.1 != a)
    ensures AllMet(s, {})
  {
  }

  lemma MetAfterSwan(s: State, t: State, a: AssetId)
    requires MetBut(s, a) && AssetsValid(t) && ((s == t && s.Settled(a)) || StruckBySwan(s, t, a))
    ensures AllMet(t, {})
  {
    hide Supported;
    hide GloballySettled;
    if s == t && s.Settled(a) {
      MetWithout(s, a);
    } else {
      var feed := s.assets[a].bitasset.value.feed.value;
      var k :| k in s.calls && GloballySettled(s, t, a, SwanPrice(s.calls[k], feed));
      MetAfterSettlement(s, t, a, SwanPrice(s.calls[k], feed));
    }
  }

  /// The order and the position that are next to trade, if any.
  method NextCall(s: State, a: AssetId) returns (r: Option<(nat, (Account, AssetId))>)
    requires Sound(s) && MetBut(s, a)
    ensures r.None? ==> AllMet(s, {})
    ensures r.Some? ==>
      && Callable(s, a) && r.value.0 in s.limits && r.value.1 in s.calls && r.value.1.1 == a
      && Squeezes(FeedOf(s, a), s.limits[r.value.0]) && Called(FeedOf(s, a), s.calls[r.value.1])
      && (forall j <- s.limits :: Sells(s.limits[j], a, BackingOf(s, a)) && j != r.value.0 ==>
            Ahead(r.value.0, s.limits[r.value.0], j, s.limits[j]))
      && forall k <- s.calls :: k.1 == a ==> !Less(s.calls[k].Collateralization(), s.calls[r.value.1].Collateralization())
  {
    hide Gap;
    hide DebtGap;
    hide NoneCallable;
    hide Squeezes;
    hide Called;
    hide Backed;
    hide AssetsValid;
    hide Conserved;
    hide SettlesValid;
    hide BidsValid;
    hide IdsIssued;
    hide Uncrossed;
    hide Less;
    hide Ahead;
    if !Callable(s, a) {
      MetWithout(s, a);
      return None;
    }
    var feed := FeedOf(s, a);
    var best := BestSeller(s.limits, a, BackingOf(s, a));
    if best.None? || !Squeezes(feed, s.limits[best.value]) {
      NoneCallableByFront(s, a, best);
      MetAll(s, a);
      return None;
    }
    assert forall k <- s.calls :: CallValid(s, k, s.calls[k]);
    var key := LeastCollateralized(s.calls, a);
    if key.None? {
      MetWithout(s, a);
      return None;
    }
    if !Called(feed, s.calls[key.value]) {
      NoneCallableByLeast(s, a, key.value);
      MetAll(s, a);
      return None;
    }
    return Some((best.value, key.value));
  }

  /// The whole debt costs more than the collateral at the order's price: the other way
  /// in which a margin call ends in settlement.
  method SettleAtFeed(db: Database, a: AssetId, enable: bool) returns (r: Match)
    requires Sound(db.s) && MetBut(db.s, a) && Callable(db.s, a)
    modifies db
    ensures r.Thrown? || r.Finished?
    ensures r.Finished? ==> enable && Inv(db.s) && GloballySettled(old(db.s), db.s, a, FeedOf(old(db.s), a).price)
    ensures r.Finished? ==> db.s.Settled(a) && db.s.revived == old(db.s).revived
    ensures r.Finished? <==> enable && AllPayable(old(db.s).calls, a, FeedOf(old(db.s), a).price)
  {
    hide Gap;
    hide DebtGap;
    hide GloballySettled;
    hide AllPayable;
    if !enable {
      return Thrown;
    }
    ghost var s0 := db.s;
    var price := FeedOf(db.s, a).price;
    var ok := GloballySettle(db, a, price);
    if !ok {
      return Thrown;
    }
    SettlementKeepsSound(s0, db.s, a, price);
    MetAfterSettlement(s0, db.s, a, price);
    return Finished;
  }

  lemma TradingInexact(s: State, t: State, a: AssetId, key: (Account, AssetId))
    requires FeedsValid(s) && Trading(s, t, a) && Callable(t, a) && FeedsValid(t)
    requires key in t.calls && key.1 == a && !ExactFor(FeedOf(t, a), t.calls[key])
    ensures Inexact(s, a)
  {
    hide ExactFor;
    SameFeeds(s, t);
    SameExactness(FeedOf(s, a), s.calls[key], t.calls[key]);
  }

  /// From now on margin calls are made for the asset.
  function Watched(s: State, a: AssetId): State {
    s.(revived := s.revived - {a})
  }

  lemma WatchedIsSound(s: State, a: AssetId)
    requires Sound(s) && MetBut(s, a)
    ensures Sound(Watched(s, a)) && MetBut(Watched(s, a), a)
    ensures Inexact(Watched(s, a), a) ==> Inexact(s, a)
  {
    hide Gap;
    hide DebtGap;
    hide Uncrossed;
    hide Worth;
    hide NoneCallable;
    var t := Watched(s, a);
    SameBooks(s, t);
    CallsStayValid(s, t, a);
    StaysBacked(s, t);
    MetWatched(s, a);
  }

  lemma MetWatched(s: State, a: AssetId)
    requires MetBut(s, a)
    ensures MetBut(Watched(s, a), a)
  {
    hide Squeezes;
    hide Called;
    forall b | b != a ensures NoneCallable(Watched(s, a), b, {}) {
      assert NoneCallable(s, b, {});
    }
  }

  /// An order meets a called position that idles at the order's price.
  ghost predicate JamsAtOrder(s: State, a: AssetId) {
    && Callable(s, a) && FeedsValid(s)
    && exists k <- s.calls, i <- s.limits ::
      && k.1 == a && Squeezes(FeedOf(s, a), s.limits[i]) && Called(FeedOf(s, a), s.calls[k])
      && Idles(s.calls[k], s.limits[i].price, FeedOf(s, a))
  }

  /// An order asks more for the debt of a called position than the position has, and the
  /// asset is settled at the feed's price.
  ghost predicate Overrun(s: State, t: State, a: AssetId) {
    && Callable(s, a) && FeedsValid(s) && GloballySettled(s, t, a, FeedOf(s, a).price)
    && exists k <- s.calls, i <- s.limits ::
      && k.1 == a && Squeezes(FeedOf(s, a), s.limits[i]) && Called(FeedOf(s, a), s.calls[k])
      && Times(s.calls[k].debt, s.limits[i].price).Some?
      && Times(s.calls[k].debt, s.limits[i].price).value.amount > s.calls[k].collateral.amount
  }

  /// What margin calls may do: trade, and in the end settle the asset.
  ghost predicate CallsMade(s: State, t: State, a: AssetId) {
    || Trading(s, t, a)
    || exists u :: Trading(s, u, a) && (StruckBySwan(u, t, a) || Overrun(u, t, a))
  }

  /// What makes check_call_orders throw: a settlement that is refused, or an order and a
  /// called position whose trade fails.
  ghost predicate CallsThrow(db: Database, s: State, a: AssetId, enable: bool) {
    || SwanRefused(s, a, enable)
    || (Callable(s, a) && FeedsValid(s) && OrdersValid(s)
        && exists k <- s.calls, i <- s.limits ::
          k.1 == a && Squeezes(FeedOf(s, a), s.limits[i]) && Called(FeedOf(s, a), s.calls[k])
          && TradeThrows(db, s, s.limits[i], s.calls[k], FeedOf(s, a), enable))
  }

  ghost predicate TradeThrows(db: Database, s: State, o: LimitOrder, c: CallOrder, feed: Feed, enable: bool)
    requires feed.price.Valid() && feed.mcr > 0 && o.Valid(s.assets.Keys)
  {
    var worth := Times(c.debt, o.price);
    || worth.None?
    || (worth.value.amount > c.collateral.amount && (enable ==> !AllPayable(s.calls, c.debt.id, feed.price)))
    || CallThrows(db, s, o, c, feed)
  }

  lemma TradeThrew(db: Database, s: State, a: AssetId, enable: bool, id: nat, key: (Account, AssetId))
    requires Sound(s) && FeedsValid(s) && Callable(s, a) && id in s.limits && key in s.calls && key.1 == a
    requires s.limits[id].Valid(s.assets.Keys)
    requires Squeezes(FeedOf(s, a), s.limits[id]) && Called(FeedOf(s, a), s.calls[key])
    requires s.calls[key].debt.id == a ==> TradeThrows(db, s, s.limits[id], s.calls[key], FeedOf(s, a), enable)
    ensures CallsThrow(db, s, a, enable)
  {
    hide TradeThrows;
    hide Squeezes;
    hide Called;
    hide SwanRefused;
    assert CallValid(s, key, s.calls[key]);
  }

  lemma SoundOrder(s: State, id: nat)
    requires Sound(s) && id in s.limits
    ensures s.limits[id].Valid(s.assets.Keys)
  {
  }

  /// check_call_orders.  Afterwards no order meets a called position of the asset, or
  /// the asset has been settled.
  method CheckCallOrders(db: Database, a: AssetId, enable: bool) returns (r: Match, called: bool)
    requires Sound(db.s) && MetBut(db.s, a)
    modifies db
    ensures !r.GoOn?
    ensures r.Finished? && !called && !db.s.Settled(a) ==> db.s == Watched(old(db.s), a)
    ensures r.Finished? ==> a !in db.s.revived
    ensures r.Finished? && called && !db.s.Settled(a) ==> db.s.Supply(a) < old(db.s).Supply(a)
    ensures r.Finished? ==> Inv(db.s)
    ensures r.Finished? ==> CallsMade(Watched(old(db.s), a), db.s, a)
    ensures r.Finished? && !db.s.Settled(a) ==> Trading(Watched(old(db.s), a), db.s, a)
    ensures r.Finished? && !enable && db.s.Settled(a) ==> old(db.s).Settled(a)
    ensures r.Finished? && old(db.s).Settled(a) ==> db.s == Watched(old(db.s), a)
    ensures r.Endless? ==> Inexact(old(db.s), a) && Trading(Watched(old(db.s), a), db.s, a) && JamsAtOrder(db.s, a)
    ensures r.Thrown? ==> exists u :: Trading(Watched(old(db.s), a), u, a) && CallsThrow(db, u, a, enable)
  {
    hide SwanRefused;
    hide CallThrows;
    hide AllPayable;
    hide Gap;
    hide DebtGap;
    hide Trading;
    hide NoneCallable;
    hide Squeezes;
    hide Called;
    hide ExactFor;
    hide StruckBySwan;
    hide Sound;
    hide MetBut;
    hide AllMet;
    hide GloballySettled;
    hide Less;
    hide Ahead;
    hide Times;
    hide Idles;
    WatchedIsSound(db.s, a);
    db.s := Watched(db.s, a);
    ghost var s0 := db.s;
    called := false;
    TradingReflexive(db.s, a);
    while true
      invariant called ==> db.s.Supply(a) < s0.Supply(a)
      invariant (!called ==> db.s == s0) && a !in db.s.revived && (s0.Settled(a) ==> !called)
      invariant Sound(db.s) && MetBut(db.s, a) && Trading(s0, db.s, a)
      decreases db.s.Supply(a)
    {
      ghost var s1 := db.s;
      SoundMet(s0, s1, a);
      var swan := CheckForBlackSwan(db, a, enable);
      if swan.Refused? {
        assert CallsThrow(db, s1, a, enable);
        return Thrown, called;
      }
      if swan.Yes? {
        SoundAssets(db.s);
        MetAfterSwan(s1, db.s, a);
        return Finished, called;
      }
      var next := NextCall(db.s, a);
      if next.None? {
        return Finished, called;
      }
      var id, key := next.value.0, next.value.1;
      called := true;
      SupportedHasCollateral(db.s, a, FeedOf(db.s, a), db.s.calls[key]);
      SoundOrder(db.s, id);
      var worth := Times(db.s.calls[key].debt, db.s.limits[id].price);
      if worth.None? {
        TradeThrew(db, s1, a, enable, id, key);
        return Thrown, called;
      }
      if worth.value.amount > db.s.calls[key].collateral.amount {
        r := SettleAtFeed(db, a, enable);
        assert r.Finished? ==> Overrun(s1, db.s, a);
        if r.Thrown? { TradeThrew(db, s1, a, enable, id, key); }
        return;
      }
      var toBuy;
      r, toBuy := CallOnce(db, a, id, key);
      if r.Thrown? {
        TradeThrew(db, s1, a, enable, id, key);
        return;
      }
      if r.Endless? {
        TradingInexact(s0, s1, a, key);
        return;
      }
      TradingKeepsRevived(s1, db.s, a);
      MetButTrading(s1, db.s, a);
      TradingTransitive(s0, s1, db.s, a);
    }
  }

  lemma TradingKeepsRevived(s: State, t: State, a: AssetId)
    requires Trading(s, t, a)
    ensures t.revived == s.revived
  {
  }

  lemma SoundAssets(s: State)
    requires Sound(s)
    ensures AssetsValid(s) && FeedsValid(s)
  {
    SoundFeeds(s);
  }

  lemma SoundMet(s: State, t: State, a: AssetId)
    requires MetBut(t, a) && Trading(s, t, a) && Sound(t)
    ensures FeedsValid(s) && FeedsValid(t) && s.Settled(a) == t.Settled(a)
  {
    SameFeedsBack(s, t);
  }

  lemma SameFeedsBack(s: State, t: State)
    requires FeedsValid(t) && SameSetup(s, t)
    ensures FeedsValid(s) && forall a <- s.assets :: s.assets[a].bitasset == t.assets[a].bitasset
  {
    forall a <- s.assets ensures s.assets[a].bitasset == t.assets[a].bitasset {
      assert s.assets[a].Setup().bitasset == t.assets[a].Setup().bitasset;
    }
  }
}