/** Matching two limit orders (database::match and database::apply_order in db_market.cpp). */
module Matching {
  import opened Options
  import opened Prices
  import opened MarginCall
  import opened MarketState
  import opened MarketDatabase
  import opened OrderBook
  import opened Trades

  ghost predicate OrdersValid(s: State) {
    forall i <- s.limits :: s.limits[i].Valid(s.assets.Keys)
  }

  /// How a match ended for the taker: it goes on when only the maker was filled.
  /// `Endless` when the code repeats a match in which nothing is traded.
  datatype Match = Thrown | Endless | Finished | GoOn

  function TradeOf(taker: LimitOrder, maker: LimitOrder): Trade
    requires maker.price.Valid()
  {
    LimitTrade(taker.forSale, maker.forSale, maker.price.base.amount, maker.price.quote.amount)
  }

  /// The book after a fill of order `id`.
  function Filled(m: Orders, id: nat, pays: nat, cull: bool): (n: Orders)
    requires id in m && m[id].price.Valid() && pays <= m[id].forSale
  {
    if pays == m[id].forSale || (cull && Reduced(m[id], pays).ToReceive() == 0) then m - {id}
    else m[id := Reduced(m[id], pays)]
  }

  /// The book after a match.
  ghost function AfterMatch(m: Orders, taker: nat, maker: nat): Orders
    requires taker in m && maker in m && taker != maker && m[taker].price.Valid() && m[maker].price.Valid()
    requires TradeOf(m[taker], m[maker]).Dust? ||
      (TradeOf(m[taker], m[maker]).pays <= m[taker].forSale && TradeOf(m[taker], m[maker]).receives <= m[maker].forSale)
  {
    match TradeOf(m[taker], m[maker])
    case Dust => m
    case TakerFilled(p, r) => Filled(m - {taker}, maker, r, true)
    case MakerFilled(p, r) => m[taker := Reduced(m[taker], p)] - {maker}
  }

  /** What the trade does to the two orders: the smaller one always leaves the book,
      and a maker that stays still asks for something. */
  lemma MatchOutcome(o: LimitOrder, p: LimitOrder)
    requires o.price.Valid() && p.price.Valid() && Crosses(o, p) && o.forSale > 0 && p.ToReceive() > 0
    ensures match TradeOf(o, p)
            case Dust => o.ToReceive() == 0
            case TakerFilled(pays, gets) =>
              && 0 < pays <= o.forSale && 0 < gets <= p.forSale
              && (pays == o.forSale || Reduced(o, pays).ToReceive() == 0)
            case MakerFilled(pays, gets) =>
              && 0 < pays < o.forSale && 0 < gets <= p.forSale
              && (gets == p.forSale || Reduced(p, gets).ToReceive() == 0)
  {
    var b, q := p.price.base.amount, p.price.quote.amount;
    TradeWithinOffers(o.forSale, p.forSale, b, q);
    match TradeOf(o, p)
    case Dust => DustAtOwnPrice(o.forSale, b, q, o.price.base.amount, o.price.quote.amount);
    case TakerFilled(pays, gets) =>
      DustAtOwnPrice(o.forSale - pays, b, q, o.price.base.amount, o.price.quote.amount);
    case MakerFilled(pays, gets) =>
  }

  /// What each seller has after the exchange of `pays` for `receives`: the proceeds less the
  /// market fee, and what is given back of an order that leaves.
  ghost predicate Swapped(s: State, t: State, taker: nat, maker: nat, pays: nat, receives: nat)
    requires taker in s.limits && maker in s.limits
    requires s.limits[taker].price.base.id in s.assets && s.limits[maker].price.base.id in s.assets
  {
    var o, m := s.limits[taker], s.limits[maker];
    var x, y := o.price.base.id, m.price.base.id;
    && pays <= o.forSale && receives <= m.forSale
    && (taker in t.limits ==> t.limits[taker].forSale == o.forSale - pays)
    && (maker in t.limits ==> t.limits[maker].forSale == m.forSale - receives)
    && forall w: Account, z: AssetId ::
      t.Balance(w, z) == s.Balance(w, z)
      + (if w == o.seller && z == y then receives - MarketFee(s.assets[y], receives) else 0)
      + (if w == m.seller && z == x then pays - MarketFee(s.assets[x], pays) else 0)
      + (if w == o.seller && z == x && taker !in t.limits then o.forSale - pays else 0)
      + (if w == m.seller && z == y && maker !in t.limits then m.forSale - receives else 0)
  }

  lemma BothFilled(s: State, u: State, t: State, taker: nat, maker: nat, pays: nat, receives: nat, cull: bool)
    requires OrdersValid(s) && taker in s.limits && maker in s.limits && taker != maker && SameCore(s, u)
    requires s.limits[taker].price.base.id == s.limits[maker].price.quote.id
    requires s.limits[taker].price.quote.id == s.limits[maker].price.base.id
    requires pays <= s.limits[taker].forSale && receives <= s.limits[maker].forSale
    requires OrderFilled(s, u, taker, pays, receives, cull) && u.assets.Keys == s.assets.Keys
    requires OrderFilled(u, t, maker, receives, pays, true)
    ensures t.limits == Filled(Filled(s.limits, taker, pays, cull), maker, receives, true)
    ensures Swapped(s, t, taker, maker, pays, receives)
  {
    hide MarketFee;
    hide Adjusted;
    hide SameCore;
    hide LimitOrder.ToReceive;
    var o, m := s.limits[taker], s.limits[maker];
    var x, y := o.price.base.id, m.price.base.id;
    SameFee(s, u, x, pays);
    var d, e := receives - MarketFee(s.assets[y], receives), pays - MarketFee(s.assets[x], pays);
    AdjustedTwice(s, u, o.seller, y, d, x, if Leaves(o, pays, cull) then o.forSale - pays else 0);
    AdjustedTwice(u, t, m.seller, x, e, y, if Leaves(m, receives, true) then m.forSale - receives else 0);
  }

  lemma StillThere(s: State, t: State, id: nat, other: nat, pays: nat, receives: nat, cull: bool)
    requires id in s.limits && s.limits[id].Valid(s.assets.Keys) && pays <= s.limits[id].forSale
    requires OrderFilled(s, t, id, pays, receives, cull) && other in s.limits && other != id
    ensures other in t.limits && t.limits[other] == s.limits[other]
  {
  }

  lemma FilledBook(s: State, t: State, id: nat, pays: nat, receives: nat, cull: bool)
    requires id in s.limits && s.limits[id].Valid(s.assets.Keys) && pays <= s.limits[id].forSale
    requires OrderFilled(s, t, id, pays, receives, cull)
    ensures t.limits == Filled(s.limits, id, pays, cull)
  {
    hide Adjusted;
    hide MarketFee;
    hide LimitOrder.ToReceive;
  }

  lemma AdjustedTwice(s: State, t: State, who: Account, a: AssetId, d: nat, b: AssetId, e: nat)
    requires t.balances == Adjusted(Adjusted(s.balances, who, a, d), who, b, e)
    ensures forall w: Account, z: AssetId ::
      t.Balance(w, z) == s.Balance(w, z) + (if w == who && z == a then d else 0) + (if w == who && z == b then e else 0)
  {
  }

  lemma SameFee(s: State, t: State, a: AssetId, amount: nat)
    requires SameCore(s, t) && a in s.assets
    ensures MarketFee(t.assets[a], amount) == MarketFee(s.assets[a], amount)
  {
    var d, e := s.assets[a], t.assets[a];
    assert d.Core().feePercent == d.feePercent && e.Core().feePercent == e.feePercent;
    assert d.Core().maxMarketFee == d.maxMarketFee && e.Core().maxMarketFee == e.maxMarketFee;
  }

  /// The two fills of a trade.
  method FillBoth(db: Database, taker: nat, maker: nat, trade: Trade) returns (ok: bool)
    requires taker in db.s.limits && maker in db.s.limits && taker != maker && OrdersValid(db.s) && !trade.Dust?
    requires trade.pays <= db.s.limits[taker].forSale && trade.receives <= db.s.limits[maker].forSale
    requires db.s.limits[taker].price.base.id == db.s.limits[maker].price.quote.id
    requires db.s.limits[taker].price.quote.id == db.s.limits[maker].price.base.id
    modifies db
    ensures ok <==>
      && db.Fillable(old(db.s), old(db.s).limits[taker], trade.pays, trade.receives, trade.TakerFilled?)
      && db.Fillable(old(db.s), old(db.s).limits[maker], trade.receives, trade.pays, true)
    ensures ok ==>
      && db.s.limits == Filled(Filled(old(db.s).limits, taker, trade.pays, trade.TakerFilled?), maker, trade.receives, true)
      && SameCore(old(db.s), db.s) && SameButLimits(old(db.s), db.s)
      && SameGaps(old(db.s), db.s)
      && Swapped(old(db.s), db.s, taker, maker, trade.pays, trade.receives)
  {
    hide Gap;
    hide SameCore;
    hide Adjusted;
    hide MarketFee;
    hide Filled;
    hide Swapped;
    hide Database.Fillable;
    hide Database.FeesPaid;
    hide OrderFilled;
    ghost var s0 := db.s;
    var p := db.s.limits[maker];
    var first := db.FillLimitOrder(taker, trade.pays, trade.receives, trade.TakerFilled?);
    if first.Failed? {
      return false;
    }
    ghost var s1 := db.s;
    SameIds(old(db.s), s1);
    CoreBurnsNothing(old(db.s), s1, CORE);
    db.StaysFillable(old(db.s), s1, p, trade.receives, trade.pays, true);
    StillThere(s0, s1, taker, maker, trade.pays, trade.receives, trade.TakerFilled?);
    var second := db.FillLimitOrder(maker, trade.receives, trade.pays, true);
    if second.Failed? {
      return false;
    }
    BothFilled(s0, s1, db.s, taker, maker, trade.pays, trade.receives, trade.TakerFilled?);
    SameCoreTransitive(old(db.s), s1, db.s);
    return true;
  }

  /// The orders exchanged amounts that are fair at the maker's price, and their sellers have
  /// the proceeds.
  ghost predicate SwappedAtMakersPrice(s: State, t: State, taker: nat, maker: nat)
    requires OrdersValid(s) && taker in s.limits && maker in s.limits
  {
    var o, m := s.limits[taker], s.limits[maker];
    exists pays, receives ::
      && FairTrade(o.forSale, m.forSale, m.price.base.amount, m.price.quote.amount, pays, receives)
      && Swapped(s, t, taker, maker, pays, receives)
  }

  lemma NothingSwapped(s: State, taker: nat, maker: nat)
    requires OrdersValid(s) && taker in s.limits && maker in s.limits
    ensures Swapped(s, s, taker, maker, 0, 0)
  {
    assert forall d: AssetData :: MarketFee(d, 0) == 0;
  }

  /// A match of the two orders throws: a product exceeds the share supply, or one of the
  /// fills fails.
  predicate MatchThrows(db: Database, s: State, taker: LimitOrder, maker: LimitOrder)
    requires taker.Valid(s.assets.Keys) && maker.Valid(s.assets.Keys)
  {
    var trade := TradeOf(taker, maker);
    || maker.ToReceive() > MAX_SHARE_SUPPLY
    || (!trade.Dust? && (trade.receives > MAX_SHARE_SUPPLY || trade.pays > MAX_SHARE_SUPPLY))
    || (!trade.Dust? && trade.pays <= taker.forSale && trade.receives <= maker.forSale
        && !(db.Fillable(s, taker, trade.pays, trade.receives, trade.TakerFilled?)
             && db.Fillable(s, maker, trade.receives, trade.pays, true)))
  }

  /// database::match for two limit orders, at the maker's price.
  method MatchLimits(db: Database, taker: nat, maker: nat) returns (r: Match)
    requires taker in db.s.limits && maker in db.s.limits && OrdersValid(db.s)
    requires Crosses(db.s.limits[taker], db.s.limits[maker]) && db.s.limits[maker].ToReceive() > 0
    modifies db
    ensures !r.Endless?
    ensures r.Thrown? <==> MatchThrows(db, old(db.s), old(db.s).limits[taker], old(db.s).limits[maker])
    ensures !r.Thrown? ==>
      var m := old(db.s).limits;
      && taker != maker
      && (TradeOf(m[taker], m[maker]).Dust? ||
          (TradeOf(m[taker], m[maker]).pays <= m[taker].forSale && TradeOf(m[taker], m[maker]).receives <= m[maker].forSale))
      && db.s.limits == AfterMatch(m, taker, maker)
      && (r.GoOn? <==> TradeOf(m[taker], m[maker]).MakerFilled?)
      && SameCore(old(db.s), db.s) && SameButLimits(old(db.s), db.s)
      && SameGaps(old(db.s), db.s)
    ensures !r.Thrown? ==> SwappedAtMakersPrice(old(db.s), db.s, taker, maker)
  {
    hide Gap;
    hide SameCore;
    hide Database.Fillable;
    hide Swapped;
    hide LimitTrade;
    hide FairTrade;
    var o, p := db.s.limits[taker], db.s.limits[maker];
    var limit := Times(Asset(p.forSale, p.price.base.id), p.price);
    if limit.None? {
      return Thrown;
    }
    MatchOutcome(o, p);
    SameCoreReflexive(db.s);
    LimitTradeIsFair(o.forSale, p.forSale, p.price.base.amount, p.price.quote.amount);
    var trade := TradeOf(o, p);
    if trade.Dust? {
      NothingSwapped(db.s, taker, maker);
      return Finished;
    }
    if trade.receives > MAX_SHARE_SUPPLY || trade.pays > MAX_SHARE_SUPPLY {
      return Thrown;
    }
    var ok := FillBoth(db, taker, maker, trade);
    if !ok {
      return Thrown;
    }
    r := if trade.MakerFilled? then GoOn else Finished;
  }

  // ------------------------------------------------------------------
  // Limit orders and positions

  /// Orders are filled and removed, debt of `a` is repaid, and nothing is created
  /// or destroyed.
  ghost predicate Trading(s: State, t: State, a: AssetId) {
    && Burns(s, t, a) && CallsShrink(s.calls, t.calls, a) && Shrinks(s.limits, t.limits)
    && t.settles == s.settles && t.bids == s.bids && t.nextId == s.nextId && t.revived == s.revived
    && SameGaps(s, t) && SameDebtGaps(s, t)
  }

  lemma TradingTransitive(s: State, t: State, u: State, a: AssetId)
    requires Trading(s, t, a) && Trading(t, u, a)
    ensures Trading(s, u, a)
  {
    hide Gap;
    hide DebtGap;
    BurnsTransitive(s, t, u, a);
    CallsShrinkTransitive(s.calls, t.calls, u.calls, a);
    ShrinksTransitive(s.limits, t.limits, u.limits);
  }

  lemma FilledShrinks(m: Orders, id: nat, pays: nat, cull: bool)
    requires id in m && m[id].price.Valid() && pays <= m[id].forSale
    ensures Shrinks(m, Filled(m, id, pays, cull))
  {
  }

  lemma CallFilledShrinks(s: State, k: (Account, AssetId), pays: nat, receives: nat)
    requires k in s.calls && s.calls[k].debt.id == k.1 && k.1 in s.assets
    requires pays <= s.calls[k].collateral.amount
    requires receives <= s.calls[k].debt.amount && receives <= s.Supply(s.calls[k].debt.id)
    ensures CallsShrink(s.calls, CallFilled(s, k, pays, receives).calls, k.1)
  {
  }

  /// What seller and borrower have after `pays` of debt for `receives` of collateral: the
  /// proceeds less the market fee, what is given back of an order that leaves, and the rest of
  /// the collateral of a position that is closed.
  ghost predicate CoverPaid(s: State, t: State, id: nat, key: (Account, AssetId), pays: nat, receives: nat)
    requires id in s.limits && key in s.calls && s.calls[key].collateral.id in s.assets
  {
    var o, c := s.limits[id], s.calls[key];
    var x, y := o.price.base.id, c.collateral.id;
    forall w: Account, z: AssetId ::
      t.Balance(w, z) == s.Balance(w, z)
      + (if w == o.seller && z == y then receives - MarketFee(s.assets[y], receives) else 0)
      + (if w == o.seller && z == x && id !in t.limits then o.forSale - pays else 0)
      + (if w == c.borrower && z == y && key !in t.calls then c.collateral.amount - receives else 0)
  }

  lemma CoverFilled(s: State, u: State, t: State, id: nat, key: (Account, AssetId), pays: nat, receives: nat, cull: bool)
    requires OrdersValid(s) && id in s.limits && key in s.calls && CallsValid(s) && pays <= s.limits[id].forSale
    requires s.limits[id].price.base.id == key.1 && s.limits[id].price.quote.id == s.calls[key].collateral.id
    requires pays <= s.calls[key].debt.amount <= s.Supply(key.1)
    requires OrderFilled(s, u, id, pays, receives, cull) && SameCore(s, u) && u.assets.Keys == s.assets.Keys && SameButLimits(s, u)
    requires u.Supply(key.1) == s.Supply(key.1) && s.calls[key].debt.id == key.1 && key.1 in s.assets
    requires PositionFilled(u, t, key, receives, pays)
    ensures t.limits == Filled(s.limits, id, pays, cull) && t.calls == CallFilled(s, key, receives, pays).calls
    ensures Burns(u, t, key.1) && t.Supply(key.1) == s.Supply(key.1) - pays
    ensures t.settles == s.settles && t.bids == s.bids && t.nextId == s.nextId && t.revived == s.revived
    ensures s.calls[key].collateral.id in s.assets && CoverPaid(s, t, id, key, pays, receives)
  {
    hide Adjusted;
    hide SameCore;
    hide Burns;
    hide OrderFilled;
    hide CoverPaid;
    hide Filled;
    hide CallsValid;
    assert s.limits[id].Valid(s.assets.Keys);
    FilledBook(s, u, id, pays, receives, cull);
    SupplyBurns(u, t, key.1, pays);
    CoverIsPaid(s, u, t, id, key, pays, receives, cull);
  }

  lemma CoverIsPaid(s: State, u: State, t: State, id: nat, key: (Account, AssetId), pays: nat, receives: nat, cull: bool)
    requires id in s.limits && s.limits[id].Valid(s.assets.Keys) && pays <= s.limits[id].forSale
    requires key in s.calls && s.limits[id].price.quote.id == s.calls[key].collateral.id && receives <= s.calls[key].collateral.amount
    requires OrderFilled(s, u, id, pays, receives, cull) && t.limits == u.limits
    requires t.balances == Adjusted(u.balances, s.calls[key].borrower, s.calls[key].collateral.id,
                                    if pays == s.calls[key].debt.amount then s.calls[key].collateral.amount - receives else 0)
    requires key !in t.calls <==> pays == s.calls[key].debt.amount
    ensures CoverPaid(s, t, id, key, pays, receives)
  {
    hide MarketFee;
    hide Adjusted;
    hide LimitOrder.ToReceive;
    var o, c := s.limits[id], s.calls[key];
    AdjustedTwice(s, u, o.seller, o.price.quote.id, receives - MarketFee(s.assets[o.price.quote.id], receives),
                  o.price.base.id, if Leaves(o, pays, cull) then o.forSale - pays else 0);
    AdjustedOnce(u, t, c.borrower, c.collateral.id, if pays == c.debt.amount then c.collateral.amount - receives else 0);
  }

  lemma CoreSupply(s: State, t: State, a: AssetId)
    requires SameCore(s, t) && a in s.assets
    ensures t.assets.Keys == s.assets.Keys && t.Supply(a) == s.Supply(a)
  {
    assert s.assets[a].Core().supply == s.assets[a].supply && t.assets[a].Core().supply == t.assets[a].supply;
  }

  lemma AdjustedOnce(s: State, t: State, who: Account, a: AssetId, d: nat)
    requires t.balances == Adjusted(s.balances, who, a, d)
    ensures forall w: Account, z: AssetId :: t.Balance(w, z) == s.Balance(w, z) + (if w == who && z == a then d else 0)
  {
  }

  /// The two fills when a limit order sells debt to a position.
  method CoverCall(db: Database, id: nat, key: (Account, AssetId), trade: Trade, cull: bool) returns (ok: bool)
    requires id in db.s.limits && OrdersValid(db.s) && key in db.s.calls && CallsValid(db.s) && !trade.Dust?
    requires db.s.limits[id].price.base.id == key.1
    requires db.s.limits[id].price.quote.id == db.s.calls[key].collateral.id
    requires trade.pays <= db.s.limits[id].forSale
    requires trade.pays <= db.s.calls[key].debt.amount <= db.s.Supply(key.1)
    modifies db
    ensures ok <==>
      && db.Fillable(old(db.s), old(db.s).limits[id], trade.pays, trade.receives, cull)
      && trade.receives <= old(db.s).calls[key].collateral.amount
    ensures ok ==>
      && trade.receives <= old(db.s).calls[key].collateral.amount
      && db.s.limits == Filled(old(db.s).limits, id, trade.pays, cull)
      && db.s.calls == CallFilled(old(db.s), key, trade.receives, trade.pays).calls
      && Trading(old(db.s), db.s, key.1)
      && db.s.Supply(key.1) == old(db.s).Supply(key.1) - trade.pays
      && old(db.s).calls[key].collateral.id in old(db.s).assets
      && CoverPaid(old(db.s), db.s, id, key, trade.pays, trade.receives)
  {
    hide Gap;
    hide DebtGap;
    hide SameCore;
    hide Burns;
    hide CallsShrink;
    hide Shrinks;
    hide OrderFilled;
    hide PositionFilled;
    hide CoverPaid;
    hide Filled;
    hide Database.Fillable;
    hide Database.FeesPaid;
    assert CallValid(db.s, key, db.s.calls[key]);
    FilledShrinks(db.s.limits, id, trade.pays, cull);
    var first := db.FillLimitOrder(id, trade.pays, trade.receives, cull);
    if first.Failed? {
      return false;
    }
    ghost var s1 := db.s;
    CoreBurnsNothing(old(db.s), s1, key.1);
    CoreSupply(old(db.s), s1, key.1);
    SameDebts(old(db.s), s1);
    var second := db.FillCallOrder(key, trade.receives, trade.pays);
    if second.Failed? {
      return false;
    }
    CallFilledShrinks(old(db.s), key, trade.receives, trade.pays);
    CoverFilled(old(db.s), s1, db.s, id, key, trade.pays, trade.receives, cull);
    BurnsTransitive(old(db.s), s1, db.s, key.1);
    return true;
  }

  lemma SupplyBurns(s: State, t: State, a: AssetId, d: nat)
    requires a in s.assets && d <= s.assets[a].supply
    requires t.assets == s.assets[a := s.assets[a].(supply := s.assets[a].supply - d)]
    ensures Burns(s, t, a)
  {
  }

  /// The book while order `id` is being matched.
  ghost predicate Ready(s: State, id: nat) {
    OrdersValid(s) && UncrossedExcept(s.limits, id) && WorthExcept(s.limits, id)
  }

  lemma FilledStaysReady(s: State, t: State, id: nat, other: nat, pays: nat, cull: bool)
    requires Ready(s, id) && other in s.limits && pays <= s.limits[other].forSale && (other != id ==> cull)
    requires t.limits == Filled(s.limits, other, pays, cull) && t.assets.Keys == s.assets.Keys
    ensures Ready(t, id)
  {
    FilledShrinks(s.limits, other, pays, cull);
    UncrossedShrinks(s.limits, t.limits, id);
    assert forall i <- t.limits :: i != other ==> t.limits[i] == s.limits[i];
  }

  /// Two fills one after the other, the maker's last.
  lemma FillsStayReady(s: State, t: State, id: nat, maker: nat, pays: nat, receives: nat, cull: bool)
    requires Ready(s, id) && id in s.limits && maker in s.limits && id != maker
    requires pays <= s.limits[id].forSale && receives <= s.limits[maker].forSale
    requires t.limits == Filled(Filled(s.limits, id, pays, cull), maker, receives, true) && t.assets.Keys == s.assets.Keys
    ensures Ready(t, id) && Shrinks(s.limits, t.limits)
  {
    hide UncrossedExcept;
    hide WorthExcept;
    var u := s.(limits := Filled(s.limits, id, pays, cull));
    FilledStaysReady(s, u, id, id, pays, cull);
    FilledStaysReady(u, t, id, maker, receives, true);
    FilledShrinks(s.limits, id, pays, cull);
    FilledShrinks(u.limits, maker, receives, true);
    ShrinksTransitive(s.limits, u.limits, t.limits);
  }

  lemma SmallerBook(m: Orders, n: Orders, k: nat)
    requires Shrinks(m, n) && k in m && k !in n
    ensures |n| < |m|
  {
    Cardinality(n.Keys, m.Keys, k);
  }

  lemma {:induction false} Cardinality(a: set<nat>, b: set<nat>, k: nat)
    requires a <= b && k in b && k !in a
    ensures |a| < |b|
  {
    if a != {} {
      var x :| x in a;
      Cardinality(a - {x}, b - {x}, k);
    }
  }

  lemma MatchStaysReady(s: State, t: State, id: nat, maker: nat)
    requires Ready(s, id) && id in s.limits && maker in s.limits && id != maker && Crosses(s.limits[id], s.limits[maker])
    requires t.assets.Keys == s.assets.Keys
    requires t.limits == (MatchOutcome(s.limits[id], s.limits[maker]); AfterMatch(s.limits, id, maker))
    ensures Ready(t, id) && Shrinks(s.limits, t.limits)
    ensures TradeOf(s.limits[id], s.limits[maker]).MakerFilled? ==>
      id in t.limits && maker !in t.limits && |t.limits| < |s.limits|
    ensures !TradeOf(s.limits[id], s.limits[maker]).MakerFilled? ==>
      id !in t.limits || t.limits[id].ToReceive() == 0
  {
    hide UncrossedExcept;
    hide TradeOf;
    var m := s.limits;
    var trade := TradeOf(m[id], m[maker]);
    MatchOutcome(m[id], m[maker]);
    if !trade.Dust? {
      FillsStayReady(s, t, id, maker, trade.pays, trade.receives, trade.TakerFilled?);
      if trade.MakerFilled? {
        SmallerBook(m, t.limits, maker);
      }
    }
  }

  /// Only the order book has been traded on.
  ghost predicate BookTraded(s: State, t: State) {
    SameCore(s, t) && SameButLimits(s, t) && SameGaps(s, t) && Shrinks(s.limits, t.limits)
  }

  /// A match that the order is due throws.
  ghost predicate BookStuck(db: Database, s: State, id: nat) {
    && OrdersValid(s) && id in s.limits
    && exists j <- s.limits :: Crosses(s.limits[id], s.limits[j]) && MatchThrows(db, s, s.limits[id], s.limits[j])
  }

  /// The loops of apply_order over limit orders, best price first; those at `above`
  /// or below are left for later.
  method MatchBook(db: Database, id: nat, above: Option<Price>) returns (r: Match)
    requires Ready(db.s, id) && id in db.s.limits
    modifies db
    ensures !r.Endless?
    ensures !r.Thrown? ==>
      && Ready(db.s, id) && Shrinks(old(db.s).limits, db.s.limits)
      && SameCore(old(db.s), db.s) && SameButLimits(old(db.s), db.s) && SameGaps(old(db.s), db.s)
    ensures r.Finished? ==> id !in db.s.limits || db.s.limits[id].ToReceive() == 0
    ensures r.GoOn? ==> id in db.s.limits
    ensures r.Thrown? ==> exists u :: BookTraded(old(db.s), u) && BookStuck(db, u, id)
    ensures r.GoOn? && above.None? ==> forall j <- db.s.limits :: !Crosses(db.s.limits[id], db.s.limits[j])
  {
    hide Gap;
    hide SameCore;
    hide UncrossedExcept;
    hide Shrinks;
    hide TradeOf;
    hide MatchThrows;
    SameCoreReflexive(db.s);
    ShrinksReflexive(db.s.limits);
    while true
      invariant Ready(db.s, id) && id in db.s.limits && Shrinks(old(db.s).limits, db.s.limits)
      invariant SameCore(old(db.s), db.s) && SameButLimits(old(db.s), db.s) && SameGaps(old(db.s), db.s)
      decreases |db.s.limits|
    {
      var maker := BestMaker(db.s.limits, db.s.limits[id]);
      if maker.None? || (above.Some? && !Less(above.value, db.s.limits[maker.value].price)) {
        return GoOn;
      }
      ghost var s1 := db.s;
      assert maker.value != id;
      r := MatchLimits(db, id, maker.value);
      if r.Thrown? {
        assert BookTraded(old(db.s), s1) && BookStuck(db, s1, id);
        return;
      }
      SameIds(s1, db.s);
      MatchStaysReady(s1, db.s, id, maker.value);
      ShrinksTransitive(old(db.s).limits, s1.limits, db.s.limits);
      SameCoreTransitive(old(db.s), s1, db.s);
      if r.Finished? {
        return;
      }
    }
  }
}
