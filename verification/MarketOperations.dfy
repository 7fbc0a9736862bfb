/** The operations on the market (market_evaluator.cpp, asset_evaluator.cpp), each run in
    an undo session: it either keeps the invariant or leaves no trace. */
module MarketOperations {
  import opened Options
  import opened Prices
  import opened Sums
  import opened MarginCall
  import opened MarketState
  import opened MarketDatabase
  import opened OrderBook
  import opened Positions
  import opened Matching
  import opened Orders
  import opened GlobalSettlement
  import opened MarketInvariant
  import opened MarginCalls

  /// `Hangs` when the node would repeat a match in which nothing is traded.
  datatype Result = Rejected | Hangs | Accepted

  // ------------------------------------------------------------------
  // Limit orders

  function Deferred(fee: Asset): Asset {
    if fee.id == CORE then Asset(0, CORE) else fee
  }

  function NewOrder(seller: Account, sell: Asset, receive: Asset, fee: Asset, coreFee: nat, expiration: nat): LimitOrder {
    LimitOrder(seller, sell.amount, Price(sell, receive), coreFee, Deferred(fee), expiration)
  }

  function WithOrder(s: State, o: LimitOrder): State {
    s.(limits := s.limits[s.nextId := o], nextId := s.nextId + 1)
  }

  /// The new order's deposit and fee are taken from its owner; the pool of the fee's
  /// asset pays the fee in CORE.
  ghost predicate FundsTaken(s: State, t: State, seller: Account, sell: Asset, fee: Asset, coreFee: nat) {
    && t == s.(balances := t.balances, assets := t.assets)
    && fee.id in s.assets
    && (fee.id == CORE ==> t.assets == s.assets)
    && (fee.id != CORE ==>
      && s.assets[fee.id].feePool >= coreFee
      && t.assets == s.assets[fee.id := s.assets[fee.id].(feePool := s.assets[fee.id].feePool - coreFee)])
    && forall w: Account, x: AssetId ::
      s.Balance(w, x) == t.Balance(w, x) + (if w == seller then Part(sell, x) + Part(fee, x) else 0)
  }

  /// The seller can pay deposit and fee, and the pool the fee in CORE.
  predicate Affordable(s: State, seller: Account, sell: Asset, fee: Asset, coreFee: nat)
    requires fee.id in s.assets
  {
    && (fee.id != CORE ==> coreFee <= s.assets[fee.id].feePool)
    && fee.amount <= s.Balance(seller, fee.id)
    && sell.amount + Part(fee, sell.id) <= s.Balance(seller, sell.id)
  }

  method TakeOrderFunds(db: Database, seller: Account, sell: Asset, fee: Asset, coreFee: nat) returns (ok: bool)
    requires fee.id in db.s.assets && (fee.id == CORE ==> coreFee == fee.amount)
    modifies db
    ensures ok <==> Affordable(old(db.s), seller, sell, fee, coreFee)
    ensures ok ==>
      && MoneyOnly(old(db.s), db.s) && FundsTaken(old(db.s), db.s, seller, sell, fee, coreFee)
      && forall x ::
        Gap(db.s, x) == Gap(old(db.s), x) - Part(sell, x) - Part(Asset(coreFee, CORE), x) - Part(Deferred(fee), x)
  {
    hide Gap;
    hide SameCore;
    hide MoneyOnly;
    ghost var s0 := db.s;
    MoneyOnlyReflexive(db.s);
    if fee.id != CORE {
      if coreFee > db.s.assets[fee.id].feePool {
        return false;
      }
      FeePoolMoves(db.s, fee.id, db.s.assets[fee.id].feePool - coreFee);
      db.s := SetAsset(db.s, fee.id, db.s.assets[fee.id].(feePool := db.s.assets[fee.id].feePool - coreFee));
    }
    ghost var s1 := db.s;
    ok := db.AdjustBalance(seller, fee.id, 0 - fee.amount);
    if !ok {
      return;
    }
    MoneyOnlyTransitive(s0, s1, db.s);
    ghost var s2 := db.s;
    ok := db.AdjustBalance(seller, sell.id, 0 - sell.amount);
    if !ok {
      return;
    }
    MoneyOnlyTransitive(s0, s2, db.s);
  }

  lemma OrderPlaced(s: State, o: LimitOrder)
    requires s.nextId !in s.limits
    ensures forall x ::
      Gap(WithOrder(s, o), x) == Gap(s, x) + Part(Asset(o.forSale, o.price.base.id), x)
      + Part(Asset(o.deferredFee, CORE), x) + Part(o.deferredPaid, x)
  {
    forall x: AssetId { LimitGap(s, s.nextId, o, x); }
  }

  /** Placing an order leaves everything as it was but for the order itself. */
  lemma PlacedIsUnderway(s: State, t: State, u: State, o: LimitOrder)
    requires Inv(s) && MoneyOnly(s, t) && u == WithOrder(t, o) && o.Valid(s.assets.Keys)
    ensures Underway(u, u, t.nextId, o.price.base.id) && t.nextId in u.limits && u.limits[t.nextId] == o
  {
    hide Gap;
    hide DebtGap;
    hide SameCore;
    hide NoneCallable;
    hide Uncrossed;
    hide UncrossedExcept;
    hide Accounted;
    MoneyKeeps(s, t);
    OrderKeeps(t, u, o);
    TradingReflexive(u, o.price.base.id);
    AllMetPlaced(s, u, o);
    UncrossedButNew(s.limits, s.nextId, o);
  }

  /** Moving money about touches nothing else the invariant speaks of. */
  lemma MoneyKeeps(s: State, t: State)
    requires MoneyOnly(s, t) && AssetsValid(s) && CallsValid(s) && Backed(s) && SettlesValid(s) && BidsValid(s) && IdsIssued(s)
    ensures AssetsValid(t) && CallsValid(t) && Backed(t) && SettlesValid(t) && BidsValid(t) && IdsIssued(t)
    ensures SameSetup(s, t) && t.assets.Keys == s.assets.Keys
  {
    hide DebtGap;
    hide SameCore;
    CoreBurnsNothing(s, t, CORE);
    SameIds(s, t);
    SameDebts(s, t);
    StaysBacked(s, t);
    CallsStayValid(s, t, CORE);
    if s.Settled(CORE) { SettledSupplyStays(s, t, CORE); }
    TradingKeepsAssetsValid(s, t, CORE);
    SetupKeepsOthers(s, t);
  }

  lemma OrderKeeps(s: State, t: State, o: LimitOrder)
    requires AssetsValid(s) && CallsValid(s) && Backed(s) && SettlesValid(s) && BidsValid(s) && IdsIssued(s)
    requires t == WithOrder(s, o)
    ensures AssetsValid(t) && CallsValid(t) && Backed(t) && SettlesValid(t) && BidsValid(t) && IdsIssued(t)
    ensures SameSetup(s, t) && s.nextId !in s.limits
  {
    hide DebtGap;
    BackedBy(s, t);
    CallsStayValid(s, t, CORE);
  }

  lemma BackedBy(s: State, t: State)
    requires Backed(s) && t.assets == s.assets && t.calls == s.calls
    ensures Backed(t)
  {
    forall a: AssetId ensures DebtGap(t, a) == DebtGap(s, a) {}
  }

  lemma UncrossedButNew(m: OrderBook.Orders, id: nat, o: LimitOrder)
    requires Uncrossed(m)
    ensures UncrossedExcept(m[id := o], id)
  {
  }

  lemma AllMetPlaced(s: State, u: State, o: LimitOrder)
    requires AllMet(s, {}) && SameSetup(s, u) && u.calls == s.calls && u.limits == s.limits[s.nextId := o] && u.revived == s.revived
    ensures AllMet(u, {s.nextId})
  {
    SameFeeds(s, u);
    forall a ensures NoneCallable(u, a, {s.nextId}) {
      assert NoneCallable(s, a, {});
    }
  }

  lemma FreshId(s: State, t: State)
    requires Inv(s) && MoneyOnly(s, t)
    ensures t.nextId == s.nextId && t.nextId !in t.limits && t.nextId !in t.settles
  {
  }

  lemma WholeOrderIsWorth(o: LimitOrder)
    requires o.price.Valid() && o.forSale == o.price.base.amount
    ensures o.ToReceive() > 0
  {
    FloorIsGreatest(o.forSale, o.price.quote.amount, o.price.base.amount, o.price.quote.amount);
  }

  /// Everything the invariant says that is not about the book.
  ghost predicate Accounted(s: State) {
    && AssetsValid(s) && CallsValid(s) && Backed(s) && SettlesValid(s) && BidsValid(s) && IdsIssued(s) && Conserved(s)
  }

  lemma PlacedIsSound(s: State, t: State, u: State, o: LimitOrder)
    requires Inv(s) && MoneyOnly(s, t) && u == WithOrder(t, o)
    requires forall x ::
      Gap(t, x) == Gap(s, x) - Part(Asset(o.forSale, o.price.base.id), x) - Part(Asset(o.deferredFee, CORE), x) - Part(o.deferredPaid, x)
    requires forall x ::
      Gap(u, x) == Gap(t, x) + Part(Asset(o.forSale, o.price.base.id), x) + Part(Asset(o.deferredFee, CORE), x) + Part(o.deferredPaid, x)
    ensures Accounted(u) && s.nextId == t.nextId && s.nextId !in t.limits
    ensures FeedsValid(s) && forall a :: Inexact(u, a) ==> Inexact(s, a)
  {
    hide Gap;
    hide DebtGap;
    hide SameCore;
    hide BookSound;
    hide NoneCallable;
    MoneyKeeps(s, t);
    OrderKeeps(t, u, o);
    forall b | Inexact(u, b) ensures Inexact(s, b) {
      SameInexact(s, u, b);
    }
  }

  lemma AppliedIsSound(s: State, t: State, a: AssetId)
    requires Accounted(s) && Trading(s, t, a) && Orderly(t)
    ensures Inv(t)
  {
    hide Gap;
    hide DebtGap;
    hide Trading;
    TradingKeepsSound(s, t, a);
  }

  /// The checks of the evaluator.
  predicate MayPlace(db: Database, s: State, seller: Account, sell: Asset, receive: Asset, fee: Asset, coreFee: nat,
                     expiration: nat, now: nat)
  {
    && sell.amount > 0 && receive.amount > 0 && sell.id != receive.id
    && sell.id in s.assets && receive.id in s.assets && fee.id in s.assets
    && (fee.id == CORE ==> coreFee == fee.amount)
    && expiration >= now && db.authorized(seller, sell.id) && db.authorized(seller, receive.id)
  }

  /// What the order is refused for after that: the funds are missing, a match throws, or an
  /// order to be filled at once is not.
  ghost predicate CannotPlace(db: Database, s: State, o: LimitOrder, sell: Asset, fee: Asset, coreFee: nat, fillOrKill: bool)
    requires fee.id in s.assets
  {
    || !Affordable(s, o.seller, sell, fee, coreFee)
    || exists t, u ::
         && FundsTaken(s, t, o.seller, sell, fee, coreFee) && Trading(WithOrder(t, o), u, sell.id)
         && (Stuck(db, u, s.nextId, sell.id) || (fillOrKill && s.nextId in u.limits))
  }

  /// limit_order_create: evaluate and apply.
  method CreateLimitOrder(db: Database, seller: Account, sell: Asset, receive: Asset, fillOrKill: bool,
                          fee: Asset, coreFee: nat, expiration: nat, now: nat) returns (r: Result)
    requires Inv(db.s)
    modifies db
    ensures r.Accepted? ==> Inv(db.s)
    ensures !r.Accepted? ==> db.s == old(db.s)
    ensures r.Accepted? ==> exists t ::
      && FundsTaken(old(db.s), t, seller, sell, fee, coreFee)
      && Trading(WithOrder(t, NewOrder(seller, sell, receive, fee, coreFee, expiration)), db.s, sell.id)
    ensures r.Accepted? && fillOrKill ==> old(db.s).nextId !in db.s.limits
    ensures r.Accepted? ==>
      MayPlace(db, old(db.s), seller, sell, receive, fee, coreFee, expiration, now) && Affordable(old(db.s), seller, sell, fee, coreFee)
    ensures r.Rejected? && MayPlace(db, old(db.s), seller, sell, receive, fee, coreFee, expiration, now) ==>
      CannotPlace(db, old(db.s), NewOrder(seller, sell, receive, fee, coreFee, expiration), sell, fee, coreFee, fillOrKill)
    ensures r.Hangs? ==> Inexact(old(db.s), sell.id)
    ensures r.Hangs? ==> exists t, u ::
      && FundsTaken(old(db.s), t, seller, sell, fee, coreFee)
      && Trading(WithOrder(t, NewOrder(seller, sell, receive, fee, coreFee, expiration)), u, sell.id)
      && Jams(u, sell.id)
  {
    hide FundsTaken;
    hide Jams;
    hide Gap;
    hide Inv;
    hide Underway;
    hide MoneyOnly;
    hide Trading;
    hide Orderly;
    hide Inexact;
    hide Sound;
    hide Stuck;
    hide Affordable;
    if sell.amount == 0 || receive.amount == 0 || sell.id == receive.id
      || sell.id !in db.s.assets || receive.id !in db.s.assets || fee.id !in db.s.assets
      || (fee.id == CORE && coreFee != fee.amount)
      || expiration < now || !db.authorized(seller, sell.id) || !db.authorized(seller, receive.id)
    {
      return Rejected;
    }
    var saved := db.s;
    var ok := TakeOrderFunds(db, seller, sell, fee, coreFee);
    if !ok {
      db.s := saved;
      return Rejected;
    }
    ghost var s1 := db.s;
    var deferred := if fee.id == CORE then Asset(0, CORE) else fee;
    var o := LimitOrder(seller, sell.amount, Price(sell, receive), coreFee, deferred, expiration);
    var id := db.s.nextId;
    FreshId(saved, s1);
    OrderPlaced(s1, o);
    db.s := db.s.(limits := db.s.limits[id := o], nextId := id + 1);
    ghost var s2 := db.s;
    PlacedIsUnderway(saved, s1, s2, o);
    WholeOrderIsWorth(o);
    PlacedIsSound(saved, s1, s2, o);
    var m := ApplyOrder(db, id);
    if m.Endless? {
      db.s := saved;
      return Hangs;
    }
    if m.Thrown? || (fillOrKill && m.GoOn?) {
      db.s := saved;
      return Rejected;
    }
    AppliedIsSound(s2, db.s, sell.id);
    return Accepted;
  }

  lemma CancelKeepsInv(s: State, t: State)
    requires Inv(s) && SameCore(s, t) && SameButLimits(s, t) && SameGaps(s, t)
    requires t.limits.Keys <= s.limits.Keys && forall i <- t.limits :: t.limits[i] == s.limits[i]
    ensures Inv(t)
  {
    hide Gap;
    hide DebtGap;
    hide NoneCallable;
    hide SameCore;
    BookTrading(s, t, CORE);
    SameIds(s, t);
    UncrossedIn(s.limits, t.limits);
    TradingKeepsSound(s, t, CORE);
    AllMetShrinks(s, t, {});
  }

  /// The seller's order is gone, and deposit and fee are refunded.
  ghost predicate Cancelled(db: Database, s: State, t: State, seller: Account, id: nat) {
    && id in s.limits && s.limits[id].seller == seller && t.limits == s.limits - {id}
    && SameCore(s, t) && SameButLimits(s, t)
    && t.balances == db.Refunded(s.balances, s.limits[id], false)
  }

  /// limit_order_cancel
  method CancelOrder(db: Database, seller: Account, id: nat) returns (r: Result)
    requires Inv(db.s)
    modifies db
    ensures r.Accepted? <==> id in old(db.s).limits && old(db.s).limits[id].seller == seller
    ensures !r.Hangs?
    ensures r.Accepted? ==> Inv(db.s) && Cancelled(db, old(db.s), db.s, seller, id)
    ensures !r.Accepted? ==> db.s == old(db.s)
  {
    hide Gap;
    hide SameCore;
    hide Database.Refunded;
    if id !in db.s.limits || db.s.limits[id].seller != seller {
      return Rejected;
    }
    ghost var s0 := db.s;
    db.CancelLimitOrder(id, false);
    CancelKeepsInv(s0, db.s);
    return Accepted;
  }

  /// What an account gets back of an asset for the orders that have expired.
  ghost function RefundIn(db: Database, now: nat, w: Account, x: AssetId): (nat, LimitOrder) -> int {
    (i: nat, o: LimitOrder) =>
      if o.expiration <= now && o.seller == w then Part(Asset(o.forSale, o.price.base.id), x) + Part(db.FeeRefund(o, true), x) else 0
  }

  /// Balances have grown by what has been refunded.
  ghost predicate ExpiredRefunded(db: Database, s: State, t: State, now: nat) {
    forall w: Account, x: AssetId ::
      t.Balance(w, x) + Sum(t.limits, RefundIn(db, now, w, x)) == s.Balance(w, x) + Sum(s.limits, RefundIn(db, now, w, x))
  }

  lemma RefundOne(db: Database, s: State, t: State, u: State, now: nat, id: nat)
    requires ExpiredRefunded(db, s, t, now) && id in t.limits && t.limits[id].expiration <= now
    requires u.limits == t.limits - {id} && u.balances == db.Refunded(t.balances, t.limits[id], true)
    ensures ExpiredRefunded(db, s, u, now)
  {
    hide Database.FeeRefund;
    var o := t.limits[id];
    forall w: Account, x: AssetId
      ensures u.Balance(w, x) + Sum(u.limits, RefundIn(db, now, w, x)) == s.Balance(w, x) + Sum(s.limits, RefundIn(db, now, w, x))
    {
      SumDrop(t.limits, id, RefundIn(db, now, w, x));
      RefundedBalance(db, t, u, o, w, x);
      assert t.Balance(w, x) + Sum(t.limits, RefundIn(db, now, w, x)) == s.Balance(w, x) + Sum(s.limits, RefundIn(db, now, w, x));
    }
  }

  lemma RefundedBalance(db: Database, t: State, u: State, o: LimitOrder, w: Account, x: AssetId)
    requires u.balances == db.Refunded(t.balances, o, true)
    ensures u.Balance(w, x) == t.Balance(w, x)
      + if o.seller == w then Part(Asset(o.forSale, o.price.base.id), x) + Part(db.FeeRefund(o, true), x) else 0
  {
    hide Database.FeeRefund;
  }

  lemma AllRefunded(db: Database, s: State, t: State, now: nat)
    requires ExpiredRefunded(db, s, t, now) && forall i <- t.limits :: t.limits[i].expiration > now
    ensures forall w: Account, x: AssetId :: t.Balance(w, x) == s.Balance(w, x) + Sum(s.limits, RefundIn(db, now, w, x))
  {
    forall w: Account, x: AssetId ensures t.Balance(w, x) == s.Balance(w, x) + Sum(s.limits, RefundIn(db, now, w, x)) {
      SumOfZeros(t.limits, RefundIn(db, now, w, x));
    }
  }

  /// Exactly the orders whose time has come are gone, and their owners have the refunds.
  ghost predicate Expired(db: Database, s: State, t: State, now: nat) {
    && SameCore(s, t) && SameButLimits(s, t)
    && t.limits == (map i <- s.limits | s.limits[i].expiration > now :: s.limits[i])
    && forall w: Account, x: AssetId :: t.Balance(w, x) == s.Balance(w, x) + Sum(s.limits, RefundIn(db, now, w, x))
  }

  /// The first part of clear_expired_orders: exactly the orders whose time has come are
  /// cancelled.
  method CancelExpired(db: Database, now: nat)
    requires Inv(db.s)
    modifies db
    ensures Inv(db.s) && Expired(db, old(db.s), db.s, now)
  {
    hide Gap;
    hide SameCore;
    hide Inv;
    hide Database.Refunded;
    ghost var s0 := db.s;
    assert ExpiredRefunded(db, s0, s0, now);
    hide ExpiredRefunded;
    SameCoreReflexive(db.s);
    while exists i <- db.s.limits :: db.s.limits[i].expiration <= now
      invariant Inv(db.s) && SameCore(old(db.s), db.s) && SameButLimits(old(db.s), db.s)
      invariant ExpiredRefunded(db, s0, db.s, now)
      invariant db.s.limits.Keys <= old(db.s).limits.Keys
      invariant forall i <- db.s.limits :: db.s.limits[i] == old(db.s).limits[i]
      invariant forall i <- old(db.s).limits :: old(db.s).limits[i].expiration > now ==> i in db.s.limits
      decreases |db.s.limits|
    {
      var id :| id in db.s.limits && db.s.limits[id].expiration <= now;
      ghost var s1 := db.s;
      InvOrder(db.s, id);
      db.CancelLimitOrder(id, true);
      CancelKeepsInv(s1, db.s);
      RefundOne(db, s0, s1, db.s, now, id);
      SameCoreTransitive(old(db.s), s1, db.s);
      Smaller(s1.limits, id);
    }
    AllRefunded(db, s0, db.s, now);
  }

  lemma InvOrder(s: State, id: nat)
    requires Inv(s) && id in s.limits
    ensures s.limits[id].Valid(s.assets.Keys)
  {
  }
}
