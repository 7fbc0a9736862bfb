/** The part of the chain state that markets work on, and the books that must
    balance.  The balance sheet is the one verify_asset_supplies draws up in
    tests/common/database_fixture.cpp: whatever accounts, orders, positions, bids,
    funds and fee counters hold of an asset adds up to its supply. */
module MarketState {
  import opened Options
  import opened Prices
  import opened Sums
  import opened MarginCall

  type Account = nat

  datatype LimitOrder = LimitOrder(
    seller: Account, forSale: nat, price: Price, deferredFee: nat, deferredPaid: Asset, expiration: nat)
  {
    predicate Valid(ids: set<AssetId>) {
      && price.Valid() && 0 < forSale <= price.base.amount
      && price.base.id in ids && price.quote.id in ids && deferredPaid.id in ids
    }

    /// amount_to_receive: what the rest is worth at the order's own price.
    function ToReceive(): nat
      requires price.Valid()
    {
      FloorMul(forSale, price.quote.amount, price.base.amount)
    }
  }

  /** The rest of an order is worth the most that its price gives for it. */
  lemma ToReceiveIsGreatest(o: LimitOrder, v: nat)
    requires o.price.Valid()
    ensures v <= o.ToReceive() <==> v * o.price.base.amount <= o.forSale * o.price.quote.amount
  {
    FloorIsGreatest(o.forSale, o.price.quote.amount, o.price.base.amount, v);
  }

  datatype SettleOrder = SettleOrder(owner: Account, balance: Asset, date: nat)

  datatype Bid = Bid(bidder: Account, collateral: Asset, debt: Asset)

  /// A black swan or an issuer's settlement: the price is the supply per fund at
  /// that moment, the fund what is left of the collateral gathered.
  datatype Settlement = Settlement(price: Price, fund: nat)

  datatype Feed = Feed(price: Price, mcr: nat, mssr: nat) {
    predicate Valid(debt: AssetId, backing: AssetId) {
      price.Valid() && price.base.id == debt && price.quote.id == backing
      && mcr > RATIO_DENOM && mssr > RATIO_DENOM
    }

    /// maintenance_collateralization, as collateral per debt.
    function Maintenance(): Price
      requires price.Valid() && mcr > 0
    {
      Scale(price.Inverse(), mcr, RATIO_DENOM)
    }

    /// max_short_squeeze_price, as debt per collateral.
    function SqueezePrice(): (r: Price)
      requires price.Valid() && mssr > 0
      ensures r.Valid() && r.base.id == price.base.id && r.quote.id == price.quote.id
    {
      Scale(price, RATIO_DENOM, mssr)
    }
  }

  /** In plain amounts, where nothing is approximated: maintenance is `mcr` thousandths of the
      feed in collateral per debt, the squeeze price the feed by `mssr` thousandths in debt per
      collateral.  Approximated or not, neither is on the wrong side of the feed. */
  lemma FeedRatios(f: Feed)
    requires f.price.Valid() && f.mcr > 0 && f.mssr > 0
    ensures ScalesExactly(f.price.Inverse(), f.mcr, RATIO_DENOM) ==>
      f.Maintenance().base.amount * (f.price.base.amount * RATIO_DENOM) == (f.price.quote.amount * f.mcr) * f.Maintenance().quote.amount
    ensures ScalesExactly(f.price, RATIO_DENOM, f.mssr) ==>
      f.SqueezePrice().base.amount * (f.price.quote.amount * f.mssr) == (f.price.base.amount * RATIO_DENOM) * f.SqueezePrice().quote.amount
    ensures f.mcr >= RATIO_DENOM ==> !Less(f.Maintenance(), f.price.Inverse())
    ensures f.mssr >= RATIO_DENOM ==> !Less(f.price, f.SqueezePrice())
  {
    hide Scale;
    ScaleDirection(f.price.Inverse(), f.mcr, RATIO_DENOM);
    ScaleDirection(f.price, RATIO_DENOM, f.mssr);
    if ScalesExactly(f.price.Inverse(), f.mcr, RATIO_DENOM) { ScaleExact(f.price.Inverse(), f.mcr, RATIO_DENOM); }
    if ScalesExactly(f.price, RATIO_DENOM, f.mssr) { ScaleExact(f.price, RATIO_DENOM, f.mssr); }
  }

  datatype Bitasset = Bitasset(
    backing: AssetId, feed: Option<Feed>, predictionMarket: bool, settlement: Option<Settlement>,
    forceSettled: nat, maxForcePercent: nat, offsetPercent: nat)

  datatype AssetData = AssetData(
    supply: nat, maxSupply: nat, accumulatedFees: nat, feePool: nat,
    feePercent: nat, maxMarketFee: nat, rewardPercent: nat, bitasset: Option<Bitasset>)
  {
    function Fund(): nat {
      if bitasset.Some? && bitasset.value.settlement.Some? then bitasset.value.settlement.value.fund else 0
    }

    /// Everything but the fee counters.
    function Core(): AssetData {
      this.(accumulatedFees := 0, feePool := 0)
    }

    /// Everything but the fee counters and the supply.
    function Setup(): AssetData {
      this.(supply := 0, accumulatedFees := 0, feePool := 0)
    }
  }

  /// `revived` holds the assets that bids have brought back with a position that may be
  /// called, until margin calls are next made; only the invariant speaks of it.
  datatype State = State(
    balances: map<(Account, AssetId), nat>,
    vesting: map<(Account, AssetId), nat>,
    pendingFees: map<Account, nat>,
    assets: map<AssetId, AssetData>,
    limits: map<nat, LimitOrder>,
    calls: map<(Account, AssetId), CallOrder>,
    settles: map<nat, SettleOrder>,
    bids: map<(AssetId, Account), Bid>,
    nextId: nat,
    revived: set<AssetId>)
  {
    function Balance(who: Account, a: AssetId): nat {
      if (who, a) in balances then balances[(who, a)] else 0
    }

    function Supply(a: AssetId): nat {
      if a in assets then assets[a].supply else 0
    }

    predicate MarketIssued(a: AssetId) {
      a in assets && assets[a].bitasset.Some?
    }

    predicate Settled(a: AssetId) {
      MarketIssued(a) && assets[a].bitasset.value.settlement.Some?
    }
  }

  // ------------------------------------------------------------------
  // The balance sheet

  ghost function BalanceIn(a: AssetId): ((Account, AssetId), nat) -> int {
    (k: (Account, AssetId), v: nat) => if k.1 == a then v else 0
  }

  ghost function PendingIn(a: AssetId): (Account, nat) -> int {
    (k: Account, v: nat) => if a == CORE then v else 0
  }

  function Part(x: Asset, a: AssetId): nat {
    if x.id == a then x.amount else 0
  }

  ghost function LimitIn(a: AssetId): (nat, LimitOrder) -> int {
    (k: nat, o: LimitOrder) =>
      Part(Asset(o.forSale, o.price.base.id), a) + Part(Asset(o.deferredFee, CORE), a) + Part(o.deferredPaid, a)
  }

  ghost function CollateralIn(a: AssetId): ((Account, AssetId), CallOrder) -> int {
    (k: (Account, AssetId), c: CallOrder) => Part(c.collateral, a)
  }

  ghost function DebtIn(a: AssetId): ((Account, AssetId), CallOrder) -> int {
    (k: (Account, AssetId), c: CallOrder) => Part(c.debt, a)
  }

  ghost function SettleIn(a: AssetId): (nat, SettleOrder) -> int {
    (k: nat, o: SettleOrder) => Part(o.balance, a)
  }

  ghost function BidIn(a: AssetId): ((AssetId, Account), Bid) -> int {
    (k: (AssetId, Account), b: Bid) => Part(b.collateral, a)
  }

  ghost function FundsIn(a: AssetId): (AssetId, AssetData) -> int {
    (k: AssetId, d: AssetData) =>
      Part(Asset(d.accumulatedFees, k), a) + Part(Asset(d.feePool, CORE), a)
      + (if d.bitasset.Some? then Part(Asset(d.Fund(), d.bitasset.value.backing), a) else 0)
  }

  /// All that is held of an asset, wherever it is.
  ghost function Held(s: State, a: AssetId): int {
    Sum(s.balances, BalanceIn(a)) + Sum(s.vesting, BalanceIn(a)) + Sum(s.pendingFees, PendingIn(a))
    + Sum(s.limits, LimitIn(a)) + Sum(s.calls, CollateralIn(a)) + Sum(s.settles, SettleIn(a))
    + Sum(s.bids, BidIn(a)) + Sum(s.assets, FundsIn(a))
  }

  /// How far the holdings of an asset are from its supply.
  ghost function Gap(s: State, a: AssetId): int {
    Held(s, a) - s.Supply(a)
  }

  /// How far the debts in an asset are from its supply.
  ghost function DebtGap(s: State, a: AssetId): int {
    Sum(s.calls, DebtIn(a)) - s.Supply(a)
  }

  /// Between the states, `d` of asset `x` appeared in the balance sheet.
  ghost predicate Moves(s: State, t: State, x: AssetId, d: int) {
    forall a: AssetId :: Gap(t, a) == Gap(s, a) + if a == x then d else 0
  }

  ghost predicate Moves2(s: State, t: State, x: AssetId, d: int, y: AssetId, e: int) {
    forall a: AssetId :: Gap(t, a) == Gap(s, a) + (if a == x then d else 0) + (if a == y then e else 0)
  }

  /// Supplies, options, feeds and settlements are as before.
  ghost predicate SameCore(s: State, t: State) {
    && t.assets.Keys == s.assets.Keys
    && forall a <- s.assets :: t.assets[a].Core() == s.assets[a].Core()
  }

  /// Orders, positions and bids are as before.
  ghost predicate SameOrders(s: State, t: State) {
    t.limits == s.limits && t.calls == s.calls && t.settles == s.settles && t.bids == s.bids && t.nextId == s.nextId
    && t.revived == s.revived
  }

  /// Only balances and fee counters differ.
  ghost predicate MoneyOnly(s: State, t: State) {
    SameOrders(s, t) && SameCore(s, t)
  }

  ghost predicate SameButLimits(s: State, t: State) {
    t.calls == s.calls && t.settles == s.settles && t.bids == s.bids && t.nextId == s.nextId && t.revived == s.revived
  }

  lemma SameCoreReflexive(s: State)
    ensures SameCore(s, s)
  {
  }

  lemma SameCoreTransitive(s: State, t: State, u: State)
    requires SameCore(s, t) && (SameCore(t, u) || t.assets == u.assets)
    ensures SameCore(s, u)
  {
  }

  lemma SameIds(s: State, t: State)
    requires SameCore(s, t)
    ensures s.assets.Keys == t.assets.Keys
  {
  }

  lemma SameBooks(s: State, t: State)
    requires t.(nextId := s.nextId, revived := s.revived) == s
    ensures SameGaps(s, t) && SameDebtGaps(s, t)
  {
  }

  lemma MoneyOnlyReflexive(s: State)
    ensures MoneyOnly(s, s)
  {
  }

  lemma MoneyOnlyTransitive(s: State, t: State, u: State)
    requires MoneyOnly(s, t) && MoneyOnly(t, u)
    ensures MoneyOnly(s, u)
  {
  }

  // ------------------------------------------------------------------
  // Elementary changes

  function SetBalance(s: State, who: Account, a: AssetId, v: nat): State {
    s.(balances := s.balances[(who, a) := v])
  }

  lemma SetBalanceMoves(s: State, who: Account, a: AssetId, v: nat)
    ensures Moves(s, SetBalance(s, who, a, v), a, v - s.Balance(who, a)) && MoneyOnly(s, SetBalance(s, who, a, v))
  {
    forall x: AssetId ensures Gap(SetBalance(s, who, a, v), x) == Gap(s, x) + if x == a then v - s.Balance(who, a) else 0 {
      SumUpdate(s.balances, (who, a), v, BalanceIn(x));
    }
  }

  function SetVesting(s: State, who: Account, a: AssetId, v: nat): State {
    s.(vesting := s.vesting[(who, a) := v])
  }

  function Vesting(s: State, who: Account, a: AssetId): nat {
    if (who, a) in s.vesting then s.vesting[(who, a)] else 0
  }

  lemma SetVestingMoves(s: State, who: Account, a: AssetId, v: nat)
    ensures Moves(s, SetVesting(s, who, a, v), a, v - Vesting(s, who, a)) && MoneyOnly(s, SetVesting(s, who, a, v))
  {
    forall x: AssetId ensures Gap(SetVesting(s, who, a, v), x) == Gap(s, x) + if x == a then v - Vesting(s, who, a) else 0 {
      SumUpdate(s.vesting, (who, a), v, BalanceIn(x));
    }
  }

  function Pending(s: State, who: Account): nat {
    if who in s.pendingFees then s.pendingFees[who] else 0
  }

  function AddPending(s: State, who: Account, d: nat): State {
    s.(pendingFees := s.pendingFees[who := Pending(s, who) + d])
  }

  lemma PendingUpdate(m: map<Account, nat>, who: Account, v: nat, x: AssetId)
    ensures Sum(m[who := v], PendingIn(x)) == Sum(m, PendingIn(x)) + if x == CORE then v - (if who in m then m[who] else 0) else 0
  {
    SumUpdate<Account, nat>(m, who, v, PendingIn(x));
  }

  lemma AddPendingMoves(s: State, who: Account, d: nat)
    ensures Moves(s, AddPending(s, who, d), CORE, d) && MoneyOnly(s, AddPending(s, who, d))
  {
    forall x: AssetId ensures Gap(AddPending(s, who, d), x) == Gap(s, x) + if x == CORE then d else 0 {
      PendingUpdate(s.pendingFees, who, Pending(s, who) + d, x);
    }
  }

  function SetAsset(s: State, a: AssetId, d: AssetData): State {
    s.(assets := s.assets[a := d])
  }

  lemma SetAssetGap(s: State, a: AssetId, d: AssetData, x: AssetId)
    requires a in s.assets
    ensures Gap(SetAsset(s, a, d), x)
         == Gap(s, x) - FundsIn(x)(a, s.assets[a]) + FundsIn(x)(a, d) + (if x == a then s.assets[a].supply - d.supply else 0)
  {
    SumUpdate(s.assets, a, d, FundsIn(x));
  }

  lemma AccumulateMoves(s: State, a: AssetId, d: nat)
    requires a in s.assets
    ensures var t := SetAsset(s, a, s.assets[a].(accumulatedFees := s.assets[a].accumulatedFees + d));
            Moves(s, t, a, d) && MoneyOnly(s, t)
  {
    var t := SetAsset(s, a, s.assets[a].(accumulatedFees := s.assets[a].accumulatedFees + d));
    forall x: AssetId ensures Gap(t, x) == Gap(s, x) + if x == a then d else 0 {
      SetAssetGap(s, a, t.assets[a], x);
    }
  }

  lemma FeePoolMoves(s: State, a: AssetId, v: nat)
    requires a in s.assets
    ensures var t := SetAsset(s, a, s.assets[a].(feePool := v));
            Moves(s, t, CORE, v - s.assets[a].feePool) && MoneyOnly(s, t)
  {
    var t := SetAsset(s, a, s.assets[a].(feePool := v));
    forall x: AssetId ensures Gap(t, x) == Gap(s, x) + if x == CORE then v - s.assets[a].feePool else 0 {
      SetAssetGap(s, a, t.assets[a], x);
    }
  }

  lemma SupplyMoves(s: State, a: AssetId, v: nat)
    requires a in s.assets
    ensures var t := SetAsset(s, a, s.assets[a].(supply := v));
            Moves(s, t, a, s.assets[a].supply - v)
  {
    var t := SetAsset(s, a, s.assets[a].(supply := v));
    forall x: AssetId ensures Gap(t, x) == Gap(s, x) + if x == a then s.assets[a].supply - v else 0 {
      SetAssetGap(s, a, t.assets[a], x);
    }
  }

  lemma LimitGap(s: State, k: nat, o: LimitOrder, x: AssetId)
    ensures Gap(s.(limits := s.limits[k := o]), x) == Gap(s, x) - At(s.limits, k, LimitIn(x)) + LimitIn(x)(k, o)
    ensures Gap(s.(limits := s.limits - {k}), x) == Gap(s, x) - At(s.limits, k, LimitIn(x))
  {
    SumUpdate(s.limits, k, o, LimitIn(x));
    SumDrop(s.limits, k, LimitIn(x));
  }

  lemma LimitReduced(s: State, id: nat, o: LimitOrder)
    requires id in s.limits && o.price == s.limits[id].price && o.forSale <= s.limits[id].forSale
    requires o.deferredFee == 0 && o.deferredPaid.amount == 0
    ensures var was := s.limits[id];
      forall x :: Gap(s.(limits := s.limits[id := o]), x) == Gap(s, x)
        - Part(Asset(was.forSale - o.forSale, o.price.base.id), x) - Part(Asset(was.deferredFee, CORE), x) - Part(was.deferredPaid, x)
  {
    forall x: AssetId { LimitGap(s, id, o, x); }
  }

  lemma LimitRemoved(s: State, id: nat)
    requires id in s.limits
    ensures var o := s.limits[id];
      forall x :: Gap(s.(limits := s.limits - {id}), x) == Gap(s, x)
        - Part(Asset(o.forSale, o.price.base.id), x) - Part(Asset(o.deferredFee, CORE), x) - Part(o.deferredPaid, x)
  {
    forall x: AssetId { LimitGap(s, id, s.limits[id], x); }
  }

  lemma CallGap(s: State, k: (Account, AssetId), c: CallOrder, x: AssetId)
    ensures Gap(s.(calls := s.calls[k := c]), x) == Gap(s, x) - At(s.calls, k, CollateralIn(x)) + CollateralIn(x)(k, c)
    ensures Gap(s.(calls := s.calls - {k}), x) == Gap(s, x) - At(s.calls, k, CollateralIn(x))
    ensures DebtGap(s.(calls := s.calls[k := c]), x) == DebtGap(s, x) - At(s.calls, k, DebtIn(x)) + DebtIn(x)(k, c)
    ensures DebtGap(s.(calls := s.calls - {k}), x) == DebtGap(s, x) - At(s.calls, k, DebtIn(x))
  {
    SumUpdate(s.calls, k, c, CollateralIn(x));
    SumDrop(s.calls, k, CollateralIn(x));
    SumUpdate(s.calls, k, c, DebtIn(x));
    SumDrop(s.calls, k, DebtIn(x));
  }

  lemma SettleGap(s: State, k: nat, o: SettleOrder, x: AssetId)
    ensures Gap(s.(settles := s.settles[k := o]), x) == Gap(s, x) - At(s.settles, k, SettleIn(x)) + SettleIn(x)(k, o)
    ensures Gap(s.(settles := s.settles - {k}), x) == Gap(s, x) - At(s.settles, k, SettleIn(x))
  {
    SumUpdate(s.settles, k, o, SettleIn(x));
    SumDrop(s.settles, k, SettleIn(x));
  }

  lemma BidGap(s: State, k: (AssetId, Account), b: Bid, x: AssetId)
    ensures Gap(s.(bids := s.bids[k := b]), x) == Gap(s, x) - At(s.bids, k, BidIn(x)) + BidIn(x)(k, b)
    ensures Gap(s.(bids := s.bids - {k}), x) == Gap(s, x) - At(s.bids, k, BidIn(x))
  {
    SumUpdate(s.bids, k, b, BidIn(x));
    SumDrop(s.bids, k, BidIn(x));
  }

  // ------------------------------------------------------------------
  // Filling a position

  ghost predicate SameDebtGaps(s: State, t: State) {
    forall a: AssetId :: DebtGap(t, a) == DebtGap(s, a)
  }

  lemma SameDebts(s: State, t: State)
    requires t.calls == s.calls && SameCore(s, t)
    ensures SameDebtGaps(s, t)
  {
    forall a: AssetId ensures DebtGap(t, a) == DebtGap(s, a) {
      if a in s.assets {
        assert s.assets[a].Core().supply == s.assets[a].supply && t.assets[a].Core().supply == t.assets[a].supply;
      }
    }
  }

  function Covered(c: CallOrder, pays: nat, receives: nat): CallOrder
    requires pays <= c.collateral.amount && receives <= c.debt.amount
  {
    c.(collateral := c.collateral.(amount := c.collateral.amount - pays),
       debt := c.debt.(amount := c.debt.amount - receives))
  }

  /// The position and the supply after a fill, before any collateral is returned.
  function CallFilled(s: State, k: (Account, AssetId), pays: nat, receives: nat): State
    requires k in s.calls && s.calls[k].debt.id in s.assets
    requires pays <= s.calls[k].collateral.amount
    requires receives <= s.calls[k].debt.amount && receives <= s.Supply(s.calls[k].debt.id)
  {
    var a := s.calls[k].debt.id;
    s.(assets := s.assets[a := s.assets[a].(supply := s.assets[a].supply - receives)],
       calls := if receives == s.calls[k].debt.amount then s.calls - {k} else s.calls[k := Covered(s.calls[k], pays, receives)])
  }

  lemma CallReduced(s: State, k: (Account, AssetId), pays: nat, receives: nat)
    requires k in s.calls && s.calls[k].debt.id in s.assets
    requires pays <= s.calls[k].collateral.amount
    requires receives <= s.calls[k].debt.amount && receives <= s.Supply(s.calls[k].debt.id)
    ensures var c, t := s.calls[k], CallFilled(s, k, pays, receives);
      && SameDebtGaps(s, t)
      && Moves2(s, t, c.debt.id, receives, c.collateral.id,
                if receives == c.debt.amount then 0 - c.collateral.amount else 0 - pays)
  {
    hide Gap;
    var c, t := s.calls[k], CallFilled(s, k, pays, receives);
    var a := c.debt.id;
    var u := SetAsset(s, a, s.assets[a].(supply := s.assets[a].supply - receives));
    SupplyMoves(s, a, s.assets[a].supply - receives);
    forall x: AssetId
      ensures DebtGap(t, x) == DebtGap(s, x)
      ensures Gap(t, x) == Gap(s, x) + (if x == a then receives else 0)
        + (if x == c.collateral.id then if receives == c.debt.amount then 0 - c.collateral.amount else 0 - pays else 0)
    {
      CallGap(u, k, Covered(c, pays, receives), x);
    }
  }

  // ------------------------------------------------------------------
  // What trading may change

  ghost predicate SameSetup(s: State, t: State) {
    && t.assets.Keys == s.assets.Keys
    && forall a <- s.assets :: t.assets[a].Setup() == s.assets[a].Setup()
  }

  /// Debt of asset `a` may have been repaid, which takes it out of the supply.
  ghost predicate Burns(s: State, t: State, a: AssetId) {
    && SameSetup(s, t)
    && t.Supply(a) <= s.Supply(a)
    && forall b: AssetId :: b != a ==> t.Supply(b) == s.Supply(b)
  }

  /// Positions in asset `a` may have been covered, in part or in full.
  ghost predicate CallsShrink(m: map<(Account, AssetId), CallOrder>, n: map<(Account, AssetId), CallOrder>, a: AssetId) {
    && n.Keys <= m.Keys
    && (forall k <- m :: k.1 != a ==> k in n)
    && (forall k <- n ::
      && n[k].borrower == m[k].borrower && n[k].debt.id == m[k].debt.id && n[k].collateral.id == m[k].collateral.id
      && n[k].targetRatio == m[k].targetRatio
      && n[k].collateral.amount <= m[k].collateral.amount && n[k].debt.amount <= m[k].debt.amount
      && (m[k].debt.amount > 0 ==> n[k].debt.amount > 0))
    && forall k <- n :: k.1 != a ==> n[k] == m[k]
  }

  ghost predicate SameGaps(s: State, t: State) {
    forall a: AssetId :: Gap(t, a) == Gap(s, a)
  }

  lemma BurnsTransitive(s: State, t: State, u: State, a: AssetId)
    requires Burns(s, t, a) && Burns(t, u, a)
    ensures Burns(s, u, a)
  {
  }

  lemma CoreBurnsNothing(s: State, t: State, a: AssetId)
    requires SameCore(s, t)
    ensures Burns(s, t, a) && t.Supply(a) == s.Supply(a)
  {
    forall b <- s.assets ensures t.assets[b].Setup() == s.assets[b].Setup() && t.Supply(b) == s.Supply(b) {
      assert t.assets[b].Core().Setup() == t.assets[b].Setup() && s.assets[b].Core().Setup() == s.assets[b].Setup();
      assert t.assets[b].Core().supply == t.assets[b].supply && s.assets[b].Core().supply == s.assets[b].supply;
    }
  }

  lemma CallsShrinkTransitive(
    m: map<(Account, AssetId), CallOrder>, n: map<(Account, AssetId), CallOrder>, l: map<(Account, AssetId), CallOrder>,
    a: AssetId)
    requires CallsShrink(m, n, a) && CallsShrink(n, l, a)
    ensures CallsShrink(m, l, a)
  {
  }

  // ------------------------------------------------------------------
  // Positions

  ghost predicate CallValid(s: State, k: (Account, AssetId), c: CallOrder) {
    && c.borrower == k.0 && c.debt.id == k.1
    && 0 < c.debt.amount <= MAX_SHARE_SUPPLY && c.collateral.amount <= MAX_SHARE_SUPPLY
    && s.MarketIssued(k.1) && !s.Settled(k.1)
    && c.collateral.id == s.assets[k.1].bitasset.value.backing && c.collateral.id != c.debt.id
  }

  ghost predicate CallsValid(s: State) {
    forall k <- s.calls :: CallValid(s, k, s.calls[k])
  }

  /// The debt of every asset that is not settled is its supply.
  ghost predicate Backed(s: State) {
    forall a: AssetId :: s.MarketIssued(a) && !s.Settled(a) ==> DebtGap(s, a) == 0
  }

  lemma DebtWithinSupply(s: State, k: (Account, AssetId))
    requires CallsValid(s) && Backed(s) && k in s.calls
    ensures s.calls[k].debt.amount <= s.Supply(k.1)
  {
    EntryAtMostSum(s.calls, k, DebtIn(k.1));
  }

  lemma CallsStayValid(s: State, t: State, a: AssetId)
    requires CallsValid(s) && SameSetup(s, t) && CallsShrink(s.calls, t.calls, a)
    ensures CallsValid(t)
  {
    forall k <- t.calls ensures CallValid(t, k, t.calls[k]) {
      assert CallValid(s, k, s.calls[k]);
      assert s.assets[k.1].Setup().bitasset == t.assets[k.1].Setup().bitasset;
    }
  }

  lemma StaysBacked(s: State, t: State)
    requires Backed(s) && SameSetup(s, t) && SameDebtGaps(s, t)
    ensures Backed(t)
  {
    forall a: AssetId | t.MarketIssued(a) && !t.Settled(a) ensures DebtGap(t, a) == 0 {
      assert s.assets[a].Setup().bitasset == t.assets[a].Setup().bitasset;
    }
  }

  // ------------------------------------------------------------------
  // Nothing held exceeds the supply

  lemma PartsNonNegative(s: State, x: AssetId)
    ensures Sum(s.balances, BalanceIn(x)) >= 0 && Sum(s.vesting, BalanceIn(x)) >= 0 && Sum(s.pendingFees, PendingIn(x)) >= 0
    ensures Sum(s.limits, LimitIn(x)) >= 0 && Sum(s.calls, CollateralIn(x)) >= 0 && Sum(s.settles, SettleIn(x)) >= 0
    ensures Sum(s.bids, BidIn(x)) >= 0 && Sum(s.assets, FundsIn(x)) >= 0
  {
    SumNonNegative(s.balances, BalanceIn(x));
    SumNonNegative(s.vesting, BalanceIn(x));
    PendingNonNegative(s.pendingFees, x);
    SumNonNegative(s.limits, LimitIn(x));
    SumNonNegative(s.calls, CollateralIn(x));
    SumNonNegative(s.settles, SettleIn(x));
    SumNonNegative(s.bids, BidIn(x));
    SumNonNegative(s.assets, FundsIn(x));
  }

  lemma PendingNonNegative(m: map<Account, nat>, x: AssetId)
    ensures Sum(m, PendingIn(x)) >= 0
  {
    SumNonNegative<Account, nat>(m, PendingIn(x));
  }

  /** When the books balance, no single holding exceeds the supply. */
  lemma CollateralWithinSupply(s: State, k: (Account, AssetId))
    requires k in s.calls && Gap(s, s.calls[k].collateral.id) == 0
    ensures s.calls[k].collateral.amount <= s.Supply(s.calls[k].collateral.id)
  {
    var x := s.calls[k].collateral.id;
    PartsNonNegative(s, x);
    EntryAtMostSum(s.calls, k, CollateralIn(x));
  }

  lemma BalanceWithinSupply(s: State, who: Account, x: AssetId)
    requires Gap(s, x) == 0
    ensures s.Balance(who, x) <= s.Supply(x)
  {
    PartsNonNegative(s, x);
    if (who, x) in s.balances {
      EntryAtMostSum(s.balances, (who, x), BalanceIn(x));
    }
  }
}
