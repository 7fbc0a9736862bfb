/** What every operation on the market keeps. */
module MarketInvariant {
  import opened Options
  import opened Prices
  import opened Sums
  import opened MarginCall
  import opened MarketState
  import opened MarketDatabase
  import opened OrderBook
  import opened Positions
  import opened Matching
  import opened Orders
  import opened GlobalSettlement

  /// The settlement fund covers every claim at the settlement price, and is used up
  /// with the last claim.
  ghost predicate Solvent(a: AssetId, supply: nat, backing: AssetId, st: Settlement) {
    && st.price.base.id == a && st.price.quote.id == backing
    && supply <= st.price.base.amount
    && supply * st.price.quote.amount <= st.fund * st.price.base.amount
    && (supply == 0 ==> st.fund == 0)
  }

  ghost predicate AssetValid(a: AssetId, d: AssetData, ids: set<AssetId>) {
    && d.supply <= MAX_SHARE_SUPPLY && d.maxSupply <= MAX_SHARE_SUPPLY && d.feePercent <= HUNDRED_PERCENT
    && (a == CORE ==> d.bitasset.None?)
    && (d.bitasset.Some? ==>
      var b := d.bitasset.value;
      && b.backing in ids && b.backing != a
      && b.maxForcePercent <= HUNDRED_PERCENT && b.offsetPercent <= HUNDRED_PERCENT
      && (b.feed.Some? ==> b.feed.value.Valid(a, b.backing))
      && (b.settlement.Some? ==> Solvent(a, d.supply, b.backing, b.settlement.value)))
  }

  ghost predicate AssetsValid(s: State) {
    CORE in s.assets && forall a <- s.assets :: AssetValid(a, s.assets[a], s.assets.Keys)
  }

  ghost predicate SettlesValid(s: State) {
    forall i <- s.settles :: s.MarketIssued(s.settles[i].balance.id)
  }

  ghost predicate BidsValid(s: State) {
    forall k <- s.bids ::
      && k == (s.bids[k].debt.id, s.bids[k].bidder) && s.MarketIssued(k.0)
      && s.bids[k].collateral.id == s.assets[k.0].bitasset.value.backing
      && s.bids[k].collateral.amount > 0 && s.bids[k].debt.amount > 0
  }

  ghost predicate IdsIssued(s: State) {
    (forall i <- s.limits :: i < s.nextId) && forall i <- s.settles :: i < s.nextId
  }

  ghost predicate Conserved(s: State) {
    forall a: AssetId :: Gap(s, a) == 0
  }

  ghost predicate BookSound(s: State) {
    OrdersValid(s) && Uncrossed(s.limits) && Worth(s.limits)
  }

  /// Everything but that margin calls have been made.
  ghost predicate Sound(s: State) {
    && AssetsValid(s) && BookSound(s) && CallsValid(s) && Backed(s)
    && SettlesValid(s) && BidsValid(s) && IdsIssued(s) && Conserved(s)
  }

  /// The invariant: the state is sound and no order meets a position that is called.
  ghost predicate Inv(s: State) {
    Sound(s) && AllMet(s, {})
  }

  lemma SoundFeeds(s: State)
    requires AssetsValid(s)
    ensures FeedsValid(s)
  {
    forall a <- s.assets | s.MarketIssued(a) && s.assets[a].bitasset.value.feed.Some?
      ensures s.assets[a].bitasset.value.feed.value.Valid(a, s.assets[a].bitasset.value.backing)
    {
      assert AssetValid(a, s.assets[a], s.assets.Keys);
    }
  }

  // ------------------------------------------------------------------
  // Trading keeps it

  lemma TradingKeepsAssetsValid(s: State, t: State, a: AssetId)
    requires AssetsValid(s) && Burns(s, t, a) && (s.Settled(a) ==> t.Supply(a) == s.Supply(a))
    ensures AssetsValid(t)
  {
    forall b <- t.assets ensures AssetValid(b, t.assets[b], t.assets.Keys) {
      assert AssetValid(b, s.assets[b], s.assets.Keys);
      assert s.assets[b].Setup().bitasset == t.assets[b].Setup().bitasset;
      assert s.assets[b].Setup().maxSupply == t.assets[b].Setup().maxSupply;
      assert s.assets[b].Setup().feePercent == t.assets[b].Setup().feePercent;
      assert t.Supply(b) <= s.Supply(b);
    }
  }

  /** A settled asset has no positions, so its supply does not fall in a trade. */
  lemma SettledSupplyStays(s: State, t: State, a: AssetId)
    requires CallsValid(s) && s.Settled(a) && SameDebtGaps(s, t) && CallsShrink(s.calls, t.calls, a)
    ensures t.Supply(a) == s.Supply(a)
  {
    assert forall k <- s.calls :: CallValid(s, k, s.calls[k]);
    SumOfZeros(s.calls, DebtIn(a));
    SumOfZeros(t.calls, DebtIn(a));
    assert DebtGap(t, a) == DebtGap(s, a);
  }

  lemma SetupKeepsOthers(s: State, t: State)
    requires SettlesValid(s) && BidsValid(s) && SameSetup(s, t) && t.settles == s.settles && t.bids == s.bids
    ensures SettlesValid(t) && BidsValid(t)
  {
    forall a <- s.assets ensures s.assets[a].bitasset == t.assets[a].bitasset {
      assert s.assets[a].Setup().bitasset == t.assets[a].Setup().bitasset;
    }
  }

  lemma TradingKeepsSound(s: State, t: State, a: AssetId)
    requires AssetsValid(s) && CallsValid(s) && Backed(s) && SettlesValid(s) && BidsValid(s) && IdsIssued(s) && Conserved(s)
    requires Trading(s, t, a) && BookSound(t)
    ensures Sound(t)
  {
    hide Gap;
    hide DebtGap;
    hide BookSound;
    if s.Settled(a) { SettledSupplyStays(s, t, a); }
    TradingKeepsAssetsValid(s, t, a);
    CallsStayValid(s, t, a);
    StaysBacked(s, t);
    SetupKeepsOthers(s, t);
  }

  lemma FilledBookSound(s: State, t: State, id: nat, pays: nat)
    requires BookSound(s) && id in s.limits && pays <= s.limits[id].forSale
    requires t.limits == Filled(s.limits, id, pays, true) && t.assets.Keys == s.assets.Keys
    ensures BookSound(t)
  {
    FilledShrinks(s.limits, id, pays, true);
    UncrossedIn(s.limits, t.limits);
  }

  lemma BookUnchanged(s: State, t: State)
    requires BookSound(s) && t.limits == s.limits && t.assets.Keys == s.assets.Keys
    ensures BookSound(t)
  {
  }

  lemma UncrossedIn(m: OrderBook.Orders, n: OrderBook.Orders)
    requires Uncrossed(m) && Shrinks(m, n)
    ensures Uncrossed(n)
  {
    forall i <- n, j <- n ensures !Crosses(n[i], n[j]) {
      assert !Crosses(m[i], m[j]);
    }
  }

  // ------------------------------------------------------------------
  // Global settlement keeps it

  lemma SettlementKeepsSound(s: State, t: State, a: AssetId, p: Price)
    requires Sound(s) && GloballySettled(s, t, a, p)
    ensures Sound(t) && t.Settled(a) && t.revived == s.revived
  {
    hide Gap;
    hide DebtGap;
    hide BookSound;
    hide Reimbursed;
    hide AllPayable;
    hide CallsValid;
    hide Backed;
    hide AssetsValid;
    hide SettlesValid;
    hide BidsValid;
    SettlementKeeps(s, t, a, p);
    SettledAssetsValid(s, t, a, p);
    SettledKeepsOthers(s, t, a, p);
    BookUnchanged(s, t);
  }

  lemma SettledAssetsValid(s: State, t: State, a: AssetId, p: Price)
    requires AssetsValid(s) && CallsValid(s) && Backed(s) && GloballySettled(s, t, a, p)
    ensures AssetsValid(t)
  {
    hide Gap;
    hide DebtGap;
    hide Reimbursed;
    hide AllPayable;
    hide CallsValid;
    hide Backed;
    SettledSolvent(s, t, a, p);
    forall b <- t.assets ensures AssetValid(b, t.assets[b], t.assets.Keys) {
      assert AssetValid(b, s.assets[b], s.assets.Keys);
    }
  }

  lemma SettledKeepsOthers(s: State, t: State, a: AssetId, p: Price)
    requires SettlesValid(s) && BidsValid(s) && GloballySettled(s, t, a, p)
    ensures SettlesValid(t) && BidsValid(t)
  {
    hide Gap;
    hide DebtGap;
    hide Reimbursed;
    hide AllPayable;
  }

  lemma SettledSolvent(s: State, t: State, a: AssetId, p: Price)
    requires GloballySettled(s, t, a, p) && CallsValid(s) && Backed(s)
    ensures t.Supply(a) == 0 ==> t.assets[a].Fund() == 0
  {
    forall k <- s.calls | k.1 == a ensures s.Supply(a) > 0 {
      DebtWithinSupply(s, k);
    }
  }
}
