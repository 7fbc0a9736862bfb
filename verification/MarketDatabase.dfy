/** The chain database as the market code uses it: balances (db_balance.cpp), market
    fees, and the elementary fills and cancellations of db_market.cpp.  Every member
    says what it adds to the balance sheet; a method that reports failure stands for a
    thrown exception, after which the caller's undo session discards the state. */
module MarketDatabase {
  import opened Options
  import opened Prices
  import opened MarginCall
  import opened MarketState

  /// calculate_percent
  function Percent(v: nat, percent: nat): nat {
    FloorMul(v, percent, HUNDRED_PERCENT)
  }

  /// calculate_market_fee
  function MarketFee(d: AssetData, amount: nat): nat {
    if d.feePercent == 0 then 0 else Min(Percent(amount, d.feePercent), d.maxMarketFee)
  }

  /** A percentage is the greatest amount within it. */
  lemma PercentIsGreatest(v: nat, percent: nat, r: nat)
    ensures r <= Percent(v, percent) <==> r * HUNDRED_PERCENT <= v * percent
  {
    FloorIsGreatest(v, percent, HUNDRED_PERCENT, r);
  }

  /** The market fee is the greatest amount within the asset's percentage and its maximum. */
  lemma MarketFeeIsGreatest(d: AssetData, amount: nat, r: nat)
    ensures MarketFee(d, amount) <= d.maxMarketFee
    ensures r <= MarketFee(d, amount) <==> r <= d.maxMarketFee && r * HUNDRED_PERCENT <= amount * d.feePercent
  {
    hide FloorMul;
    PercentIsGreatest(amount, d.feePercent, r);
    if d.feePercent == 0 { assert amount * d.feePercent == 0; }
  }

  /// What adjust_balance makes of the balances.
  function Adjusted(m: map<(Account, AssetId), nat>, who: Account, a: AssetId, delta: int): map<(Account, AssetId), nat>
    requires (if (who, a) in m then m[(who, a)] else 0) + delta >= 0
  {
    if delta == 0 then m
    else m[(who, a) := (if (who, a) in m then m[(who, a)] else 0) + delta]
  }

  datatype Outcome = Failed | Stays | Gone

  /// An order after a partial fill: the fee has been charged.
  function Reduced(o: LimitOrder, pays: nat): LimitOrder
    requires pays <= o.forSale
  {
    o.(forSale := o.forSale - pays, deferredFee := 0, deferredPaid := o.deferredPaid.(amount := 0))
  }

  /// A fill that leaves nothing of the order, or too little for anything when it is culled.
  predicate Leaves(o: LimitOrder, pays: nat, cull: bool)
    requires o.price.Valid() && pays <= o.forSale
  {
    pays == o.forSale || (cull && Reduced(o, pays).ToReceive() == 0)
  }

  /// The book and the seller's balances after a fill.
  ghost predicate OrderFilled(s: State, t: State, id: nat, pays: nat, receives: nat, cull: bool)
    requires id in s.limits && s.limits[id].Valid(s.assets.Keys) && pays <= s.limits[id].forSale
  {
    var o := s.limits[id];
    var fee := MarketFee(s.assets[o.price.quote.id], receives);
    && t.limits == (if Leaves(o, pays, cull) then s.limits - {id} else s.limits[id := Reduced(o, pays)])
    && fee <= receives
    && t.balances == Adjusted(Adjusted(s.balances,
         o.seller, o.price.quote.id, receives - fee),
         o.seller, o.price.base.id, if Leaves(o, pays, cull) then o.forSale - pays else 0)
  }

  /// The state after a position has paid collateral for debt: it shrinks, or is closed and
  /// its owner has the rest; the debt leaves the supply.
  ghost predicate PositionFilled(s: State, t: State, key: (Account, AssetId), pays: nat, receives: nat)
    requires key in s.calls && s.calls[key].debt.id in s.assets
    requires receives <= s.calls[key].debt.amount && receives <= s.Supply(s.calls[key].debt.id)
  {
    var c, a := s.calls[key], s.calls[key].debt.id;
    var closed := receives == c.debt.amount;
    && pays <= c.collateral.amount
    && t == s.(
      assets := s.assets[a := s.assets[a].(supply := s.assets[a].supply - receives)],
      calls := if closed then s.calls - {key} else s.calls[key := Covered(c, pays, receives)],
      balances := Adjusted(s.balances, c.borrower, c.collateral.id, if closed then c.collateral.amount - pays else 0))
  }

  class Database {
    var s: State
    /// The fee schedule's price of a limit_order_cancel.
    const cancelFee: nat
    const registrar: Account -> Account
    const referrer: Account -> Account
    const referrerPercent: Account -> nat
    /// The asset's list of registrars that share in market fees admits the account.
    const rewardAllowed: (AssetId, Account) -> bool
    /// is_authorized_asset
    const authorized: (Account, AssetId) -> bool

    constructor (s: State, cancelFee: nat, registrar: Account -> Account, referrer: Account -> Account,
                 referrerPercent: Account -> nat, rewardAllowed: (AssetId, Account) -> bool,
                 authorized: (Account, AssetId) -> bool)
      ensures this.s == s
    {
      this.s := s;
      this.cancelFee := cancelFee;
      this.registrar := registrar;
      this.referrer := referrer;
      this.referrerPercent := referrerPercent;
      this.rewardAllowed := rewardAllowed;
      this.authorized := authorized;
    }

    method AdjustBalance(who: Account, a: AssetId, delta: int) returns (ok: bool)
      modifies this
      ensures ok <==> old(s).Balance(who, a) + delta >= 0
      ensures !ok ==> s == old(s)
      ensures ok ==> s == old(s).(balances := Adjusted(old(s).balances, who, a, delta))
      ensures ok ==> Moves(old(s), s, a, delta) && MoneyOnly(old(s), s)
    {
      if delta == 0 {
        return true;
      }
      if s.Balance(who, a) + delta < 0 {
        return false;
      }
      SetBalanceMoves(s, who, a, s.Balance(who, a) + delta);
      s := SetBalance(s, who, a, s.Balance(who, a) + delta);
      return true;
    }

    /// The share of a market fee that goes to the seller's registrar and referrer.
    function Reward(seller: Account, a: AssetId, d: AssetData, fee: nat): nat {
      var reward := Percent(fee, d.rewardPercent);
      if rewardAllowed(a, registrar(seller)) && authorized(registrar(seller), a) then reward else 0
    }

    function ReferrerReward(seller: Account, a: AssetId, reward: nat): nat {
      var share := Percent(reward, referrerPercent(seller));
      if authorized(referrer(seller), a) then share else 0
    }

    /** The registrar's side of the fee is the greatest amount within the asset's percentage,
        and the referrer's the greatest within theirs of that, each only where admitted. */
    lemma RewardsAreGreatest(seller: Account, a: AssetId, d: AssetData, fee: nat, v: nat)
      ensures
        if rewardAllowed(a, registrar(seller)) && authorized(registrar(seller), a)
        then v <= Reward(seller, a, d, fee) <==> v * HUNDRED_PERCENT <= fee * d.rewardPercent
        else Reward(seller, a, d, fee) == 0
      ensures
        var reward := Reward(seller, a, d, fee);
        if authorized(referrer(seller), a)
        then v <= ReferrerReward(seller, a, reward) <==> v * HUNDRED_PERCENT <= reward * referrerPercent(seller)
        else ReferrerReward(seller, a, reward) == 0
    {
      hide Percent;
      PercentIsGreatest(fee, d.rewardPercent, v);
      PercentIsGreatest(Reward(seller, a, d, fee), referrerPercent(seller), v);
    }

    /// The assertions on the way: no fee above the amount, no reward as large as the
    /// fee, no referrer's share above the reward.
    predicate FeesPayable(seller: Account, a: AssetId, d: AssetData, receives: nat) {
      var fee := MarketFee(d, receives);
      var reward := Reward(seller, a, d, fee);
      fee <= receives && (reward > 0 ==> reward < fee) && ReferrerReward(seller, a, reward) <= reward
    }

    lemma NothingOfNothing(seller: Account, a: AssetId, d: AssetData)
      ensures Reward(seller, a, d, 0) == 0 && ReferrerReward(seller, a, 0) == 0
    {
    }

    method DepositVesting(who: Account, a: AssetId, v: nat)
      modifies this
      ensures s == old(s).(vesting := s.vesting)
      ensures forall w, b :: Vesting(s, w, b) == old(Vesting(s, w, b)) + if w == who && b == a then v else 0
      ensures Moves(old(s), s, a, v) && MoneyOnly(old(s), s)
    {
      SetVestingMoves(s, who, a, Vesting(s, who, a) + v);
      s := SetVesting(s, who, a, Vesting(s, who, a) + v);
    }

    method Accumulate(a: AssetId, v: nat)
      requires a in s.assets
      modifies this
      ensures s == old(s).(assets := old(s).assets[a := old(s).assets[a].(accumulatedFees := old(s).assets[a].accumulatedFees + v)])
      ensures Moves(old(s), s, a, v) && MoneyOnly(old(s), s)
    {
      AccumulateMoves(s, a, v);
      s := SetAsset(s, a, s.assets[a].(accumulatedFees := s.assets[a].accumulatedFees + v));
    }

    /// pay_market_fees for a settlement: the issuer keeps the whole fee.
    method PayIssuerFees(a: AssetId, receives: nat) returns (ok: bool, fee: nat)
      requires a in s.assets
      modifies this
      ensures ok <==> fee <= receives
      ensures fee == MarketFee(old(s).assets[a], receives)
      ensures s.balances == old(s).balances && MoneyOnly(old(s), s)
      ensures ok ==> Moves(old(s), s, a, fee)
      ensures ok ==> s.assets[a].accumulatedFees == old(s).assets[a].accumulatedFees + fee
    {
      fee := MarketFee(s.assets[a], receives);
      ok := fee <= receives;
      if ok && fee > 0 {
        Accumulate(a, fee);
      }
    }

    /// The rewards of the seller's registrar and referrer.
    ghost predicate Rewarded(s: State, t: State, seller: Account, a: AssetId, reward: nat, share: nat) {
      forall w, b :: Vesting(t, w, b) == Vesting(s, w, b)
        + (if w == referrer(seller) && b == a then share else 0)
        + (if w == registrar(seller) && b == a then reward - share else 0)
    }

    method DepositRewards(seller: Account, a: AssetId, reward: nat, share: nat)
      requires share <= reward
      modifies this
      ensures s == old(s).(vesting := s.vesting) && MoneyOnly(old(s), s)
      ensures Moves(old(s), s, a, reward)
      ensures Rewarded(old(s), s, seller, a, reward, share)
    {
      hide Gap;
      if share > 0 {
        DepositVesting(referrer(seller), a, share);
      }
      DepositVesting(registrar(seller), a, reward - share);
    }

    lemma NotRewarded(s: State, seller: Account, a: AssetId)
      ensures Rewarded(s, s, seller, a, 0, 0)
    {
    }

    lemma RewardedBefore(s: State, t: State, u: State, seller: Account, a: AssetId, reward: nat, share: nat)
      requires Rewarded(s, t, seller, a, reward, share) && u.vesting == t.vesting
      ensures Rewarded(s, u, seller, a, reward, share)
    {
    }

    /// pay_market_fees for a trade: registrar and referrer of the seller share in the fee.
    method PayMarketFees(seller: Account, a: AssetId, receives: nat) returns (ok: bool, fee: nat)
      requires a in s.assets
      modifies this
      ensures fee == MarketFee(old(s).assets[a], receives)
      ensures ok ==> fee <= receives
      ensures s.balances == old(s).balances && MoneyOnly(old(s), s)
      ensures ok ==> Moves(old(s), s, a, fee)
      ensures s.pendingFees == old(s).pendingFees
      ensures ok ==>
        && Reward(seller, a, old(s).assets[a], fee) <= fee
        && s.assets == old(s).assets[a := old(s).assets[a].(accumulatedFees :=
             old(s).assets[a].accumulatedFees + (fee - Reward(seller, a, old(s).assets[a], fee)))]
      ensures ok ==>
        var reward := Reward(seller, a, old(s).assets[a], fee);
        Rewarded(old(s), s, seller, a, reward, ReferrerReward(seller, a, reward))
      ensures ok <==> FeesPayable(seller, a, old(s).assets[a], receives)
    {
      hide Gap;
      hide SameCore;
      hide Percent;
      hide MarketFee;
      hide Database.Reward;
      hide Database.ReferrerReward;
      hide Database.Rewarded;
      hide MoneyOnly;
      fee := MarketFee(s.assets[a], receives);
      var reward := Reward(seller, a, s.assets[a], fee);
      var share := ReferrerReward(seller, a, reward);
      MoneyOnlyReflexive(s);
      if fee > receives || (reward > 0 && reward >= fee) || share > reward {
        return false, fee;
      }
      ok := true;
      NothingOfNothing(seller, a, s.assets[a]);
      if reward > 0 {
        DepositRewards(seller, a, reward, share);
      } else {
        NotRewarded(s, seller, a);
      }
      ghost var t := s;
      if fee > 0 {
        Accumulate(a, fee - reward);
        MoneyOnlyTransitive(old(s), t, s);
        RewardedBefore(old(s), t, s, seller, a, reward, share);
      }
    }

    /// The deferred creation fee of an order falls due at its first fill.
    method ChargeDeferredFee(o: LimitOrder)
      requires o.deferredPaid.id in s.assets
      modifies this
      ensures s.balances == old(s).balances && MoneyOnly(old(s), s)
      ensures Moves2(old(s), s, CORE, o.deferredFee, o.deferredPaid.id, o.deferredPaid.amount)
      ensures s.vesting == old(s).vesting
      ensures s.pendingFees == (if o.deferredFee > 0 then AddPending(old(s), o.seller, o.deferredFee).pendingFees else old(s).pendingFees)
      ensures s.assets == old(s).assets[o.deferredPaid.id := old(s).assets[o.deferredPaid.id].(accumulatedFees :=
        old(s).assets[o.deferredPaid.id].accumulatedFees + o.deferredPaid.amount)]
    {
      hide Gap;
      hide SameCore;
      MoneyOnlyReflexive(s);
      if o.deferredFee > 0 {
        AddPendingMoves(s, o.seller, o.deferredFee);
        s := AddPending(s, o.seller, o.deferredFee);
      }
      ghost var t := s;
      if o.deferredPaid.amount > 0 {
        assert s.assets == old(s).assets;
        Accumulate(o.deferredPaid.id, o.deferredPaid.amount);
        MoneyOnlyTransitive(old(s), t, s);
      }
    }

    /// Where the fees of a fill go: the market fee to the issuer, and in part to the
    /// seller's registrar and referrer; the deferred fee to the network and, when it was
    /// exchanged for CORE, to the issuer of the asset it was paid with.
    ghost predicate FeesPaid(s: State, t: State, o: LimitOrder, receives: nat)
      requires o.price.quote.id in s.assets
    {
      var a := o.price.quote.id;
      var fee := MarketFee(s.assets[a], receives);
      var reward := Reward(o.seller, a, s.assets[a], fee);
      && (forall w: Account :: Pending(t, w) == Pending(s, w) + if w == o.seller then o.deferredFee else 0)
      && Rewarded(s, t, o.seller, a, reward, ReferrerReward(o.seller, a, reward))
      && t.assets.Keys == s.assets.Keys
      && forall b <- s.assets ::
        && t.assets[b].feePool == s.assets[b].feePool
        && t.assets[b].accumulatedFees == s.assets[b].accumulatedFees
           + (if b == a then fee - reward else 0) + (if b == o.deferredPaid.id then o.deferredPaid.amount else 0)
    }

    lemma FeesArePaid(s: State, t: State, u: State, v: State, o: LimitOrder, receives: nat)
      requires var a := o.price.quote.id;
        && a in s.assets && o.deferredPaid.id in s.assets
        && var fee := MarketFee(s.assets[a], receives);
           var reward := Reward(o.seller, a, s.assets[a], fee);
           && reward <= fee && Rewarded(s, t, o.seller, a, reward, ReferrerReward(o.seller, a, reward))
           && t.assets == s.assets[a := s.assets[a].(accumulatedFees := s.assets[a].accumulatedFees + (fee - reward))]
      requires t.pendingFees == s.pendingFees && u == t.(balances := u.balances) && v.vesting == u.vesting
      requires v.pendingFees == (if o.deferredFee > 0 then AddPending(u, o.seller, o.deferredFee).pendingFees else u.pendingFees)
      requires v.assets == u.assets[o.deferredPaid.id := u.assets[o.deferredPaid.id].(accumulatedFees :=
        u.assets[o.deferredPaid.id].accumulatedFees + o.deferredPaid.amount)]
      ensures FeesPaid(s, v, o, receives)
    {
      hide MarketFee;
      hide Database.Reward;
      hide Database.ReferrerReward;
      hide Database.Rewarded;
      var a := o.price.quote.id;
      var reward := Reward(o.seller, a, s.assets[a], MarketFee(s.assets[a], receives));
      RewardedBefore(s, t, v, o.seller, a, reward, ReferrerReward(o.seller, a, reward));
    }

    /// The seller's proceeds, less the market fee, and the deferred fee.
    method PayForFill(o: LimitOrder, receives: nat) returns (ok: bool)
      requires o.price.quote.id in s.assets && o.deferredPaid.id in s.assets
      modifies this
      ensures ok <==> FeesPayable(o.seller, o.price.quote.id, old(s).assets[o.price.quote.id], receives)
      ensures ok ==> FeesPaid(old(s), s, o, receives)
      ensures ok ==>
        && MoneyOnly(old(s), s)
        && MarketFee(old(s).assets[o.price.quote.id], receives) <= receives
        && s.balances == Adjusted(old(s).balances, o.seller, o.price.quote.id, receives - MarketFee(old(s).assets[o.price.quote.id], receives))
        && forall x ::
          Gap(s, x) == Gap(old(s), x) + Part(Asset(receives, o.price.quote.id), x)
          + Part(Asset(o.deferredFee, CORE), x) + Part(o.deferredPaid, x)
    {
      hide Gap;
      hide SameCore;
      hide MarketFee;
      hide Adjusted;
      hide Database.Reward;
      hide Database.ReferrerReward;
      hide Database.Rewarded;
      hide Database.FeesPaid;
      hide MoneyOnly;
      var fee;
      ok, fee := PayMarketFees(o.seller, o.price.quote.id, receives);
      if !ok {
        return;
      }
      ghost var s1 := s;
      ok := AdjustBalance(o.seller, o.price.quote.id, receives - fee);
      MoneyOnlyTransitive(old(s), s1, s);
      ghost var s2 := s;
      ChargeDeferredFee(o);
      MoneyOnlyTransitive(old(s), s2, s);
      FeesArePaid(old(s), s1, s2, s, o, receives);
    }

    /// What a fill leaves of the order itself.
    method ReduceOrder(id: nat, pays: nat, cull: bool) returns (r: Outcome)
      requires id in s.limits && s.limits[id].Valid(s.assets.Keys) && pays <= s.limits[id].forSale
      modifies this
      ensures
        var o := old(s).limits[id];
        r.Failed? <==> pays < o.forSale && cull && Reduced(o, pays).ToReceive() > MAX_SHARE_SUPPLY
      ensures !r.Failed? ==>
        var o := old(s).limits[id];
        && s == old(s).(limits := s.limits, balances := s.balances)
        && (r.Gone? <==> pays == o.forSale || (cull && Reduced(o, pays).ToReceive() == 0))
        && s.limits == (if r.Gone? then old(s).limits - {id} else old(s).limits[id := Reduced(o, pays)])
        && s.balances == Adjusted(old(s).balances, o.seller, o.price.base.id, if r.Gone? then o.forSale - pays else 0)
        && forall x ::
          Gap(s, x) == Gap(old(s), x) - Part(Asset(pays, o.price.base.id), x)
          - Part(Asset(o.deferredFee, CORE), x) - Part(o.deferredPaid, x)
    {
      hide Gap;
      hide SameCore;
      var o := s.limits[id];
      if pays == o.forSale {
        LimitRemoved(s, id);
        s := s.(limits := s.limits - {id});
        return Gone;
      }
      LimitReduced(s, id, Reduced(o, pays));
      s := s.(limits := s.limits[id := Reduced(o, pays)]);
      if cull {
        ghost var s1 := s;
        r := MaybeCull(id);
        if r.Gone? {
          assert s1.limits - {id} == old(s).limits - {id};
        }
      } else {
        r := Stays;
      }
    }

    /// The fees of a fill can be paid, and what is left of the order does not ask for more
    /// than the share supply.
    predicate Fillable(s: State, o: LimitOrder, pays: nat, receives: nat, cull: bool)
      requires o.Valid(s.assets.Keys) && pays <= o.forSale
    {
      && FeesPayable(o.seller, o.price.quote.id, s.assets[o.price.quote.id], receives)
      && (pays < o.forSale && cull ==> Reduced(o, pays).ToReceive() <= MAX_SHARE_SUPPLY)
    }

    /// Fee counters and supplies have no part in it.
    lemma StaysFillable(s: State, t: State, o: LimitOrder, pays: nat, receives: nat, cull: bool)
      requires o.Valid(s.assets.Keys) && pays <= o.forSale && SameSetup(s, t)
      ensures Fillable(s, o, pays, receives, cull) == Fillable(t, o, pays, receives, cull)
    {
      var d, e := s.assets[o.price.quote.id], t.assets[o.price.quote.id];
      assert d.Setup() == e.Setup();
      assert d.Setup().feePercent == d.feePercent && e.Setup().feePercent == e.feePercent;
      assert d.Setup().maxMarketFee == d.maxMarketFee && e.Setup().maxMarketFee == e.maxMarketFee;
      assert d.Setup().rewardPercent == d.rewardPercent && e.Setup().rewardPercent == e.rewardPercent;
    }

    /// fill_limit_order
    method FillLimitOrder(id: nat, pays: nat, receives: nat, cull: bool) returns (r: Outcome)
      requires id in s.limits && s.limits[id].Valid(s.assets.Keys) && pays <= s.limits[id].forSale
      modifies this
      ensures r.Failed? <==> !Fillable(old(s), old(s).limits[id], pays, receives, cull)
      ensures !r.Failed? ==>
        var o := old(s).limits[id];
        && Moves2(old(s), s, o.price.base.id, 0 - pays, o.price.quote.id, receives)
        && SameCore(old(s), s)
        && SameButLimits(old(s), s)
        && (r.Gone? <==> Leaves(o, pays, cull)) && OrderFilled(old(s), s, id, pays, receives, cull)
        && FeesPaid(old(s), s, o, receives)
    {
      hide Gap;
      hide SameCore;
      hide MarketFee;
      hide Adjusted;
      hide Database.FeesPayable;
      hide Database.FeesPaid;
      hide LimitOrder.ToReceive;
      var o := s.limits[id];
      var ok := PayForFill(o, receives);
      if !ok {
        return Failed;
      }
      ghost var s1 := s;
      SameIds(old(s), s);
      r := ReduceOrder(id, pays, cull);
      if !r.Failed? {
        SameCoreTransitive(old(s), s1, s);
        FeesPaidBefore(old(s), s1, s, o, receives);
      }
    }

    lemma FeesPaidBefore(s: State, t: State, u: State, o: LimitOrder, receives: nat)
      requires o.price.quote.id in s.assets && FeesPaid(s, t, o, receives)
      requires u.pendingFees == t.pendingFees && u.vesting == t.vesting && u.assets == t.assets
      ensures FeesPaid(s, u, o, receives)
    {
    }

    /// The part of the deferred fee that a cancellation keeps, in CORE.
    function CancelCharge(o: LimitOrder, charge: bool): nat {
      if charge then Min(cancelFee, o.deferredFee) else 0
    }

    /// The same in the asset the fee was paid with, rounded up.
    function CancelPaid(o: LimitOrder, charge: bool): nat {
      if CancelCharge(o, charge) == 0 then 0 else CeilMul(o.deferredPaid.amount, CancelCharge(o, charge), o.deferredFee)
    }

    /// The fee that comes back to the seller: what was paid, less what is kept.
    function FeeRefund(o: LimitOrder, charge: bool): (r: Asset)
      ensures r.amount <= if o.deferredPaid.amount == 0 then o.deferredFee else o.deferredPaid.amount
    {
      if o.deferredPaid.amount == 0 then Asset(o.deferredFee - CancelCharge(o, charge), CORE)
      else
        assert CancelPaid(o, charge) <= o.deferredPaid.amount by { KeptWithinPaid(o, charge); }
        o.deferredPaid.(amount := o.deferredPaid.amount - CancelPaid(o, charge))
    }

    lemma KeptWithinPaid(o: LimitOrder, charge: bool)
      ensures CancelPaid(o, charge) <= o.deferredPaid.amount
    {
      var c := CancelCharge(o, charge);
      if c > 0 {
        CeilIsLeast(o.deferredPaid.amount, c, o.deferredFee, o.deferredPaid.amount);
        ProductMonotone(c, o.deferredFee, o.deferredPaid.amount);
      }
    }

    /** In plain amounts: the cancellation fee is what the schedule asks, up to the fee paid;
        when the fee was paid in another asset, the least part of it worth that much. */
    lemma CancelFeeIs(o: LimitOrder, charge: bool)
      ensures CancelCharge(o, charge) == if !charge then 0 else if cancelFee <= o.deferredFee then cancelFee else o.deferredFee
      ensures CancelCharge(o, charge) > 0 ==>
        && o.deferredPaid.amount * CancelCharge(o, charge) <= CancelPaid(o, charge) * o.deferredFee
        && (CancelPaid(o, charge) - 1) * o.deferredFee < o.deferredPaid.amount * CancelCharge(o, charge)
      ensures var back := FeeRefund(o, charge);
        if o.deferredPaid.amount == 0 then back == Asset(o.deferredFee - CancelCharge(o, charge), CORE)
        else back.id == o.deferredPaid.id && back.amount + CancelPaid(o, charge) == o.deferredPaid.amount
    {
      var c := CancelCharge(o, charge);
      KeptWithinPaid(o, charge);
      if c > 0 {
        var paid := CancelPaid(o, charge);
        DivisionBounds(o.deferredPaid.amount * c + o.deferredFee - 1, o.deferredFee);
        assert (paid - 1) * o.deferredFee == paid * o.deferredFee - o.deferredFee;
      }
    }

    function Refunded(m: map<(Account, AssetId), nat>, o: LimitOrder, charge: bool): map<(Account, AssetId), nat> {
      var fee := FeeRefund(o, charge);
      Adjusted(Adjusted(m, o.seller, o.price.base.id, o.forSale), o.seller, fee.id, fee.amount)
    }

    /// The part of cancel_limit_order that keeps the cancellation fee and, when the
    /// fee had been exchanged for CORE, gives the rest of that CORE back to the pool.
    method KeepCancelFee(o: LimitOrder, charge: bool)
      requires o.deferredPaid.id in s.assets
      modifies this
      ensures s.balances == old(s).balances && MoneyOnly(old(s), s)
      ensures forall w: Account :: Pending(s, w) == old(Pending(s, w)) + if w == o.seller then CancelCharge(o, charge) else 0
      ensures o.deferredFee == 0 && o.deferredPaid.amount == 0 ==> s == old(s)
      ensures o.deferredPaid.amount == 0 ==> Moves(old(s), s, CORE, CancelCharge(o, charge))
      ensures o.deferredPaid.amount > 0 ==>
        Moves2(old(s), s, CORE, o.deferredFee, o.deferredPaid.id, CancelPaid(o, charge))
    {
      hide Gap;
      hide SameCore;
      var kept := CancelCharge(o, charge);
      MoneyOnlyReflexive(s);
      if kept > 0 {
        AddPendingMoves(s, o.seller, kept);
        s := AddPending(s, o.seller, kept);
        assert s.assets == old(s).assets;
      }
      if o.deferredPaid.amount > 0 {
        ghost var s1 := s;
        Accumulate(o.deferredPaid.id, CancelPaid(o, charge));
        MoneyOnlyTransitive(old(s), s1, s);
        ghost var s2 := s;
        SameIds(old(s), s);
        var pool := s.assets[o.deferredPaid.id].feePool + (o.deferredFee - kept);
        FeePoolMoves(s, o.deferredPaid.id, pool);
        s := SetAsset(s, o.deferredPaid.id, s.assets[o.deferredPaid.id].(feePool := pool));
        MoneyOnlyTransitive(old(s), s2, s);
      }
    }

    /// cancel_limit_order; `charge` when the cancellation is not the owner's own.
    method CancelLimitOrder(id: nat, charge: bool)
      requires id in s.limits && s.limits[id].deferredPaid.id in s.assets
      modifies this
      ensures Moves(old(s), s, CORE, 0) && SameCore(old(s), s) && SameButLimits(old(s), s)
      ensures s.limits == old(s).limits - {id}
      ensures s.balances == Refunded(old(s).balances, old(s).limits[id], charge)
      ensures forall w: Account ::
        Pending(s, w) == old(Pending(s, w)) + if w == old(s).limits[id].seller then CancelCharge(old(s).limits[id], charge) else 0
      ensures old(s).limits[id].deferredFee == 0 && old(s).limits[id].deferredPaid.amount == 0 ==>
        s == old(s).(limits := s.limits, balances := s.balances)
    {
      hide Gap;
      hide SameCore;
      var o := s.limits[id];
      var fee := FeeRefund(o, charge);
      KeepCancelFee(o, charge);
      ghost var s1 := s;
      var ok := AdjustBalance(o.seller, o.price.base.id, o.forSale);
      MoneyOnlyTransitive(old(s), s1, s);
      ghost var s2 := s;
      ok := AdjustBalance(o.seller, fee.id, fee.amount);
      MoneyOnlyTransitive(old(s), s2, s);
      assert s.limits == old(s).limits;
      LimitRemoved(s, id);
      KeptWithinPaid(o, charge);
      ghost var s3 := s;
      s := s.(limits := s.limits - {id});
      SameCoreTransitive(old(s), s3, s);
    }

    /// maybe_cull_small_order
    method MaybeCull(id: nat) returns (r: Outcome)
      requires id in s.limits && s.limits[id].Valid(s.assets.Keys)
      modifies this
      ensures r.Gone? ==>
        && old(s).limits[id].ToReceive() == 0
        && Moves(old(s), s, CORE, 0) && SameCore(old(s), s) && SameButLimits(old(s), s)
        && s.limits == old(s).limits - {id}
        && s.balances == Refunded(old(s).balances, old(s).limits[id], true)
        && (old(s).limits[id].deferredFee == 0 && old(s).limits[id].deferredPaid.amount == 0 ==>
             s == old(s).(limits := s.limits, balances := s.balances))
      ensures r.Stays? ==> s == old(s) && s.limits[id].ToReceive() > 0
      ensures r.Failed? <==> old(s).limits[id].ToReceive() > MAX_SHARE_SUPPLY
    {
      hide Gap;
      hide SameCore;
      var v := s.limits[id].ToReceive();
      if v > MAX_SHARE_SUPPLY {
        return Failed;
      }
      if v > 0 {
        return Stays;
      }
      CancelLimitOrder(id, true);
      return Gone;
    }

    /// fill_call_order: debt and supply fall together; a position without debt is
    /// closed and its remaining collateral returned.
    method FillCallOrder(key: (Account, AssetId), pays: nat, receives: nat) returns (r: Outcome)
      requires key in s.calls && s.calls[key].debt.id in s.assets
      requires receives <= s.calls[key].debt.amount && receives <= s.Supply(s.calls[key].debt.id)
      modifies this
      ensures r.Failed? <==> pays > old(s).calls[key].collateral.amount
      ensures !r.Failed? ==>
        var c, a := old(s).calls[key], old(s).calls[key].debt.id;
        && (r.Gone? <==> receives == c.debt.amount)
        && PositionFilled(old(s), s, key, pays, receives)
        && Moves2(old(s), s, c.collateral.id, 0 - pays, a, receives)
        && SameDebtGaps(old(s), s)
    {
      hide Gap;
      hide DebtGap;
      var c := s.calls[key];
      var a := c.debt.id;
      if pays > c.collateral.amount {
        return Failed;
      }
      CallReduced(s, key, pays, receives);
      s := CallFilled(s, key, pays, receives);
      if receives < c.debt.amount {
        return Stays;
      }
      ghost var s1 := s;
      var ok := AdjustBalance(c.borrower, c.collateral.id, c.collateral.amount - pays);
      SameDebts(s1, s);
      return Gone;
    }
  }
}
