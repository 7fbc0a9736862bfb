/** Claims on a settled asset, settlement requests and settlement by the issuer
    (asset_settle and asset_global_settle in asset_evaluator.cpp). */
module Settlements {
  import opened Options
  import opened Prices
  import opened Sums
  import opened MarginCall
  import opened MarketState
  import opened MarketDatabase
  import opened OrderBook
  import opened Trades
  import opened Positions
  import opened Matching
  import opened Orders
  import opened GlobalSettlement
  import opened MarketInvariant
  import opened MarginCalls
  import opened MarketOperations

  /// What a claim is paid: its part of the fund rounded down, or all of it for the
  /// whole supply.
  function Gets(supply: nat, st: Settlement, amount: nat): nat
    requires st.price.base.amount > 0
  {
    if amount == supply then st.fund else FloorMul(amount, st.price.quote.amount, st.price.base.amount)
  }

  /// What the claimant gives for it: no more than is needed to get it.
  function Gives(supply: nat, st: Settlement, amount: nat): nat
    requires st.price.base.amount > 0
  {
    var gets := Gets(supply, st, amount);
    if amount == supply || gets == 0 || st.price.quote.amount == 0 then amount
    else CeilMul(gets, st.price.base.amount, st.price.quote.amount)
  }

  /** In plain amounts: a claim on less than the supply gets the most its part of the fund
      allows at the settlement price, and gives the least that is worth what it gets. */
  lemma ClaimMeans(supply: nat, st: Settlement, amount: nat, v: nat)
    requires st.price.base.amount > 0 && amount < supply
    ensures v <= Gets(supply, st, amount) <==> v * st.price.base.amount <= amount * st.price.quote.amount
    ensures Gets(supply, st, amount) > 0 ==>
      (Gives(supply, st, amount) <= v <==> Gets(supply, st, amount) * st.price.base.amount <= v * st.price.quote.amount)
  {
    hide FloorMul;
    hide CeilMul;
    var gets := Gets(supply, st, amount);
    FloorIsGreatest(amount, st.price.quote.amount, st.price.base.amount, v);
    if gets > 0 {
      PositiveShare(amount, st.price.quote.amount, st.price.base.amount);
      CeilIsLeast(gets, st.price.base.amount, st.price.quote.amount, v);
    }
  }

  /** A claim never exceeds the fund, and leaves enough for all the others. */
  lemma ClaimSolvent(a: AssetId, supply: nat, backing: AssetId, st: Settlement, amount: nat)
    requires Solvent(a, supply, backing, st) && amount <= supply && st.price.base.amount > 0
    ensures Gets(supply, st, amount) <= st.fund && Gives(supply, st, amount) <= amount
    ensures Solvent(a, supply - Gives(supply, st, amount), backing, st.(fund := st.fund - Gets(supply, st, amount)))
    ensures amount < supply && st.price.quote.amount > 0 ==> Gets(supply, st, amount) < st.fund
    ensures amount < supply && Gets(supply, st, amount) > 0 ==> st.price.quote.amount > 0
  {
    var s0, f0 := st.price.base.amount, st.price.quote.amount;
    if amount < supply {
      var gets, gives := Gets(supply, st, amount), Gives(supply, st, amount);
      ClaimWithinFund(supply, st.fund, s0, f0, amount);
      if gets > 0 {
        FloorIsGreatest(amount, f0, s0, gets);
        assert f0 > 0 by { PositiveShare(amount, f0, s0); }
        CeilBounds(gets, s0, f0);
        RoundingGalois(gets, amount, s0, f0);
        RestSolvent(supply, st.fund, s0, f0, gives, gets);
      } else {
        RestSolvent(supply, st.fund, s0, f0, gives, 0);
      }
    }
  }

  lemma PositiveShare(amount: nat, f0: nat, s0: nat)
    requires s0 > 0 && FloorMul(amount, f0, s0) > 0
    ensures f0 > 0
  {
    FloorIsGreatest(amount, f0, s0, 1);
    assert f0 == 0 ==> amount * f0 == 0;
  }

  lemma ClaimWithinFund(supply: nat, fund: nat, s0: nat, f0: nat, amount: nat)
    requires s0 > 0 && amount < supply && supply * f0 <= fund * s0
    ensures FloorMul(amount, f0, s0) <= fund && (f0 > 0 ==> FloorMul(amount, f0, s0) < fund)
  {
    var g := FloorMul(amount, f0, s0);
    FloorIsGreatest(amount, f0, s0, g);
    ProductLess(amount, supply, f0);
    if fund < g {
      ProductLess(fund, g, s0);
      assert false;
    }
    if fund == g && f0 > 0 {
      assert false;
    }
  }

  lemma RestSolvent(supply: nat, fund: nat, s0: nat, f0: nat, gives: nat, gets: nat)
    requires gives <= supply && gets <= fund && supply * f0 <= fund * s0 && gets * s0 <= gives * f0
    ensures (supply - gives) * f0 <= (fund - gets) * s0
  {
    assert (supply - gives) * f0 == supply * f0 - gives * f0;
    assert (fund - gets) * s0 == fund * s0 - gets * s0;
  }

  /// Supply and fund after claims of these amounts; the price stays what it was when
  /// the asset was settled.
  function Claims(supply: nat, st: Settlement, amounts: seq<nat>): (r: (nat, Settlement))
    requires st.price.base.amount > 0
    ensures r.1.price == st.price
  {
    if amounts == [] then (supply, st)
    else
      var (u, t) := Claims(supply, st, amounts[..|amounts| - 1]);
      var amount := amounts[|amounts| - 1];
      if amount <= u && Gives(u, t, amount) <= u && Gets(u, t, amount) <= t.fund
      then (u - Gives(u, t, amount), t.(fund := t.fund - Gets(u, t, amount)))
      else (u, t)
  }

  /** Over every run of claims the fund covers the remaining supply at the price fixed by
      the supply and fund at settlement; no payout exceeds the fund; and the fund is used
      up with the supply. */
  lemma {:induction false} ClaimsStaySolvent(a: AssetId, supply: nat, backing: AssetId, fund: nat, amounts: seq<nat>)
    requires supply > 0
    ensures
      var st := Settlement(Price(Asset(supply, a), Asset(fund, backing)), fund);
      var (u, t) := Claims(supply, st, amounts);
      && t.fund * supply >= u * fund && (u == 0 ==> t.fund == 0)
      && forall amount: nat :: amount <= u ==> Gets(u, t, amount) <= t.fund && Gives(u, t, amount) <= u
  {
    var st := Settlement(Price(Asset(supply, a), Asset(fund, backing)), fund);
    var (u, t) := Claims(supply, st, amounts);
    assert Solvent(a, u, backing, t) by {
      if amounts != [] {
        var before := amounts[..|amounts| - 1];
        ClaimsStaySolvent(a, supply, backing, fund, before);
        var (v, w) := Claims(supply, st, before);
        ClaimsWithin(supply, st, before);
        var amount := amounts[|amounts| - 1];
        if amount <= v {
          ClaimSolvent(a, v, backing, w, amount);
        }
      }
    }
    forall amount: nat | amount <= u ensures Gets(u, t, amount) <= t.fund && Gives(u, t, amount) <= u {
      ClaimSolvent(a, u, backing, t, amount);
    }
  }

  lemma {:induction false} ClaimsWithin(supply: nat, st: Settlement, amounts: seq<nat>)
    requires st.price.base.amount > 0
    ensures Claims(supply, st, amounts).0 <= supply
  {
    if amounts != [] {
      ClaimsWithin(supply, st, amounts[..|amounts| - 1]);
    }
  }

  // ------------------------------------------------------------------
  // Changing one settled asset

  /// Besides money only the supply and fund of settled asset `a` have changed.
  ghost predicate OnlySettled(s: State, t: State, a: AssetId) {
    && SameOrders(s, t) && t.assets.Keys == s.assets.Keys && s.Settled(a) && t.Settled(a)
    && t.assets[a].bitasset.value.backing == s.assets[a].bitasset.value.backing
    && t.assets[a].bitasset.value.feed == s.assets[a].bitasset.value.feed
    && t.assets[a].bitasset.value.settlement.value.price == s.assets[a].bitasset.value.settlement.value.price
    && forall b <- s.assets :: b != a ==> t.assets[b].Core() == s.assets[b].Core()
  }

  lemma OnlySettledElsewhere(s: State, t: State, a: AssetId, b: AssetId)
    requires OnlySettled(s, t, a) && b != a
    ensures b in s.assets ==> t.assets[b].bitasset == s.assets[b].bitasset && t.assets[b].maxSupply == s.assets[b].maxSupply
    ensures b in s.assets ==> t.assets[b].feePercent == s.assets[b].feePercent
    ensures t.Supply(b) == s.Supply(b) && t.MarketIssued(b) == s.MarketIssued(b) && t.Settled(b) == s.Settled(b)
  {
    if b in s.assets {
      var x, y := s.assets[b], t.assets[b];
      assert x.Core().bitasset == x.bitasset && y.Core().bitasset == y.bitasset;
      assert x.Core().supply == x.supply && y.Core().supply == y.supply;
      assert x.Core().maxSupply == x.maxSupply && y.Core().maxSupply == y.maxSupply;
      assert x.Core().feePercent == x.feePercent && y.Core().feePercent == y.feePercent;
    }
  }

  lemma OnlySettledKeepsAssets(s: State, t: State, a: AssetId)
    requires AssetsValid(s) && OnlySettled(s, t, a) && AssetValid(a, t.assets[a], t.assets.Keys)
    ensures AssetsValid(t)
  {
    forall b <- t.assets ensures AssetValid(b, t.assets[b], t.assets.Keys) {
      if b != a {
        OnlySettledElsewhere(s, t, a, b);
        assert AssetValid(b, s.assets[b], s.assets.Keys);
      }
    }
  }

  lemma OnlySettledKeepsBacked(s: State, t: State, a: AssetId)
    requires Backed(s) && OnlySettled(s, t, a)
    ensures Backed(t)
  {
    forall b: AssetId | t.MarketIssued(b) && !t.Settled(b) ensures DebtGap(t, b) == 0 {
      OnlySettledElsewhere(s, t, a, b);
      assert DebtGap(s, b) == 0;
    }
  }

  lemma OnlySettledKeepsCalls(s: State, t: State, a: AssetId)
    requires CallsValid(s) && OnlySettled(s, t, a)
    ensures CallsValid(t)
  {
    forall k <- t.calls ensures CallValid(t, k, t.calls[k]) {
      assert CallValid(s, k, s.calls[k]);
      OnlySettledElsewhere(s, t, a, k.1);
    }
  }

  lemma OnlySettledKeepsMet(s: State, t: State, a: AssetId)
    requires AllMet(s, {}) && OnlySettled(s, t, a) && FeedsValid(t)
    ensures AllMet(t, {})
  {
    forall b ensures NoneCallable(t, b, {}) {
      if b != a {
        OnlySettledElsewhere(s, t, a, b);
        assert NoneCallable(s, b, {});
      }
    }
  }

  lemma OnlySettledKeepsOthers(s: State, t: State, a: AssetId)
    requires SettlesValid(s) && BidsValid(s) && OnlySettled(s, t, a)
    ensures SettlesValid(t) && BidsValid(t)
  {
    forall i <- t.settles ensures t.MarketIssued(t.settles[i].balance.id) {
      if t.settles[i].balance.id != a { OnlySettledElsewhere(s, t, a, t.settles[i].balance.id); }
    }
    forall k <- t.bids ensures t.MarketIssued(k.0) && t.bids[k].collateral.id == t.assets[k.0].bitasset.value.backing {
      if k.0 != a { OnlySettledElsewhere(s, t, a, k.0); }
    }
  }

  lemma OnlySettledKeepsInv(s: State, t: State, a: AssetId)
    requires Inv(s) && OnlySettled(s, t, a) && SameGaps(s, t) && AssetValid(a, t.assets[a], t.assets.Keys)
    ensures Inv(t)
  {
    hide Gap;
    hide DebtGap;
    hide NoneCallable;
    hide OnlySettled;
    hide AssetValid;
    assert SameOrders(s, t) && t.assets.Keys == s.assets.Keys by { OnlySettledFrame(s, t, a); }
    OnlySettledKeepsAssets(s, t, a);
    OnlySettledKeepsBacked(s, t, a);
    OnlySettledKeepsCalls(s, t, a);
    OnlySettledKeepsOthers(s, t, a);
    SoundFeeds(t);
    OnlySettledKeepsMet(s, t, a);
  }

  lemma OnlySettledFrame(s: State, t: State, a: AssetId)
    requires OnlySettled(s, t, a)
    ensures SameOrders(s, t) && t.assets.Keys == s.assets.Keys
  {
  }

  // ------------------------------------------------------------------
  // Claims

  function Paid(d: AssetData, gives: nat, gets: nat): AssetData
    requires d.bitasset.Some? && d.bitasset.value.settlement.Some? && gives <= d.supply && gets <= d.Fund()
  {
    var b := d.bitasset.value;
    d.(supply := d.supply - gives, bitasset := Some(b.(settlement := Some(b.settlement.value.(fund := d.Fund() - gets)))))
  }

  lemma PaidMoves(s: State, a: AssetId, gives: nat, gets: nat)
    requires s.Settled(a) && gives <= s.assets[a].supply && gets <= s.assets[a].Fund()
    ensures Moves2(s, SetAsset(s, a, Paid(s.assets[a], gives, gets)), a, gives, s.assets[a].bitasset.value.backing, 0 - gets)
  {
    var d := s.assets[a];
    var t := SetAsset(s, a, Paid(d, gives, gets));
    forall x: AssetId
      ensures Gap(t, x) == Gap(s, x) + (if x == a then gives else 0) + (if x == d.bitasset.value.backing then 0 - gets else 0)
    {
      SetAssetGap(s, a, Paid(d, gives, gets), x);
    }
  }

  lemma PaidIsOnlySettled(s: State, t: State, u: State, a: AssetId, gives: nat, gets: nat)
    requires MoneyOnly(s, t) && s.Settled(a) && gives <= t.Supply(a) && a in t.assets
    requires t.assets[a].bitasset == s.assets[a].bitasset && gets <= t.assets[a].Fund()
    requires u == SetAsset(t, a, Paid(t.assets[a], gives, gets))
    ensures OnlySettled(s, u, a)
  {
  }

  /// The claim has been paid out of the fund, and what was given for it is no more.
  ghost predicate ClaimPaid(s: State, t: State, who: Account, a: AssetId, amount: nat) {
    && OnlySettled(s, t, a) && s.assets[a].bitasset.value.settlement.value.price.base.amount > 0
    && var d := s.assets[a];
       var st := d.bitasset.value.settlement.value;
       var gives, gets := Gives(d.supply, st, amount), Gets(d.supply, st, amount);
       && gives <= d.supply && gets <= d.Fund()
       && t == s.(balances := t.balances, assets := s.assets[a := Paid(d, gives, gets)])
       && (forall w: Account, x: AssetId ::
            t.Balance(w, x) == s.Balance(w, x) + (if w == who && x == a then 0 - gives else 0)
            + (if w == who && x == d.bitasset.value.backing then gets else 0))
       && t.Supply(a) == d.supply - gives && t.assets[a].Fund() == d.Fund() - gets
  }

  /// A claim on the settlement fund.
  method Claim(db: Database, who: Account, a: AssetId, amount: nat) returns (ok: bool)
    requires Inv(db.s) && db.s.Settled(a) && amount <= db.s.Balance(who, a)
    modifies db
    ensures ok <==>
      var d := old(db.s).assets[a];
      var st := d.bitasset.value.settlement.value;
      st.price.base.amount > 0 && (d.bitasset.value.predictionMarket || Gets(d.supply, st, amount) > 0)
    ensures ok ==> Inv(db.s) && ClaimPaid(old(db.s), db.s, who, a, amount)
  {
    hide Gap;
    hide Inv;
    hide OnlySettled;
    hide AssetValid;
    hide SameCore;
    hide Gets;
    hide Gives;
    ghost var s0 := db.s;
    var d := db.s.assets[a];
    var st := d.bitasset.value.settlement.value;
    if st.price.base.amount == 0 {
      return false;
    }
    var gives, gets := Gives(d.supply, st, amount), Gets(d.supply, st, amount);
    if gets == 0 && !d.bitasset.value.predictionMarket {
      return false;
    }
    ClaimIsCovered(s0, who, a, amount);
    ok := db.AdjustBalance(who, a, (0 as int) - gives);
    ghost var s1 := db.s;
    ok := db.AdjustBalance(who, d.bitasset.value.backing, gets);
    ghost var s2 := db.s;
    MoneyOnlyTransitive(s0, s1, s2);
    PaidMoves(s2, a, gives, gets);
    db.s := SetAsset(db.s, a, Paid(db.s.assets[a], gives, gets));
    PaidIsOnlySettled(s0, s2, db.s, a, gives, gets);
    OnlySettledFrame(s0, db.s, a);
    OnlySettledKeepsInv(s0, db.s, a);
    return true;
  }

  lemma ClaimIsCovered(s: State, who: Account, a: AssetId, amount: nat)
    requires Inv(s) && s.Settled(a) && amount <= s.Balance(who, a)
    requires s.assets[a].bitasset.value.settlement.value.price.base.amount > 0
    ensures var d := s.assets[a];
      var st := d.bitasset.value.settlement.value;
      var gives, gets := Gives(d.supply, st, amount), Gets(d.supply, st, amount);
      && gets <= d.Fund() && gives <= amount <= d.supply && d.bitasset.value.backing != a
      && AssetValid(a, Paid(d, gives, gets), s.assets.Keys)
  {
    var d := s.assets[a];
    assert AssetValid(a, d, s.assets.Keys);
    BalanceWithinSupply(s, who, a);
    ClaimSolvent(a, d.supply, d.bitasset.value.backing, d.bitasset.value.settlement.value, amount);
  }

  // ------------------------------------------------------------------
  // Settlement requests

  function WithSettle(s: State, o: SettleOrder): State {
    s.(settles := s.settles[s.nextId := o], nextId := s.nextId + 1)
  }

  lemma RequestKeepsInv(s: State, t: State, u: State, o: SettleOrder)
    requires Inv(s) && MoneyOnly(s, t) && Moves(s, t, o.balance.id, 0 - o.balance.amount) && u == WithSettle(t, o)
    requires s.MarketIssued(o.balance.id)
    ensures Inv(u) && s.nextId !in s.settles
  {
    hide Gap;
    hide DebtGap;
    hide NoneCallable;
    hide SameCore;
    hide BookSound;
    hide Conserved;
    hide AssetValid;
    hide CallValid;
    hide Backed;
    hide SettlesValid;
    hide BidsValid;
    MoneyKeeps(s, t);
    RequestConserved(s, t, u, o);
    BookUnchanged(s, u);
    BackedBy(t, u);
    CallsStayValid(t, u, CORE);
    SetupMarketIssued(s, t);
    RequestValid(t, u, o);
    AllMetShrinks(s, u, {});
  }

  lemma RequestValid(t: State, u: State, o: SettleOrder)
    requires SettlesValid(t) && BidsValid(t) && IdsIssued(t) && u == WithSettle(t, o) && t.MarketIssued(o.balance.id)
    ensures SettlesValid(u) && BidsValid(u) && IdsIssued(u)
  {
  }

  lemma RequestConserved(s: State, t: State, u: State, o: SettleOrder)
    requires Conserved(s) && Moves(s, t, o.balance.id, 0 - o.balance.amount) && u == WithSettle(t, o) && t.nextId !in t.settles
    ensures Conserved(u)
  {
    hide Gap;
    forall x: AssetId ensures Gap(u, x) == 0 {
      SettleGapHere(t, o, x);
    }
  }

  lemma SettleGapHere(s: State, o: SettleOrder, x: AssetId)
    requires s.nextId !in s.settles
    ensures Gap(WithSettle(s, o), x) == Gap(s, x) + Part(o.balance, x)
  {
    SettleGap(s, s.nextId, o, x);
  }

  lemma SetupMarketIssued(s: State, t: State)
    requires SameSetup(s, t)
    ensures forall a :: s.MarketIssued(a) == t.MarketIssued(a)
  {
    forall a <- s.assets ensures s.assets[a].bitasset == t.assets[a].bitasset {
      assert s.assets[a].Setup().bitasset == t.assets[a].Setup().bitasset;
    }
  }

  /// The request is recorded and holds the amount.
  ghost predicate Requested(s: State, t: State, who: Account, amount: Asset, date: nat) {
    && t == WithSettle(s.(balances := t.balances), SettleOrder(who, amount, date))
    && forall w: Account, x: AssetId :: s.Balance(w, x) == t.Balance(w, x) + if w == who then Part(amount, x) else 0
  }

  /// The balance suffices, and a claim is worth something or a request is allowed.
  predicate MaySettle(s: State, who: Account, amount: Asset, allowed: bool) {
    && s.MarketIssued(amount.id) && amount.amount <= s.Balance(who, amount.id)
    && var d := s.assets[amount.id];
       var b := d.bitasset.value;
       if s.Settled(amount.id) then
         b.settlement.value.price.base.amount > 0 && (b.predictionMarket || Gets(d.supply, b.settlement.value, amount.amount) > 0)
       else allowed && !b.predictionMarket && b.feed.Some?
  }

  /// asset_settle: a claim when the asset is settled, otherwise a request to be served
  /// after the delay.
  method Settle(db: Database, who: Account, amount: Asset, allowed: bool, date: nat) returns (r: Result)
    requires Inv(db.s)
    modifies db
    ensures !r.Hangs?
    ensures r.Accepted? ==> Inv(db.s)
    ensures !r.Accepted? ==> db.s == old(db.s)
    ensures r.Accepted? && !old(db.s).Settled(amount.id) ==> Requested(old(db.s), db.s, who, amount, date)
    ensures r.Accepted? && old(db.s).Settled(amount.id) ==> ClaimPaid(old(db.s), db.s, who, amount.id, amount.amount)
    ensures r.Accepted? <==> MaySettle(old(db.s), who, amount, allowed)
  {
    hide Gap;
    hide Inv;
    hide OnlySettled;
    hide ClaimPaid;
    hide SameCore;
    hide Gets;
    hide Gives;
    var a := amount.id;
    if !db.s.MarketIssued(a) || (!allowed && !db.s.Settled(a)) || amount.amount > db.s.Balance(who, a) {
      return Rejected;
    }
    var b := db.s.assets[a].bitasset.value;
    if !db.s.Settled(a) && (b.predictionMarket || b.feed.None?) {
      return Rejected;
    }
    var saved := db.s;
    if db.s.Settled(a) {
      var ok := Claim(db, who, a, amount.amount);
      if !ok {
        db.s := saved;
        return Rejected;
      }
      return Accepted;
    }
    var ok := db.AdjustBalance(who, a, (0 as int) - amount.amount);
    ghost var s1 := db.s;
    db.s := db.s.(settles := db.s.settles[db.s.nextId := SettleOrder(who, amount, date)], nextId := db.s.nextId + 1);
    RequestKeepsInv(saved, s1, db.s, SettleOrder(who, amount, date));
    return Accepted;
  }

  // ------------------------------------------------------------------
  // Settlement by the issuer

  lemma InvMetBut(s: State, a: AssetId)
    requires Inv(s)
    ensures MetBut(s, a)
  {
  }

  /** Whatever is owed is owed by someone: that no position is found cannot happen. */
  lemma OwedByPositions(s: State, a: AssetId)
    requires Backed(s) && CallsValid(s) && s.MarketIssued(a) && !s.Settled(a) && s.assets[a].supply > 0
    ensures exists k :: k in s.calls && k.1 == a
  {
    assert DebtGap(s, a) == 0 && forall k <- s.calls :: CallValid(s, k, s.calls[k]);
    if forall k <- s.calls :: k.1 != a {
      SumOfZeros(s.calls, DebtIn(a));
    }
  }

  /// The checks of the evaluator; `permitted` is the issuer's permission.
  predicate MaySettleGlobally(s: State, a: AssetId, permitted: bool) {
    permitted && s.MarketIssued(a) && s.assets[a].supply > 0 && !s.Settled(a)
  }

  /// A least collateralized position can, or cannot, pay for its debt at the price.
  ghost predicate LeastPays(s: State, a: AssetId, price: Price, can: bool) {
    exists k <- s.calls ::
      && k.1 == a && (forall j <- s.calls :: j.1 == a ==> !Less(s.calls[j].Collateralization(), s.calls[k].Collateralization()))
      && var worth := Times(s.calls[k].debt, price);
         can == (worth.Some? && worth.value.amount <= s.calls[k].collateral.amount)
  }

  /// asset_global_settle
  method SettleGlobally(db: Database, a: AssetId, price: Price, permitted: bool) returns (r: Result)
    requires Inv(db.s)
    modifies db
    ensures !r.Hangs?
    ensures r.Accepted? ==> Inv(db.s) && GloballySettled(old(db.s), db.s, a, price)
    ensures !r.Accepted? ==> db.s == old(db.s)
    ensures r.Accepted? ==> MaySettleGlobally(old(db.s), a, permitted) && LeastPays(old(db.s), a, price, true)
    ensures r.Rejected? ==>
      || !MaySettleGlobally(old(db.s), a, permitted)
      || LeastPays(old(db.s), a, price, false) || !AllPayable(old(db.s).calls, a, price)
  {
    hide AllPayable;
    hide Gap;
    hide DebtGap;
    hide GloballySettled;
    hide NoneCallable;
    hide Less;
    hide Times;
    if !db.s.MarketIssued(a) || !permitted || db.s.assets[a].supply == 0 || db.s.Settled(a) {
      return Rejected;
    }
    assert forall k <- db.s.calls :: CallValid(db.s, k, db.s.calls[k]);
    var key := LeastCollateralized(db.s.calls, a);
    if key.None? {
      OwedByPositions(db.s, a);
      assert false;
    }
    var c := db.s.calls[key.value];
    var worth := Times(c.debt, price);
    if worth.None? || worth.value.amount > c.collateral.amount {
      return Rejected;
    }
    var saved := db.s;
    var ok := GloballySettle(db, a, price);
    if !ok {
      db.s := saved;
      return Rejected;
    }
    InvMetBut(saved, a);
    SettlementKeepsSound(saved, db.s, a, price);
    MetAfterSettlement(saved, db.s, a, price);
    return Accepted;
  }
}