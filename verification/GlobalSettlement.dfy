/** Closing all positions of an asset at one price: database::globally_settle_asset. */
module GlobalSettlement {
  import opened Options
  import opened Prices
  import opened Sums
  import opened MarginCall
  import opened MarketState
  import opened MarketDatabase
  import opened Positions

  /// What a position pays at the settlement price: its debt's worth, rounded up, or
  /// all its collateral.
  function Pays(c: CallOrder, p: Price): (r: Option<nat>)
    ensures r.Some? ==> r.value <= c.collateral.amount
  {
    match TimesUp(c.debt, p)
    case None => None
    case Some(worth) => Some(Min(worth.amount, c.collateral.amount))
  }

  /** A position pays the least amount worth its debt, or all its collateral when that is
      less. */
  lemma PaysLeastWorth(c: CallOrder, p: Price, v: nat)
    requires p.Valid() && (c.debt.id == p.base.id || c.debt.id == p.quote.id) && Pays(c, p).Some?
    ensures
      var (debt, collateral) := if c.debt.id == p.base.id then (p.base.amount, p.quote.amount) else (p.quote.amount, p.base.amount);
      Pays(c, p).value <= v <==> c.debt.amount * collateral <= v * debt || c.collateral.amount <= v
  {
    TimesUpIsLeast(c.debt, p, v);
  }

  /// What its owner gets back.
  function Returned(c: CallOrder, p: Price): nat {
    if Pays(c, p).Some? then c.collateral.amount - Pays(c, p).value else 0
  }

  function Refund(m: Calls, w: Account, a: AssetId, p: Price): nat {
    if (w, a) in m then Returned(m[(w, a)], p) else 0
  }

  /// What the positions of `a` pay at the price.
  ghost function PaysIn(a: AssetId, p: Price): ((Account, AssetId), CallOrder) -> int {
    (k: (Account, AssetId), c: CallOrder) => if k.1 == a && Pays(c, p).Some? then Pays(c, p).value else 0
  }

  /// Every position of `a` can be valued at the price.
  predicate AllPayable(m: Calls, a: AssetId, p: Price) {
    forall k <- m :: k.1 == a ==> Pays(m[k], p).Some?
  }

  function Without(m: Calls, a: AssetId): Calls {
    map k <- m | k.1 != a :: m[k]
  }

  /// Some positions of `a` have been closed, none has been touched otherwise.
  ghost predicate Closing(s: State, t: State, a: AssetId, p: Price)
    requires s.MarketIssued(a)
  {
    && t.Supply(a) <= s.Supply(a)
    && t == s.(balances := t.balances, assets := s.assets[a := s.assets[a].(supply := t.Supply(a))], calls := t.calls)
    && t.calls.Keys <= s.calls.Keys
    && (forall k <- t.calls :: t.calls[k] == s.calls[k])
    && (forall k <- s.calls :: k.1 != a ==> k in t.calls)
    && SameDebtGaps(s, t)
    && Reimbursed(s, t, a, s.assets[a].bitasset.value.backing, p)
  }

  /// The owners of closed positions have what is left of their collateral.
  ghost predicate Reimbursed(s: State, t: State, a: AssetId, backing: AssetId, p: Price) {
    forall w: Account, x: AssetId ::
      t.Balance(w, x) == s.Balance(w, x) + if x != backing || (w, a) in t.calls then 0 else Refund(s.calls, w, a, p)
  }

  /// The state in which position `k` has been closed for `pays`.
  ghost predicate ClosedOne(s: State, t: State, k: (Account, AssetId), pays: nat) {
    && k in s.calls && s.calls[k].debt.id in s.assets
    && s.calls[k].debt.amount <= s.Supply(s.calls[k].debt.id) && pays <= s.calls[k].collateral.amount
    && var c := s.calls[k];
       var d := s.assets[c.debt.id];
       && t == s.(assets := s.assets[c.debt.id := d.(supply := d.supply - c.debt.amount)], calls := s.calls - {k},
                  balances := Adjusted(s.balances, c.borrower, c.collateral.id, c.collateral.amount - pays))
       && SameDebtGaps(s, t)
  }

  lemma ReimburseOne(s: State, t: State, u: State, k: (Account, AssetId), a: AssetId, backing: AssetId, p: Price)
    requires Reimbursed(s, t, a, backing, p) && k in s.calls && k in t.calls && k.1 == a
    requires u.calls == t.calls - {k}
    requires u.balances == Adjusted(t.balances, k.0, backing, Returned(s.calls[k], p))
    ensures Reimbursed(s, u, a, backing, p)
  {
    hide Returned;
    forall w: Account, x: AssetId
      ensures u.Balance(w, x) == s.Balance(w, x) + if x != backing || (w, a) in u.calls then 0 else Refund(s.calls, w, a, p)
    {
      assert t.Balance(w, x) == s.Balance(w, x) + if x != backing || (w, a) in t.calls then 0 else Refund(s.calls, w, a, p);
      if w == k.0 {
        assert (w, a) == k;
      } else {
        assert (w, a) in u.calls <==> (w, a) in t.calls;
      }
    }
  }

  lemma CloseOne(s: State, t: State, u: State, k: (Account, AssetId), a: AssetId, p: Price)
    requires s.MarketIssued(a) && CallsValid(s) && Closing(s, t, a, p)
    requires k in t.calls && k.1 == a && Pays(t.calls[k], p).Some? && ClosedOne(t, u, k, Pays(t.calls[k], p).value)
    ensures Closing(s, u, a, p)
  {
    hide DebtGap;
    hide Pays;
    hide Reimbursed;
    assert CallValid(s, k, s.calls[k]);
    ReimburseOne(s, t, u, k, a, s.assets[a].bitasset.value.backing, p);
    assert u.assets == s.assets[a := s.assets[a].(supply := u.Supply(a))];
  }

  /// The closed positions could be valued and have paid so much.
  ghost predicate Gathered(s: State, t: State, a: AssetId, p: Price, gathered: nat) {
    && gathered + Sum(t.calls, PaysIn(a, p)) == Sum(s.calls, PaysIn(a, p))
    && forall k <- s.calls :: k.1 == a && k !in t.calls ==> Pays(s.calls[k], p).Some?
  }

  lemma GatherOne(s: State, t: State, u: State, k: (Account, AssetId), a: AssetId, p: Price, gathered: nat)
    requires Gathered(s, t, a, p, gathered) && k in t.calls && k in s.calls && t.calls[k] == s.calls[k] && k.1 == a
    requires Pays(t.calls[k], p).Some? && u.calls == t.calls - {k}
    ensures Gathered(s, u, a, p, gathered + Pays(t.calls[k], p).value)
  {
    hide Pays;
    SumDrop(t.calls, k, PaysIn(a, p));
  }

  lemma AllGathered(s: State, t: State, a: AssetId, p: Price, gathered: nat)
    requires Gathered(s, t, a, p, gathered) && forall k <- t.calls :: k.1 != a
    ensures gathered == Sum(s.calls, PaysIn(a, p)) && AllPayable(s.calls, a, p)
  {
    hide Pays;
    SumOfZeros(t.calls, PaysIn(a, p));
  }

  method CloseAll(db: Database, a: AssetId, p: Price) returns (ok: bool, gathered: nat)
    requires db.s.MarketIssued(a) && CallsValid(db.s) && Backed(db.s)
    modifies db
    ensures ok ==>
      && Closing(old(db.s), db.s, a, p)
      && (forall k <- db.s.calls :: k.1 != a)
      && Moves2(old(db.s), db.s, old(db.s).assets[a].bitasset.value.backing, 0 - gathered, a, old(db.s).Supply(a) - db.s.Supply(a))
    ensures ok ==> gathered == Sum(old(db.s).calls, PaysIn(a, p))
    ensures ok <==> AllPayable(old(db.s).calls, a, p)
  {
    hide Gap;
    hide DebtGap;
    hide Pays;
    hide Closing;
    hide Adjusted;
    hide SameDebtGaps;
    gathered := 0;
    ghost var s0 := db.s;
    NoneClosed(s0, a, p);
    assert Gathered(s0, db.s, a, p, 0);
    hide Gathered;
    while exists k <- db.s.calls :: k.1 == a
      invariant Closing(s0, db.s, a, p)
      invariant Moves2(s0, db.s, s0.assets[a].bitasset.value.backing, 0 - gathered, a, s0.Supply(a) - db.s.Supply(a))
      invariant Gathered(s0, db.s, a, p, gathered)
      decreases |db.s.calls|
    {
      var k :| k in db.s.calls && k.1 == a;
      StillOpen(s0, db.s, k, a, p);
      var pays := Pays(db.s.calls[k], p);
      if pays.None? {
        return false, 0;
      }
      ghost var s1 := db.s;
      var r := db.FillCallOrder(k, pays.value, db.s.calls[k].debt.amount);
      Smaller(s1.calls, k);
      GatherOne(s0, s1, db.s, k, a, p, gathered);
      CloseOne(s0, s1, db.s, k, a, p);
      gathered := gathered + pays.value;
    }
    AllGathered(s0, db.s, a, p, gathered);
    return true, gathered;
  }

  lemma NoneClosed(s: State, a: AssetId, p: Price)
    requires s.MarketIssued(a)
    ensures Closing(s, s, a, p)
  {
    assert s.assets == s.assets[a := s.assets[a].(supply := s.Supply(a))];
    forall w: Account ensures (w, a) !in s.calls ==> Refund(s.calls, w, a, p) == 0 {}
    assert s == s.(assets := s.assets[a := s.assets[a].(supply := s.Supply(a))]);
  }

  lemma StillOpen(s: State, t: State, k: (Account, AssetId), a: AssetId, p: Price)
    requires s.MarketIssued(a) && CallsValid(s) && Backed(s) && Closing(s, t, a, p) && k in t.calls && k.1 == a
    ensures k in s.calls && t.calls[k] == s.calls[k] && CallValid(s, k, s.calls[k])
    ensures a in t.assets && t.calls[k].debt.amount <= t.Supply(a)
  {
    StillWithinSupply(s, t, k);
  }

  lemma StillWithinSupply(s: State, t: State, k: (Account, AssetId))
    requires CallsValid(s) && Backed(s) && SameDebtGaps(s, t) && k in t.calls
    requires t.calls.Keys <= s.calls.Keys && forall k <- t.calls :: t.calls[k] == s.calls[k]
    ensures t.calls[k].debt.amount <= t.Supply(k.1)
  {
    assert CallValid(s, k, s.calls[k]);
    assert DebtGap(t, k.1) == DebtGap(s, k.1) == 0;
    EntryAtMostSum(t.calls, k, DebtIn(k.1));
  }

  /// The asset after settlement: its supply as before, its holders' claims on the fund
  /// at the ratio of supply to collateral gathered.
  function SettledAsset(d: AssetData, a: AssetId, fund: nat): AssetData
    requires d.bitasset.Some?
  {
    var b := d.bitasset.value;
    d.(bitasset := Some(b.(settlement := Some(Settlement(Price(Asset(d.supply, a), Asset(fund, b.backing)), fund)))))
  }

  /// Every position of `a` has paid what its debt is worth into the fund and is closed;
  /// nothing else has changed but the balances of their owners.
  ghost predicate GloballySettled(s: State, t: State, a: AssetId, p: Price) {
    && s.MarketIssued(a) && !s.Settled(a) && t.Settled(a) && AllPayable(s.calls, a, p)
    && t == s.(balances := t.balances, assets := s.assets[a := SettledAsset(s.assets[a], a, t.assets[a].Fund())],
               calls := Without(s.calls, a))
    && t.assets[a].Fund() == Sum(s.calls, PaysIn(a, p))
    && t.assets[a].bitasset.value.settlement.value.price
       == Price(Asset(s.assets[a].supply, a), Asset(t.assets[a].Fund(), s.assets[a].bitasset.value.backing))
    && ((forall k <- s.calls :: k.1 != a) ==> t.assets[a].Fund() == 0)
    && SameGaps(s, t)
    && (forall b: AssetId :: b != a ==> DebtGap(t, b) == DebtGap(s, b))
    && Reimbursed(s, t, a, s.assets[a].bitasset.value.backing, p)
  }

  /** Without positions there is no debt left in the asset, so its reported supply is 0. */
  lemma NothingOwed(s: State, t: State, a: AssetId, p: Price)
    requires s.MarketIssued(a) && !s.Settled(a) && CallsValid(s) && Backed(s) && Closing(s, t, a, p)
    requires forall k <- t.calls :: k.1 != a
    ensures t.Supply(a) == 0 && a in t.assets && t.assets == s.assets[a := s.assets[a].(supply := 0)]
    ensures t.calls == Without(s.calls, a)
  {
    forall k <- t.calls ensures DebtIn(a)(k, t.calls[k]) == 0 {
      assert CallValid(s, k, s.calls[k]);
    }
    SumOfZeros(t.calls, DebtIn(a));
    assert DebtGap(t, a) == DebtGap(s, a) == 0;
  }

  lemma FundAndSupplyMove(s: State, a: AssetId, d: AssetData, fund: nat)
    requires a in s.assets && d.bitasset.Some? && !s.Settled(a) && s.assets[a] == d.(supply := 0)
    ensures Moves2(s, SetAsset(s, a, SettledAsset(d, a, fund)), d.bitasset.value.backing, fund, a, 0 - d.supply)
    ensures forall b: AssetId :: b != a ==> DebtGap(SetAsset(s, a, SettledAsset(d, a, fund)), b) == DebtGap(s, b)
  {
    var t := SetAsset(s, a, SettledAsset(d, a, fund));
    forall x: AssetId
      ensures Gap(t, x) == Gap(s, x) + (if x == d.bitasset.value.backing then fund else 0) + (if x == a then 0 - d.supply else 0)
    {
      SetAssetGap(s, a, SettledAsset(d, a, fund), x);
    }
  }

  lemma NothingGathered(m: Calls, a: AssetId, p: Price)
    ensures (forall k <- m :: k.1 != a) ==> Sum(m, PaysIn(a, p)) == 0
  {
    if forall k <- m :: k.1 != a { SumOfZeros(m, PaysIn(a, p)); }
  }

  method GloballySettle(db: Database, a: AssetId, p: Price) returns (ok: bool)
    requires db.s.MarketIssued(a) && CallsValid(db.s) && Backed(db.s)
    modifies db
    ensures ok ==> GloballySettled(old(db.s), db.s, a, p)
    ensures ok <==> !old(db.s).Settled(a) && AllPayable(old(db.s).calls, a, p)
  {
    hide Gap;
    hide DebtGap;
    hide Pays;
    if db.s.Settled(a) {
      return false;
    }
    ghost var s0 := db.s;
    var d := db.s.assets[a];
    var fund;
    ok, fund := CloseAll(db, a, p);
    if !ok {
      return;
    }
    ghost var s1 := db.s;
    NothingGathered(s0.calls, a, p);
    NothingOwed(s0, s1, a, p);
    FundAndSupplyMove(s1, a, d, fund);
    db.s := SetAsset(db.s, a, SettledAsset(d, a, fund));
  }

  /** What settlement leaves behind is in order, and covers the claims exactly. */
  lemma SettlementKeeps(s: State, t: State, a: AssetId, p: Price)
    requires GloballySettled(s, t, a, p) && CallsValid(s) && Backed(s)
    ensures CallsValid(t) && Backed(t)
  {
    forall k <- t.calls ensures CallValid(t, k, t.calls[k]) {
      assert CallValid(s, k, s.calls[k]);
    }
    forall b: AssetId | t.MarketIssued(b) && !t.Settled(b) ensures DebtGap(t, b) == 0 {
      assert b != a && DebtGap(s, b) == 0;
    }
  }
}
