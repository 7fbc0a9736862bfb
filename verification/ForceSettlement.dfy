/** Serving settlement requests: the second part of clear_expired_orders in
    db_update.cpp, and database::match for a position and a settlement order. */
module ForceSettlement {
  import opened Options
  import opened Prices
  import opened Sums
  import opened MarginCall
  import opened MarketState
  import opened MarketDatabase
  import opened OrderBook
  import opened Trades
  import opened Positions
  import opened Matching
  import opened Orders
  import opened GlobalSettlement
  import opened MarketInvariant
  import opened MarginCalls
  import opened MarketOperations
  import opened Settlements

  // ------------------------------------------------------------------
  // Amounts

  /// What a position pays, what it is relieved of, and whether the request's rest is
  /// dust.  `Small` when the amount at hand is worth nothing and the position is larger.
  datatype Settling = Small | Settling(pays: nat, receives: nat, cull: bool)

  /// A request for `balance`, of which `room` may still be settled, meets a position of
  /// `debt`, at `q` units of collateral for `b` units of debt.
  function SettleTrade(balance: nat, room: nat, debt: nat, q: nat, b: nat): Settling
    requires q > 0 && b > 0
  {
    var receives := Min(Min(balance, room), debt);
    var pays := FloorMul(receives, q, b);
    if pays == 0 then
      if receives == debt then Settling(1, receives, false) else Small
    else if receives == debt then Settling(CeilMul(receives, q, b), receives, false)
    else
      var least := CeilMul(pays, b, q);
      Settling(pays, least, receives == balance && least != balance)
  }

  /// In plain amounts: of the least of request, room and debt, a position that stays open
  /// pays all the collateral it is worth and is relieved of no more debt than that buys; a
  /// position that is closed pays the least worth its debt.  What is left of a request that
  /// would be served whole, or that is worth nothing, is given back.
  predicate FairSettlement(balance: nat, room: nat, debt: nat, q: nat, b: nat, pays: nat, receives: nat, back: nat) {
    if debt <= balance && debt <= room then
      receives == debt && (pays - 1) * b < debt * q <= pays * b && back == 0
    else
      var least := if balance <= room then balance else room;
      if least * q < b then
        pays == 0 && receives == 0 && back == if balance <= room then balance else 0
      else
        && pays * b <= least * q < (pays + 1) * b && (receives - 1) * q < pays * b <= receives * q
        && back == if balance <= room && receives <= balance then balance - receives else 0
  }

  /** The settlement is fair at exactly this price. */
  lemma SettleTradeIsFair(balance: nat, room: nat, debt: nat, q: nat, b: nat)
    requires q > 0 && b > 0 && balance > 0 && room > 0 && debt > 0
    ensures match SettleTrade(balance, room, debt, q, b)
            case Small => FairSettlement(balance, room, debt, q, b, 0, 0, if balance <= room then balance else 0)
            case Settling(pays, receives, cull) =>
              && receives <= balance
              && FairSettlement(balance, room, debt, q, b, pays, receives, if cull then balance - receives else 0)
  {
    hide FloorMul;
    hide CeilMul;
    SettleTradeBounds(balance, room, debt, q, b);
    if debt <= balance && debt <= room {
      LeastWorth(debt, q, b);
    } else {
      MostWorth(if balance <= room then balance else room, q, b);
    }
  }

  lemma LeastWorth(debt: nat, q: nat, b: nat)
    requires q > 0 && b > 0 && debt > 0
    ensures (CeilMul(debt, q, b) - 1) * b < debt * q <= CeilMul(debt, q, b) * b
    ensures FloorMul(debt, q, b) == 0 ==> CeilMul(debt, q, b) == 1
  {
    hide FloorMul;
    hide CeilMul;
    var least := CeilMul(debt, q, b);
    CeilBounds(debt, q, b);
    FloorIsGreatest(debt, q, b, 1);
    CeilIsLeast(debt, q, b, 1);
    assert (least - 1) * b == least * b - b;
  }

  lemma MostWorth(r0: nat, q: nat, b: nat)
    requires q > 0 && b > 0
    ensures var p0 := FloorMul(r0, q, b);
      && (p0 == 0 <==> r0 * q < b) && p0 * b <= r0 * q < (p0 + 1) * b
      && (CeilMul(p0, b, q) - 1) * q < p0 * b <= CeilMul(p0, b, q) * q
  {
    hide FloorMul;
    hide CeilMul;
    var p0 := FloorMul(r0, q, b);
    var least := CeilMul(p0, b, q);
    FloorIsGreatest(r0, q, b, 1);
    FloorBounds(r0, q, b);
    CeilBounds(p0, b, q);
    assert (p0 + 1) * b == p0 * b + b && (least - 1) * q == least * q - q;
  }

  /** A settlement stays within what is asked, allowed and owed.  A position that is
      closed pays the least amount worth its debt, any other no more than its relief is
      worth. */
  lemma SettleTradeBounds(balance: nat, room: nat, debt: nat, q: nat, b: nat)
    requires q > 0 && b > 0 && balance > 0 && room > 0 && debt > 0
    ensures match SettleTrade(balance, room, debt, q, b)
            case Small => FloorMul(Min(balance, room), q, b) == 0 && Min(balance, room) < debt
            case Settling(pays, receives, cull) =>
              && 0 < receives <= balance && receives <= room && receives <= debt && pays > 0
              && (if receives == debt then pays == CeilMul(debt, q, b) else pays * b <= receives * q)
              && pays <= CeilMul(debt, q, b)
              && (cull ==> receives < balance)
  {
    hide FloorMul;
    hide CeilMul;
    var r0 := Min(Min(balance, room), debt);
    var p0 := FloorMul(r0, q, b);
    CeilBounds(debt, q, b);
    if p0 == 0 {
      if r0 == debt {
        FloorIsGreatest(debt, q, b, 1);
        CeilIsLeast(debt, q, b, 1);
      }
    } else if r0 < debt {
      SmallerSideIsFilled(r0, q, b);
      CeilIsLeast(debt, q, b, p0 - 1);
      FloorBounds(r0, q, b);
      ProductMonotone(r0, debt, q);
      assert (p0 - 1) * b == p0 * b - b;
    }
  }

  /// The price requests are served at: the feed's, moved in the holder's disfavour by
  /// the offset.
  function FillPrice(feed: Feed, offset: nat): (r: Price)
    requires feed.price.Valid() && offset < HUNDRED_PERCENT
    ensures r.Valid() && r.base.id == feed.price.base.id && r.quote.id == feed.price.quote.id
  {
    Scale(feed.price, HUNDRED_PERCENT, HUNDRED_PERCENT - offset)
  }

  /** In plain amounts, where it is not approximated: so much per cent less collateral than the
      feed gives.  Approximated or not, it never gives more. */
  lemma FillPriceMeans(feed: Feed, offset: nat)
    requires feed.price.Valid() && offset < HUNDRED_PERCENT
    ensures ScalesExactly(feed.price, HUNDRED_PERCENT, HUNDRED_PERCENT - offset) ==>
      FillPrice(feed, offset).base.amount * (feed.price.quote.amount * (HUNDRED_PERCENT - offset))
      == (feed.price.base.amount * HUNDRED_PERCENT) * FillPrice(feed, offset).quote.amount
    ensures !Less(FillPrice(feed, offset), feed.price)
  {
    hide Scale;
    ScaleDirection(feed.price, HUNDRED_PERCENT, HUNDRED_PERCENT - offset);
    if ScalesExactly(feed.price, HUNDRED_PERCENT, HUNDRED_PERCENT - offset) {
      ScaleExact(feed.price, HUNDRED_PERCENT, HUNDRED_PERCENT - offset);
    }
  }

  /// The collateral is worth the debt at the price.
  predicate Covers(c: CallOrder, p: Price) {
    c.debt.amount * p.quote.amount <= c.collateral.amount * p.base.amount
  }

  /** A position that covers its debt can pay for any settlement, and still covers what
      is left of it. */
  lemma CoveringPays(c: CallOrder, p: Price, pays: nat, receives: nat)
    requires p.Valid() && Covers(c, p) && receives <= c.debt.amount
    requires pays <= CeilMul(c.debt.amount, p.quote.amount, p.base.amount)
    ensures pays <= c.collateral.amount
    ensures receives < c.debt.amount && pays * p.base.amount <= receives * p.quote.amount ==> Covers(Covered(c, pays, receives), p)
  {
    CeilIsLeast(c.debt.amount, p.quote.amount, p.base.amount, c.collateral.amount);
    var d, k := c.debt.amount - receives, c.collateral.amount - pays;
    assert d * p.quote.amount == c.debt.amount * p.quote.amount - receives * p.quote.amount;
    assert k * p.base.amount == c.collateral.amount * p.base.amount - pays * p.base.amount;
  }

  /** Settlement at or below the feed's price improves a position that is above the
      maintenance ratio. */
  lemma SettledStaysAbove(feed: Feed, offset: nat, c: CallOrder, pays: nat, receives: nat)
    requires feed.Valid(c.debt.id, c.collateral.id) && offset < HUNDRED_PERCENT && !Called(feed, c)
    requires 0 < receives < c.debt.amount && pays <= c.collateral.amount
    requires pays * FillPrice(feed, offset).base.amount <= receives * FillPrice(feed, offset).quote.amount
    ensures !Called(feed, Covered(c, pays, receives))
  {
    var f, m := FillPrice(feed, offset), feed.Maintenance();
    var fb, fq := feed.price.base.amount, feed.price.quote.amount;
    ScaleDirection(feed.price, HUNDRED_PERCENT, HUNDRED_PERCENT - offset);
    ScaleDirection(feed.price.Inverse(), feed.mcr, RATIO_DENOM);
    FractionsTransitive(pays, receives, f.quote.amount, f.base.amount, fq, fb);
    FractionsTransitive(pays, receives, fq, fb, m.base.amount, m.quote.amount);
    RestAbove(c.debt.amount, c.collateral.amount, m.base.amount, m.quote.amount, receives, pays);
  }

  lemma RestAbove(debt: nat, collateral: nat, mb: nat, mq: nat, receives: nat, pays: nat)
    requires receives <= debt && pays <= collateral && debt * mb < mq * collateral && pays * mq <= mb * receives
    ensures (debt - receives) * mb < mq * (collateral - pays)
  {
    assert (debt - receives) * mb == debt * mb - receives * mb;
    assert mq * (collateral - pays) == mq * collateral - mq * pays;
    assert mq * pays == pays * mq && mb * receives == receives * mb;
  }

  // ------------------------------------------------------------------
  // One settlement

  /// Requests were only served, in part or in full, or given back.
  ghost predicate SettlesShrink(m: map<nat, SettleOrder>, n: map<nat, SettleOrder>, a: AssetId) {
    && n.Keys <= m.Keys
    && (forall i <- n :: n[i] == m[i].(balance := n[i].balance) && n[i].balance.id == m[i].balance.id && n[i].balance.amount <= m[i].balance.amount)
    && (forall i <- m :: m[i].balance.id != a ==> i in n && n[i] == m[i])
  }

  /// Requests and positions of `a` shrink together with its supply.
  ghost predicate Serving(s: State, t: State, a: AssetId) {
    && Burns(s, t, a) && CallsShrink(s.calls, t.calls, a) && SettlesShrink(s.settles, t.settles, a)
    && t.limits == s.limits && t.bids == s.bids && t.nextId == s.nextId && t.revived == s.revived
    && SameGaps(s, t) && SameDebtGaps(s, t)
  }

  lemma ServingTransitive(s: State, t: State, u: State, a: AssetId)
    requires Serving(s, t, a) && Serving(t, u, a)
    ensures Serving(s, u, a)
  {
    hide Gap;
    hide DebtGap;
    BurnsTransitive(s, t, u, a);
    CallsShrinkTransitive(s.calls, t.calls, u.calls, a);
  }

  lemma ServingReflexive(s: State, a: AssetId)
    ensures Serving(s, s, a)
  {
  }

  lemma RequestReturned(s: State, t: State, i: nat)
    requires i in s.settles && MoneyOnly(s, t) && Moves(s, t, s.settles[i].balance.id, s.settles[i].balance.amount)
    ensures SameGaps(s, t.(settles := t.settles - {i}))
  {
    hide Gap;
    forall x: AssetId {
      SettleGap(t, i, t.settles[i], x);
    }
  }

  /// cancel_settle_order
  method CancelSettleOrder(db: Database, id: nat)
    requires id in db.s.settles
    modifies db
    ensures SameCore(old(db.s), db.s) && Serving(old(db.s), db.s, old(db.s).settles[id].balance.id)
    ensures db.s.calls == old(db.s).calls && db.s.settles == old(db.s).settles - {id}
    ensures var o := old(db.s).settles[id];
      db.s.balances == Adjusted(old(db.s).balances, o.owner, o.balance.id, o.balance.amount)
  {
    hide Gap;
    hide DebtGap;
    hide SameCore;
    hide Burns;
    hide Adjusted;
    ghost var s := db.s;
    var o := db.s.settles[id];
    var ok := db.AdjustBalance(o.owner, o.balance.id, o.balance.amount);
    ghost var t := db.s;
    RequestReturned(s, t, id);
    db.s := db.s.(settles := db.s.settles - {id});
    SameCoreTransitive(s, t, db.s);
    CoreBurnsNothing(s, db.s, o.balance.id);
    SameDebts(s, db.s);
  }

  function Request(m: map<nat, SettleOrder>, id: nat, pays: nat): map<nat, SettleOrder>
    requires id in m && pays <= m[id].balance.amount
  {
    if pays == m[id].balance.amount then m - {id}
    else m[id := m[id].(balance := m[id].balance.(amount := m[id].balance.amount - pays))]
  }

  lemma RequestMoves(s: State, id: nat, pays: nat)
    requires id in s.settles && pays <= s.settles[id].balance.amount
    ensures Moves(s, s.(settles := Request(s.settles, id, pays)), s.settles[id].balance.id, 0 - pays)
  {
    hide Gap;
    var t := s.(settles := Request(s.settles, id, pays));
    var o := s.settles[id];
    forall x: AssetId ensures Gap(t, x) == Gap(s, x) + if x == o.balance.id then 0 - pays else 0 {
      SettleGap(s, id, o.(balance := o.balance.(amount := o.balance.amount - pays)), x);
    }
  }

  /// fill_settle_order
  method FillSettleOrder(db: Database, id: nat, pays: nat, receives: Asset) returns (ok: bool)
    requires id in db.s.settles && pays <= db.s.settles[id].balance.amount && receives.id in db.s.assets
    modifies db
    ensures ok <==> MarketFee(old(db.s).assets[receives.id], receives.amount) <= receives.amount
    ensures ok ==>
      var o := old(db.s).settles[id];
      && SameCore(old(db.s), db.s)
      && db.s.settles == Request(old(db.s).settles, id, pays)
      && db.s.limits == old(db.s).limits && db.s.calls == old(db.s).calls && db.s.bids == old(db.s).bids
      && db.s.nextId == old(db.s).nextId && db.s.revived == old(db.s).revived
      && Moves2(old(db.s), db.s, o.balance.id, 0 - pays, receives.id, receives.amount)
      && db.s.balances == Adjusted(old(db.s).balances, o.owner, receives.id,
                                   receives.amount - MarketFee(old(db.s).assets[receives.id], receives.amount))
  {
    hide Gap;
    hide SameCore;
    hide MarketFee;
    hide Adjusted;
    ghost var s := db.s;
    var o := db.s.settles[id];
    var fee;
    ok, fee := db.PayIssuerFees(receives.id, receives.amount);
    if !ok {
      return;
    }
    ghost var s1 := db.s;
    RequestMoves(db.s, id, pays);
    db.s := db.s.(settles := Request(db.s.settles, id, pays));
    ghost var s2 := db.s;
    SameCoreTransitive(s, s1, s2);
    ok := db.AdjustBalance(o.owner, receives.id, receives.amount - fee);
    SameCoreTransitive(s, s2, db.s);
  }

  lemma FeePayable(d: AssetData, amount: nat)
    requires d.feePercent <= HUNDRED_PERCENT
    ensures MarketFee(d, amount) <= amount
  {
    FloorIsGreatest(amount, d.feePercent, HUNDRED_PERCENT, Percent(amount, d.feePercent));
    ProductMonotone(d.feePercent, HUNDRED_PERCENT, amount);
    if amount < Percent(amount, d.feePercent) {
      ProductLess(amount, Percent(amount, d.feePercent), HUNDRED_PERCENT);
      assert false;
    }
  }

  lemma PositionFacts(s: State, key: (Account, AssetId))
    requires Inv(s) && key in s.calls
    ensures var c := s.calls[key];
      && CallValid(s, key, c) && c.debt.amount <= s.Supply(key.1) && c.collateral.id in s.assets
      && forall x :: MarketFee(s.assets[c.collateral.id], x) <= x
  {
    hide AllMet;
    hide BookSound;
    hide Conserved;
    DebtWithinSupply(s, key);
    assert CallValid(s, key, s.calls[key]) && AssetValid(key.1, s.assets[key.1], s.assets.Keys);
    var b := s.calls[key].collateral.id;
    assert AssetValid(b, s.assets[b], s.assets.Keys);
    forall x ensures MarketFee(s.assets[b], x) <= x {
      FeePayable(s.assets[b], x);
    }
  }

  function TradeFor(s: State, id: nat, key: (Account, AssetId), fill: Price, room: nat): Settling
    requires id in s.settles && key in s.calls && fill.Valid()
  {
    SettleTrade(s.settles[id].balance.amount, room, s.calls[key].debt.amount, fill.quote.amount, fill.base.amount)
  }

  /// Balances after a settlement: the owner of the request has the collateral less the fee,
  /// and what is given back of the request; the borrower of a closed position the rest.
  ghost predicate SettledMoney(s: State, t: State, id: nat, key: (Account, AssetId), pays: nat, receives: nat, back: nat)
    requires id in s.settles && key in s.calls && s.calls[key].collateral.id in s.assets
  {
    var c, o := s.calls[key], s.settles[id];
    var fee := MarketFee(s.assets[c.collateral.id], pays);
    forall w: Account, x: AssetId ::
      t.Balance(w, x) == s.Balance(w, x)
      + (if w == c.borrower && x == c.collateral.id && receives == c.debt.amount then c.collateral.amount - pays else 0)
      + (if w == o.owner && x == c.collateral.id then pays - fee else 0)
      + (if w == o.owner && x == o.balance.id then back else 0)
  }

  lemma OnlyReturned(s: State, t: State, id: nat, key: (Account, AssetId), back: nat)
    requires id in s.settles && key in s.calls && s.calls[key].collateral.id in s.assets && s.calls[key].debt.amount > 0
    requires t.balances == Adjusted(s.balances, s.settles[id].owner, s.settles[id].balance.id, back)
    ensures SettledMoney(s, t, id, key, 0, 0, back)
  {
    assert MarketFee(s.assets[s.calls[key].collateral.id], 0) == 0;
  }

  lemma NothingReturned(s: State, id: nat, key: (Account, AssetId))
    requires id in s.settles && key in s.calls && s.calls[key].collateral.id in s.assets && s.calls[key].debt.amount > 0
    ensures SettledMoney(s, s, id, key, 0, 0, 0)
  {
    OnlyReturned(s, s, id, key, 0);
  }

  lemma MoneySettled(s: State, t: State, u: State, id: nat, key: (Account, AssetId), pays: nat, receives: nat)
    requires id in s.settles && key in s.calls && s.calls[key].collateral.id in s.assets && pays <= s.calls[key].collateral.amount
    requires var c := s.calls[key];
      t.balances == Adjusted(s.balances, c.borrower, c.collateral.id, if receives == c.debt.amount then c.collateral.amount - pays else 0)
    requires MarketFee(s.assets[s.calls[key].collateral.id], pays) <= pays
    requires u.balances == Adjusted(t.balances, s.settles[id].owner, s.calls[key].collateral.id,
                                    pays - MarketFee(s.assets[s.calls[key].collateral.id], pays))
    ensures SettledMoney(s, u, id, key, pays, receives, 0)
  {
    hide MarketFee;
  }

  lemma RestGivenBack(s: State, t: State, u: State, id: nat, key: (Account, AssetId), pays: nat, receives: nat, back: nat)
    requires id in s.settles && key in s.calls && s.calls[key].collateral.id in s.assets
    requires SettledMoney(s, t, id, key, pays, receives, 0)
    requires u.balances == Adjusted(t.balances, s.settles[id].owner, s.settles[id].balance.id, back)
    ensures SettledMoney(s, u, id, key, pays, receives, back)
  {
    hide MarketFee;
  }

  /// The request and the position after a settlement.  A request too small to be worth
  /// anything is given back, unless it is only the room that is too small.
  ghost predicate SettledWith(s: State, t: State, id: nat, key: (Account, AssetId), room: nat, trade: Settling)
    requires id in s.settles && key in s.calls && s.calls[key].debt.id in s.assets && s.calls[key].collateral.id in s.assets
  {
    match trade
    case Small =>
      && t.calls == s.calls && t.Supply(key.1) == s.Supply(key.1)
      && t.settles == (if s.settles[id].balance.amount <= room then s.settles - {id} else s.settles)
      && SettledMoney(s, t, id, key, 0, 0, if s.settles[id].balance.amount <= room then s.settles[id].balance.amount else 0)
    case Settling(pays, receives, cull) =>
      && receives <= s.settles[id].balance.amount && pays <= s.calls[key].collateral.amount
      && receives <= s.calls[key].debt.amount && receives <= s.Supply(s.calls[key].debt.id)
      && t.calls == CallFilled(s, key, pays, receives).calls && t.Supply(key.1) == s.Supply(key.1) - receives
      && t.settles == (if cull then s.settles - {id} else Request(s.settles, id, receives))
      && SettledMoney(s, t, id, key, pays, receives, if cull then s.settles[id].balance.amount - receives else 0)
  }

  /// The position and the request after an exchange of `pays` for `receives`, with `back`
  /// given back of the request, and what everyone has then.
  ghost predicate SettledAmounts(s: State, t: State, id: nat, key: (Account, AssetId), pays: nat, receives: nat, back: nat)
    requires id in s.settles && key in s.calls && s.calls[key].collateral.id in s.assets
  {
    var c, o := s.calls[key], s.settles[id];
    && pays <= c.collateral.amount && receives <= c.debt.amount && receives + back <= o.balance.amount
    && (key in t.calls <==> receives < c.debt.amount)
    && (key in t.calls ==> t.calls[key].debt.amount == c.debt.amount - receives && t.calls[key].collateral.amount == c.collateral.amount - pays)
    && (id in t.settles <==> receives + back < o.balance.amount)
    && (id in t.settles ==> t.settles[id].balance.amount == o.balance.amount - receives - back)
    && SettledMoney(s, t, id, key, pays, receives, back)
  }

  /// The two exchanged amounts that are fair at the price.
  ghost predicate SettledFairly(s: State, t: State, id: nat, key: (Account, AssetId), fill: Price, room: nat)
    requires id in s.settles && key in s.calls && s.calls[key].collateral.id in s.assets
  {
    exists pays, receives, back ::
      && FairSettlement(s.settles[id].balance.amount, room, s.calls[key].debt.amount, fill.quote.amount, fill.base.amount, pays, receives, back)
      && SettledAmounts(s, t, id, key, pays, receives, back)
  }

  lemma SettledIsFair(s: State, t: State, id: nat, key: (Account, AssetId), fill: Price, room: nat)
    requires id in s.settles && key in s.calls && s.calls[key].debt.id in s.assets && s.calls[key].collateral.id in s.assets
    requires fill.Valid() && room > 0 && s.settles[id].balance.amount > 0 && s.calls[key].debt.amount > 0
    requires SettledWith(s, t, id, key, room, TradeFor(s, id, key, fill, room))
    ensures SettledFairly(s, t, id, key, fill, room)
  {
    hide SettleTrade;
    hide FairSettlement;
    hide SettledMoney;
    var balance, debt, q, b := s.settles[id].balance.amount, s.calls[key].debt.amount, fill.quote.amount, fill.base.amount;
    SettleTradeIsFair(balance, room, debt, q, b);
    SettleTradeBounds(balance, room, debt, q, b);
    match TradeFor(s, id, key, fill, room)
    case Small =>
      assert SettledAmounts(s, t, id, key, 0, 0, if balance <= room then balance else 0);
    case Settling(pays, receives, cull) =>
      assert SettledAmounts(s, t, id, key, pays, receives, if cull then balance - receives else 0);
  }

  /// The two fills of a settlement.
  method FillSettlement(db: Database, id: nat, key: (Account, AssetId), pays: nat, receives: nat) returns (ok: bool)
    requires Inv(db.s) && id in db.s.settles && key in db.s.calls && db.s.settles[id].balance.id == key.1
    requires receives <= db.s.settles[id].balance.amount && receives <= db.s.calls[key].debt.amount
    modifies db
    ensures ok <==> pays <= old(db.s).calls[key].collateral.amount
    ensures ok ==> old(db.s).calls[key].debt.id in old(db.s).assets && old(db.s).calls[key].collateral.id in old(db.s).assets
    ensures ok ==> SettledWith(old(db.s), db.s, id, key, 0, Settling(pays, receives, false)) && Serving(old(db.s), db.s, key.1)
  {
    hide Gap;
    hide DebtGap;
    hide SameCore;
    hide Inv;
    hide MarketFee;
    hide Adjusted;
    hide Burns;
    hide CallsShrink;
    hide CallValid;
    hide SettledMoney;
    ghost var s := db.s;
    PositionFacts(s, key);
    KeyFacts(s, key);
    var backing := db.s.calls[key].collateral.id;
    var r := db.FillCallOrder(key, pays, receives);
    if r.Failed? {
      return false;
    }
    ghost var t := db.s;
    CallFilledShrinks(s, key, pays, receives);
    SupplyBurns(s, t, key.1, receives);
    ok := FillSettleOrder(db, id, receives, Asset(pays, backing));
    MoneySettled(s, t, db.s, id, key, pays, receives);
    CoreBurnsNothing(t, db.s, key.1);
    BurnsTransitive(s, t, db.s, key.1);
    SameDebts(t, db.s);
  }

  lemma KeyFacts(s: State, key: (Account, AssetId))
    requires key in s.calls && CallValid(s, key, s.calls[key])
    ensures s.calls[key].debt.id == key.1 && key.1 in s.assets && s.calls[key].collateral.id != key.1
    ensures s.MarketIssued(key.1) && !s.Settled(key.1) && s.calls[key].collateral.id == BackingOf(s, key.1)
    ensures s.calls[key].debt.amount > 0
  {
  }

  lemma FilledMore(s: State, t: State, u: State, id: nat, key: (Account, AssetId), pays: nat, receives: nat, room: nat)
    requires id in s.settles && key in s.calls && s.calls[key].debt.id == key.1 && key.1 in s.assets
    requires s.calls[key].collateral.id in s.assets
    requires SettledWith(s, t, id, key, 0, Settling(pays, receives, false)) && receives < s.settles[id].balance.amount
    requires u.calls == t.calls && u.Supply(key.1) == t.Supply(key.1) && u.settles == t.settles - {id}
    requires u.balances == Adjusted(t.balances, s.settles[id].owner, s.settles[id].balance.id, s.settles[id].balance.amount - receives)
    ensures SettledWith(s, u, id, key, room, Settling(pays, receives, true))
  {
    hide SettledMoney;
    hide Adjusted;
    assert u.settles == s.settles - {id};
    RestGivenBack(s, t, u, id, key, pays, receives, s.settles[id].balance.amount - receives);
  }

  /// database::match for a position and a settlement order.
  method MatchSettle(db: Database, id: nat, key: (Account, AssetId), fill: Price, room: nat) returns (ok: bool, settled: nat)
    requires Inv(db.s) && id in db.s.settles && key in db.s.calls && db.s.settles[id].balance.id == key.1
    requires fill.Valid() && room > 0 && db.s.settles[id].balance.amount > 0
    modifies db
    ensures var trade := TradeFor(old(db.s), id, key, fill, room);
      && (ok <==> old(db.s).calls[key].collateral.amount > 0
                  && (trade.Small? || trade.pays <= old(db.s).calls[key].collateral.amount))
      && settled == (if ok && trade.Settling? then trade.receives else 0)
      && (trade.Small? && old(db.s).settles[id].balance.amount > room ==> db.s == old(db.s))
    ensures ok ==>
      && old(db.s).calls[key].debt.id in old(db.s).assets && old(db.s).calls[key].collateral.id in old(db.s).assets
      && SettledWith(old(db.s), db.s, id, key, room, TradeFor(old(db.s), id, key, fill, room))
      && SettledFairly(old(db.s), db.s, id, key, fill, room)
      && Serving(old(db.s), db.s, key.1)
  {
    hide Gap;
    hide DebtGap;
    hide SameCore;
    hide Inv;
    hide Adjusted;
    hide Serving;
    hide CallValid;
    hide SettleTrade;
    hide SettledMoney;
    hide SettledFairly;
    ghost var s := db.s;
    var balance, debt := db.s.settles[id].balance.amount, db.s.calls[key].debt.amount;
    PositionFacts(s, key);
    KeyFacts(s, key);
    SettleTradeBounds(balance, room, debt, fill.quote.amount, fill.base.amount);
    var trade := TradeFor(db.s, id, key, fill, room);
    ServingReflexive(s, key.1);
    if db.s.calls[key].collateral.amount == 0 {
      return false, 0;
    }
    if trade.Small? {
      if balance <= room {
        CancelSettleOrder(db, id);
        CoreBurnsNothing(s, db.s, key.1);
        OnlyReturned(s, db.s, id, key, balance);
      } else {
        NothingReturned(s, id, key);
      }
      SettledIsFair(s, db.s, id, key, fill, room);
      return true, 0;
    }
    ok := FillSettlement(db, id, key, trade.pays, trade.receives);
    if !ok {
      return false, 0;
    }
    ghost var t := db.s;
    if trade.cull {
      CancelSettleOrder(db, id);
      CoreBurnsNothing(t, db.s, key.1);
      FilledMore(s, t, db.s, id, key, trade.pays, trade.receives, room);
      ServingTransitive(s, t, db.s, key.1);
    }
    SettledIsFair(s, db.s, id, key, fill, room);
    return true, trade.receives;
  }
}
