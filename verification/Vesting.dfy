/** Coin-day vesting: cdd_vesting_policy and vesting_balance_object in
    vesting_balance_object.cpp, with deposit_lazy_vesting from db_balance.cpp. */
module Vesting {
  import opened Prices

  /// The largest value of the 64-bit product in which vested deposits are counted.
  const MAX_PRODUCT: nat := 0x7FFF_FFFF_FFFF_FFFF

  /// A balance that vests in coin-seconds: `earned` of them up to time `updated`.
  datatype Coins = Coins(balance: nat, earned: nat, updated: nat, vestingSeconds: nat, startClaim: nat) {
    function Period(): (r: nat)
      ensures r > 0
    {
      Max(vestingSeconds, 1)
    }

    predicate Valid() { earned <= balance * Period() }

    /// compute_coin_seconds_earned
    function Accrued(now: nat): nat
      requires now >= updated
    {
      Min(earned + balance * (now - updated), balance * Period())
    }

    /// update_coin_seconds_earned
    function At(now: nat): Coins
      requires now >= updated
    {
      this.(earned := Accrued(now), updated := now)
    }

    /// get_allowed_withdraw
    function Allowed(now: nat): nat
      requires now >= updated
    {
      if now <= startClaim then 0 else Accrued(now) / Period()
    }

    function Deposited(now: nat, amount: nat): Coins
      requires now >= updated
    {
      At(now).(balance := balance + amount)
    }

    function DepositedVested(now: nat, amount: nat): Coins
      requires now >= updated
    {
      At(now).(balance := balance + amount, earned := At(now).earned + amount * Period())
    }

    /// on_withdraw; nothing happens when the coin-seconds do not suffice.
    function Withdrawn(now: nat, amount: nat): Coins
      requires now >= updated
    {
      if amount * Period() <= At(now).earned && amount <= balance
      then At(now).(balance := balance - amount, earned := At(now).earned - amount * Period())
      else this
    }
  }

  /** Accrual is lazy: updating on the way makes no difference. */
  lemma AccrualIsPathIndependent(c: Coins, t1: nat, t2: nat)
    requires c.updated <= t1 <= t2
    ensures c.At(t1).At(t2) == c.At(t2)
  {
    SplitProduct(c.balance, t1 - c.updated, t2 - t1);
    CappedTwice(c.earned, c.balance * (t1 - c.updated), c.balance * (t2 - t1), c.balance * c.Period());
  }

  lemma SplitProduct(b: nat, x: nat, y: nat)
    ensures b * (x + y) == b * x + b * y
  {
  }

  lemma CappedTwice(e: nat, x: nat, y: nat, cap: nat)
    ensures Min(Min(e + x, cap) + y, cap) == Min(e + (x + y), cap)
  {
  }

  /** What may be withdrawn is at most the balance, and paid for in coin-seconds. */
  lemma AllowedIsCovered(c: Coins, now: nat, amount: nat)
    requires now >= c.updated && amount <= c.Allowed(now)
    ensures amount <= c.balance && amount * c.Period() <= c.At(now).earned
  {
    var p := c.Period();
    if amount > 0 {
      DivisionBounds(c.Accrued(now), p);
      ProductMonotone(amount, c.Allowed(now), p);
      if c.balance < amount {
        ProductLess(c.balance, amount, p);
        assert false;
      }
    }
  }

  /** And not before: of a balance that has earned nothing, less than its period frees less. */
  lemma NotFullyVested(c: Coins, now: nat)
    requires c.earned == 0 && c.balance > 0 && c.updated <= now < c.updated + c.vestingSeconds
    ensures c.Allowed(now) < c.balance
  {
    var p, gap := c.Period(), now - c.updated;
    ProductLess(gap, p, c.balance);
    assert gap * c.balance == c.balance * gap && p * c.balance == c.balance * p;
    DivisionBounds(c.Accrued(now), p);
    if c.balance <= c.Allowed(now) { ProductMonotone(c.balance, c.Allowed(now), p); }
  }

  /** Nothing may be withdrawn until claims begin; from then on the greatest amount that has
      been held for its period. */
  lemma AllowedIsGreatest(c: Coins, now: nat, amount: nat)
    requires now >= c.updated
    ensures now <= c.startClaim ==> c.Allowed(now) == 0
    ensures now > c.startClaim ==> (amount <= c.Allowed(now) <==> amount * c.Period() <= c.Accrued(now))
  {
    hide Coins.Accrued;
    DivisionBounds(c.Accrued(now), c.Period());
    var q := c.Accrued(now) / c.Period();
    if amount <= q { ProductMonotone(amount, q, c.Period()); } else { ProductLess(q, amount, c.Period()); }
  }

  /** A balance left alone for its whole period is free. */
  lemma FullyVested(c: Coins, now: nat)
    requires now > c.startClaim && now > c.updated && now >= c.updated + c.vestingSeconds
    ensures c.Allowed(now) == c.balance
  {
    var p := c.Period();
    ProductMonotone(p, now - c.updated, c.balance);
    assert c.Accrued(now) == c.balance * p;
    DivisionBounds(c.balance * p, p);
    ProductLess(c.Allowed(now), c.balance, p);
    ProductLess(c.balance, c.Allowed(now), p);
  }

  // ------------------------------------------------------------------
  // Runs

  datatype Action = Deposit(amount: nat) | DepositVested(amount: nat) | Withdraw(amount: nat)

  function Apply(c: Coins, now: nat, a: Action): (r: Coins)
    requires now >= c.updated
    ensures r.Period() == c.Period() && c.updated <= r.updated <= now
  {
    match a
    case Deposit(amount) => c.Deposited(now, amount)
    case DepositVested(amount) => c.DepositedVested(now, amount)
    case Withdraw(amount) => if amount <= c.Allowed(now) then c.Withdrawn(now, amount) else c
  }

  /// Actions at times that never go back.
  ghost predicate Ordered(c: Coins, acts: seq<(nat, Action)>) {
    && (forall i :: 0 <= i < |acts| ==> c.updated <= acts[i].0)
    && forall i, j :: 0 <= i < j < |acts| ==> acts[i].0 <= acts[j].0
  }

  ghost function Run(c: Coins, acts: seq<(nat, Action)>): (r: Coins)
    requires Ordered(c, acts)
    ensures r.Period() == c.Period() && r.updated <= if acts == [] then c.updated else acts[|acts| - 1].0
  {
    if acts == [] then c
    else
      var before := acts[..|acts| - 1];
      assert before != [] ==> before[|before| - 1] == acts[|acts| - 2];
      Apply(Run(c, before), acts[|acts| - 1].0, acts[|acts| - 1].1)
  }

  /** No action lets more coin-seconds be earned than the balance can hold. */
  lemma ApplyKeepsValid(c: Coins, now: nat, a: Action)
    requires c.Valid() && now >= c.updated
    ensures Apply(c, now, a).Valid()
  {
    match a
    case Deposit(amount) => AddPeriods(c.balance, amount, c.Period());
    case DepositVested(amount) => AddPeriods(c.balance, amount, c.Period());
    case Withdraw(amount) =>
      if amount <= c.Allowed(now) {
        AllowedIsCovered(c, now, amount);
        AddPeriods(c.balance - amount, amount, c.Period());
      }
  }

  lemma AddPeriods(x: nat, y: nat, p: nat)
    ensures (x + y) * p == x * p + y * p && x * p >= 0 && y * p >= 0
  {
  }

  /** Over every run the coin-seconds stay within the balance times the period, so no
      withdrawal that is allowed exceeds the balance. */
  lemma {:induction false} RunKeepsValid(c: Coins, acts: seq<(nat, Action)>)
    requires c.Valid() && Ordered(c, acts)
    ensures Run(c, acts).Valid()
  {
    if acts != [] {
      RunKeepsValid(c, acts[..|acts| - 1]);
      ApplyKeepsValid(Run(c, acts[..|acts| - 1]), acts[|acts| - 1].0, acts[|acts| - 1].1);
    }
  }

  /// What an action takes out.
  function Out(c: Coins, now: nat, a: Action): nat
    requires now >= c.updated
  {
    if a.Withdraw? && a.amount <= c.Allowed(now) then a.amount else 0
  }

  /// What it puts in already vested.
  function VestedIn(a: Action): nat {
    if a.DepositVested? then a.amount else 0
  }

  /** Accrual is steady: the balance times the time that passes, until all is vested. */
  lemma AccruesSteadily(c: Coins, t1: nat, t2: nat)
    requires c.updated <= t1 <= t2
    ensures c.Accrued(t2) <= c.Accrued(t1) + c.balance * (t2 - t1) && c.Accrued(t2) <= c.balance * c.Period()
    ensures c.Accrued(t2) == c.Accrued(t1) + c.balance * (t2 - t1) || c.Accrued(t2) == c.balance * c.Period()
  {
    AccrualIsPathIndependent(c, t1, t2);
    assert c.At(t1).At(t2).earned == c.At(t2).earned;
  }

  /** An action adds to what has accrued by then only what it brings already vested, and
      takes off what it pays out. */
  lemma OneAction(c: Coins, now: nat, a: Action)
    requires c.Valid() && now >= c.updated
    ensures Apply(c, now, a).Accrued(now) + Out(c, now, a) * c.Period() == c.Accrued(now) + VestedIn(a) * c.Period()
  {
    var p := c.Period();
    assert Apply(c, now, a).balance * (now - now) == 0;
    match a
    case Deposit(amount) => AddPeriods(c.balance, amount, p);
    case DepositVested(amount) => AddPeriods(c.balance, amount, p);
    case Withdraw(amount) =>
      if amount <= c.Allowed(now) {
        AllowedIsCovered(c, now, amount);
        AddPeriods(c.balance - amount, amount, p);
      }
  }

  /** A deposit frees nothing at once; what is deposited vested is free at once; what is
      withdrawn is no longer. */
  lemma AllowedAfter(c: Coins, now: nat, a: Action)
    requires c.Valid() && now >= c.updated && now > c.startClaim
    ensures Apply(c, now, a).Allowed(now) + Out(c, now, a) == c.Allowed(now) + VestedIn(a)
  {
    hide Coins.Accrued;
    hide Out;
    hide VestedIn;
    var p, d := c.Period(), Apply(c, now, a);
    OneAction(c, now, a);
    QuotientPlus(d.Accrued(now), Out(c, now, a), p);
    QuotientPlus(c.Accrued(now), VestedIn(a), p);
    AppliedStart(c, now, a);
  }

  lemma AppliedStart(c: Coins, now: nat, a: Action)
    requires now >= c.updated
    ensures Apply(c, now, a).startClaim == c.startClaim
  {
  }

  lemma QuotientPlus(x: nat, k: nat, p: nat)
    requires p > 0
    ensures (x + k * p) / p == x / p + k
  {
    DivisionBounds(x, p);
    AddPeriods(x / p, k, p);
    QuotientIs(x + k * p, p, x / p + k);
  }

  lemma QuotientIs(x: nat, p: nat, q: nat)
    requires p > 0 && q * p <= x < q * p + p
    ensures x / p == q
  {
    DivisionBounds(x, p);
    ProductLess(q, x / p, p);
    ProductLess(x / p, q, p);
  }

  /// The amounts taken out in a run.
  ghost function TakenOut(c: Coins, acts: seq<(nat, Action)>): nat
    requires Ordered(c, acts)
  {
    if acts == [] then 0
    else
      var before := acts[..|acts| - 1];
      TakenOut(c, before) + Out(Run(c, before), acts[|acts| - 1].0, acts[|acts| - 1].1)
  }

  /// The amounts put in already vested.
  function PutInVested(acts: seq<(nat, Action)>): nat {
    if acts == [] then 0 else PutInVested(acts[..|acts| - 1]) + VestedIn(acts[|acts| - 1].1)
  }

  /// The amounts put in, vested or not.
  function PutIn(acts: seq<(nat, Action)>): nat {
    if acts == [] then 0
    else PutIn(acts[..|acts| - 1]) + if acts[|acts| - 1].1.Withdraw? then 0 else acts[|acts| - 1].1.amount
  }

  /// The time of the latest action.
  function Latest(c: Coins, acts: seq<(nat, Action)>): nat {
    if acts == [] then c.updated else acts[|acts| - 1].0
  }

  /** What is there and what was taken out is what was there and what was put in. */
  lemma {:induction false} NothingIsLost(c: Coins, acts: seq<(nat, Action)>)
    requires Ordered(c, acts) && c.Valid()
    ensures Run(c, acts).balance + TakenOut(c, acts) == c.balance + PutIn(acts)
  {
    if acts != [] {
      var before := acts[..|acts| - 1];
      NothingIsLost(c, before);
      RunKeepsValid(c, before);
      var d, now, a := Run(c, before), acts[|acts| - 1].0, acts[|acts| - 1].1;
      if a.Withdraw? && a.amount <= d.Allowed(now) { AllowedIsCovered(d, now, a.amount); }
    }
  }

  /// Balance times time, from each action to the next, added up over the run: the balance is
  /// what had been put in and not taken out by then.
  ghost function Held(c: Coins, acts: seq<(nat, Action)>): int
    requires Ordered(c, acts)
  {
    if acts == [] then 0
    else
      var before := acts[..|acts| - 1];
      Held(c, before) + (c.balance + PutIn(before) - TakenOut(c, before)) * (Latest(c, acts) - Latest(c, before))
  }

  /** Everything taken out has been held for its period: over every run, withdrawals
      times the period, and what may still be withdrawn, never exceed the coin-seconds held,
      plus what came in vested, plus what had been earned before. */
  lemma {:induction false} NothingUnvestedLeaves(c: Coins, acts: seq<(nat, Action)>)
    requires c.Valid() && Ordered(c, acts)
    ensures Run(c, acts).Accrued(Latest(c, acts)) + TakenOut(c, acts) * c.Period()
      <= c.earned + Held(c, acts) + PutInVested(acts) * c.Period()
  {
    hide Apply;
    hide Out;
    hide VestedIn;
    hide Coins.Accrued;
    if acts == [] {
      EarnedSoFar(c);
    } else {
      var before, now, a := acts[..|acts| - 1], acts[|acts| - 1].0, acts[|acts| - 1].1;
      var d := Run(c, before);
      NothingUnvestedLeaves(c, before);
      RunKeepsValid(c, before);
      NothingIsLost(c, before);
      AccruesSteadily(d, Latest(c, before), now);
      OneAction(d, now, a);
      AddPeriods(TakenOut(c, before), Out(d, now, a), c.Period());
      AddPeriods(PutInVested(before), VestedIn(a), c.Period());
    }
  }

  lemma EarnedSoFar(c: Coins)
    requires c.Valid()
    ensures c.Accrued(c.updated) == c.earned
  {
    assert c.balance * (c.updated - c.updated) == 0;
  }

  // ------------------------------------------------------------------
  // The object

  lemma StartsEarned(amount: nat, vestingSeconds: nat, requireVesting: bool, now: nat)
    ensures var c := Coins(amount, if requireVesting then 0 else amount * vestingSeconds, now, vestingSeconds, 0);
      c.Valid() && (now > 0 ==> c.Allowed(now) == if requireVesting || vestingSeconds == 0 then 0 else amount)
  {
    var c := Coins(amount, if requireVesting then 0 else amount * vestingSeconds, now, vestingSeconds, 0);
    var p := c.Period();
    assert amount * (now - now) == 0;
    if requireVesting || vestingSeconds == 0 {
      assert c.earned == 0 && c.Accrued(now) == 0;
      DivisionBounds(0, p);
    } else {
      assert c.Accrued(now) == amount * p;
      QuotientOfProduct(amount, p);
    }
  }

  lemma QuotientOfProduct(x: nat, p: nat)
    requires p > 0
    ensures x * p / p == x
  {
    DivisionBounds(x * p, p);
    ProductLess(x * p / p, x, p);
    ProductLess(x, x * p / p, p);
  }

  class VestingBalance {
    var coins: Coins

    /// What deposit_lazy_vesting creates; vested deposits start fully earned, in a credit
    /// that is multiplied out in 64 bits.
    constructor (amount: nat, vestingSeconds: nat, requireVesting: bool, now: nat)
      requires requireVesting || amount * vestingSeconds <= MAX_PRODUCT
      ensures coins.Valid() && coins.balance == amount && coins.updated == now
      ensures coins.vestingSeconds == vestingSeconds && coins.startClaim == 0
      ensures now > 0 ==> coins.Allowed(now) == if requireVesting || vestingSeconds == 0 then 0 else amount
    {
      coins := Coins(amount, if requireVesting then 0 else amount * vestingSeconds, now, vestingSeconds, 0);
      StartsEarned(amount, vestingSeconds, requireVesting, now);
    }

    method Deposit(now: nat, amount: nat)
      requires coins.Valid() && now >= coins.updated
      modifies this
      ensures coins.Valid() && coins == old(coins).Deposited(now, amount)
    {
      ApplyKeepsValid(coins, now, Action.Deposit(amount));
      UpdateCoinSeconds(now);
      coins := coins.(balance := coins.balance + amount);
    }

    method UpdateCoinSeconds(now: nat)
      requires now >= coins.updated
      modifies this
      ensures coins == old(coins).At(now)
    {
      var earned := coins.earned + coins.balance * (now - coins.updated);
      var cap := coins.balance * coins.Period();
      coins := coins.(earned := if earned <= cap then earned else cap, updated := now);
    }

    /// The credit is multiplied out in 64 bits; beyond that the code promises nothing.
    method DepositVested(now: nat, amount: nat) returns (ok: bool)
      requires coins.Valid() && now >= coins.updated
      modifies this
      ensures ok <==> amount * old(coins).Period() <= MAX_PRODUCT
      ensures coins == if ok then old(coins).DepositedVested(now, amount) else old(coins)
      ensures coins.Valid()
    {
      if amount * coins.Period() > MAX_PRODUCT {
        return false;
      }
      ApplyKeepsValid(coins, now, Action.DepositVested(amount));
      UpdateCoinSeconds(now);
      coins := coins.(earned := coins.earned + amount * coins.Period(), balance := coins.balance + amount);
      return true;
    }

    /// vesting_balance_withdraw: refused unless allowed; then neither assertion fires.
    method Withdraw(now: nat, amount: nat) returns (ok: bool)
      requires coins.Valid() && now >= coins.updated
      modifies this
      ensures ok <==> amount <= old(coins).Allowed(now)
      ensures coins.Valid() && coins == Apply(old(coins), now, Action.Withdraw(amount))
      ensures ok ==> coins.balance == old(coins).balance - amount && coins.earned + amount * old(coins).Period() == old(coins).Accrued(now)
    {
      if amount > coins.Allowed(now) {
        return false;
      }
      ApplyKeepsValid(coins, now, Action.Withdraw(amount));
      AllowedIsCovered(coins, now, amount);
      assert amount <= coins.balance;
      UpdateCoinSeconds(now);
      var needed := amount * coins.Period();
      assert needed <= coins.earned;
      coins := coins.(earned := coins.earned - needed, balance := coins.balance - amount);
      return true;
    }
  }

  /// The balance is the account's own and of the period asked for.
  predicate Reusable(vbo: VestingBalance?, own: bool, vestingSeconds: nat)
    reads vbo
  {
    vbo != null && own && vbo.coins.vestingSeconds == vestingSeconds
  }

  /// The 64-bit product that a vested deposit is credited with.
  function Credit(amount: nat, vestingSeconds: nat, reused: bool): nat {
    amount * if reused && vestingSeconds == 0 then 1 else vestingSeconds
  }

  /// deposit_lazy_vesting: into the balance the account has for the period, or into a new
  /// one; `own` when the account owns the balance given.
  method DepositLazily(vbo: VestingBalance?, own: bool, amount: nat, vestingSeconds: nat, requireVesting: bool, now: nat)
    returns (ok: bool, created: VestingBalance?)
    requires vbo != null ==> vbo.coins.Valid() && now >= vbo.coins.updated
    modifies vbo
    ensures ok <==>
      amount == 0 || requireVesting || Credit(amount, vestingSeconds, old(Reusable(vbo, own, vestingSeconds))) <= MAX_PRODUCT
    ensures vbo != null && (!ok || amount == 0 || !old(Reusable(vbo, own, vestingSeconds))) ==> vbo.coins == old(vbo.coins)
    ensures ok && amount > 0 && old(Reusable(vbo, own, vestingSeconds)) && requireVesting ==>
      vbo.coins == old(vbo.coins).Deposited(now, amount)
    ensures ok && amount > 0 && old(Reusable(vbo, own, vestingSeconds)) && !requireVesting ==>
      vbo.coins == old(vbo.coins).DepositedVested(now, amount)
    ensures created != null <==> ok && amount > 0 && !old(Reusable(vbo, own, vestingSeconds))
    ensures created != null ==>
      && fresh(created) && created.coins.Valid() && created.coins.balance == amount && created.coins.updated == now
      && created.coins.vestingSeconds == vestingSeconds
      && (now > 0 ==> created.coins.Allowed(now) == if requireVesting || vestingSeconds == 0 then 0 else amount)
  {
    created := null;
    if amount == 0 {
      return true, null;
    }
    if Reusable(vbo, own, vestingSeconds) {
      if requireVesting {
        vbo.Deposit(now, amount);
        return true, null;
      }
      ok := vbo.DepositVested(now, amount);
      return;
    }
    if !requireVesting && amount * vestingSeconds > MAX_PRODUCT {
      return false, null;
    }
    created := new VestingBalance(amount, vestingSeconds, requireVesting, now);
    return true, created;
  }

  /** The 64-bit product is too small for ordinary amounts: ten million CORE, vested over a
      year, already exceed it. */
  lemma VestedCreditOverflows()
    ensures 1_000_000_000_000 <= MAX_SHARE_SUPPLY
    ensures 1_000_000_000_000 * Coins(0, 0, 0, 31_536_000, 0).Period() > MAX_PRODUCT
  {
  }

  /** It is safe for every amount exactly when the period is at most 9223 seconds. */
  lemma VestedCreditFits(vestingSeconds: nat)
    ensures (forall amount: nat :: amount <= MAX_SHARE_SUPPLY ==> amount * Coins(0, 0, 0, vestingSeconds, 0).Period() <= MAX_PRODUCT)
      <==> vestingSeconds <= 9223
  {
    var p := Coins(0, 0, 0, vestingSeconds, 0).Period();
    if vestingSeconds <= 9223 {
      forall amount: nat | amount <= MAX_SHARE_SUPPLY ensures amount * p <= MAX_PRODUCT {
        ProductMonotone(amount, MAX_SHARE_SUPPLY, p);
        ProductMonotone(p, 9223, MAX_SHARE_SUPPLY);
      }
    } else {
      ProductMonotone(9224, p, MAX_SHARE_SUPPLY);
      assert MAX_SHARE_SUPPLY * p > MAX_PRODUCT;
    }
  }
}
