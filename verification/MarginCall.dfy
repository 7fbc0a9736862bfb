/** How much debt of a called margin position may be covered so that the
    remaining position rises just above its target collateral ratio.
    Models call_order_object::get_max_debt_to_cover in
    libraries/chain/market_object.cpp (rules after core-1270). */
module MarginCall {
  import opened Options
  import opened Prices

  datatype CallOrder = CallOrder(
    borrower: nat, collateral: Asset, debt: Asset, targetRatio: Option<nat>)
  {
    predicate Valid() {
      && 0 < collateral.amount <= MAX_SHARE_SUPPLY
      && 0 < debt.amount <= MAX_SHARE_SUPPLY
      && collateral.id != debt.id
    }

    function Collateralization(): Price {
      Price(collateral, debt)
    }
  }

  /// The numbers the searches work on, all prices as collateral per debt.
  datatype Terms = Terms(
    collateral: nat, debt: nat, matchCollateral: nat, matchDebt: nat, target: Price)
  {
    predicate Positive() {
      && 0 < collateral <= MAX_SHARE_SUPPLY && 0 < debt <= MAX_SHARE_SUPPLY
      && matchCollateral > 0 && matchDebt > 0
    }

    /// The position is worth more than its debt at the match price.
    predicate AboveWater() {
      Positive() && matchCollateral * debt < matchDebt * collateral
    }

    /// Collateral that covering `c` of debt costs, rounded up.
    function Pay(c: nat): nat
      requires Positive()
    {
      CeilMul(c, matchCollateral, matchDebt)
    }

    /// Debt that `p` of collateral covers, rounded down.
    function Cover(p: nat): nat
      requires Positive()
    {
      FloorMul(p, matchDebt, matchCollateral)
    }

    /// The collateralization left after the fill is strictly above target.
    predicate AboveTarget(pay: nat, cover: nat) {
      && pay < collateral && cover < debt
      && (debt - cover) * target.base.amount < target.quote.amount * (collateral - pay)
    }

    /// Covering exactly `cover` is affordable and reaches the target.
    predicate Reaches(cover: nat)
      requires Positive()
    {
      cover < debt && AboveTarget(Pay(cover), cover)
    }

    /// A pair left unchanged by further rounding in either direction.
    predicate Stable(pay: nat, cover: nat)
      requires Positive()
    {
      pay == Pay(cover) && cover == Cover(pay)
    }
  }

  /// operator* throws when the product exceeds the share supply.
  function Checked(x: nat): Option<nat> {
    if x <= MAX_SHARE_SUPPLY then Some(x) else None
  }

  lemma RoundUpThenDown(t: Terms, c: nat)
    requires t.Positive()
    ensures c <= t.Cover(t.Pay(c)) && t.Stable(t.Pay(c), t.Cover(t.Pay(c)))
  {
    var p := t.Pay(c);
    var c' := t.Cover(p);
    RoundingGalois(c, p, t.matchCollateral, t.matchDebt);
    RoundingGalois(c', p, t.matchCollateral, t.matchDebt);
    CeilMonotone(c, c', t.matchCollateral, t.matchDebt);
  }

  lemma RoundDownThenUp(t: Terms, p: nat)
    requires t.Positive()
    ensures t.Pay(t.Cover(p)) <= p && t.Stable(t.Pay(t.Cover(p)), t.Cover(p))
  {
    var c := t.Cover(p);
    var p' := t.Pay(c);
    RoundingGalois(c, p, t.matchCollateral, t.matchDebt);
    RoundingGalois(c, p', t.matchCollateral, t.matchDebt);
    FloorMonotone(p', p, t.matchDebt, t.matchCollateral);
  }

  lemma PayWithinCollateral(t: Terms, c: nat)
    requires t.AboveWater() && c <= t.debt
    ensures t.Pay(c) <= t.collateral
  {
    CeilIsLeast(c, t.matchCollateral, t.matchDebt, t.collateral);
    ProductMonotone(c, t.debt, t.matchCollateral);
    assert t.matchCollateral * t.debt == t.debt * t.matchCollateral;
    assert t.matchDebt * t.collateral == t.collateral * t.matchDebt;
  }

  datatype SearchResult =
    | Overflow
    | Found(cover: nat)
    | TooSmall(pay: nat, cover: nat)

  /// What the bracket of the binary search satisfies throughout.
  ghost predicate Bracket(t: Terms, minPay: nat, minCover: nat, maxPay: nat, maxCover: nat, maxIsOk: bool) {
    && t.AboveWater()
    && minPay < maxPay <= t.collateral
    && minCover < maxCover <= t.debt
    && (maxPay == t.collateral <==> maxCover == t.debt)
    && (maxPay < t.collateral ==> t.Stable(maxPay, maxCover))
    && (maxIsOk ==> t.AboveTarget(maxPay, maxCover))
  }

  /// The product that operator* is asked for on the way to the mean is above the share
  /// supply.
  predicate MeanOverflows(t: Terms, minPay: nat, minCover: nat, maxPay: nat, maxCover: nat)
    requires t.Positive()
  {
    if t.matchCollateral < t.matchDebt then
      var pay := (minPay + maxPay + 1) / 2;
      pay != maxPay && t.Cover(pay) > MAX_SHARE_SUPPLY
    else
      var cover := (minCover + maxCover) / 2;
      cover != maxCover && t.Pay(cover) < maxPay && t.Cover(t.Pay(cover)) > MAX_SHARE_SUPPLY
  }

  /// The middle of the bracket rounded to a stable pair, or the upper end of the bracket
  /// when it is not below it.
  function Middle(t: Terms, minPay: nat, minCover: nat, maxPay: nat, maxCover: nat): (nat, nat)
    requires t.Positive()
  {
    if t.matchCollateral < t.matchDebt then
      var pay := (minPay + maxPay + 1) / 2;
      if pay == maxPay || t.Cover(pay) >= maxCover then (maxPay, maxCover) else (t.Pay(t.Cover(pay)), t.Cover(pay))
    else
      var cover := (minCover + maxCover) / 2;
      var pay := t.Pay(cover);
      if cover == maxCover || pay >= maxPay || t.Cover(pay) >= maxCover then (maxPay, maxCover) else (pay, t.Cover(pay))
  }

  /// The middle when it has moved away from the lower end, or the upper end.
  function MeanOf(t: Terms, minPay: nat, minCover: nat, maxPay: nat, maxCover: nat): (nat, nat)
    requires t.Positive()
  {
    var (pay, cover) := Middle(t, minPay, minCover, maxPay, maxCover);
    if pay <= minPay || cover <= minCover then (maxPay, maxCover) else (pay, cover)
  }

  lemma MeanInBracket(t: Terms, minPay: nat, minCover: nat, maxPay: nat, maxCover: nat)
    requires Bracket(t, minPay, minCover, maxPay, maxCover, false)
    ensures
      var (pay, cover) := MeanOf(t, minPay, minCover, maxPay, maxCover);
      || (pay == maxPay && cover == maxCover)
      || (minPay < pay < maxPay && minCover < cover < maxCover && t.Stable(pay, cover))
    ensures MeanOverflows(t, minPay, minCover, maxPay, maxCover) ==> t.Cover(t.collateral) > MAX_SHARE_SUPPLY
  {
    if t.matchCollateral < t.matchDebt {
      var pay := (minPay + maxPay + 1) / 2;
      FloorMonotone(pay, t.collateral, t.matchDebt, t.matchCollateral);
      RoundDownThenUp(t, pay);
    } else {
      var cover := (minCover + maxCover) / 2;
      RoundUpThenDown(t, cover);
      if t.Pay(cover) < maxPay { FloorMonotone(t.Pay(cover), t.collateral, t.matchDebt, t.matchCollateral); }
    }
  }

  /// The mean of the bracket, stabilized; the maximum when it cannot move.
  method Mean(t: Terms, minPay: nat, minCover: nat, maxPay: nat, maxCover: nat, ghost maxIsOk: bool)
    returns (r: Option<(nat, nat)>)
    requires Bracket(t, minPay, minCover, maxPay, maxCover, maxIsOk)
    ensures r.None? <==> MeanOverflows(t, minPay, minCover, maxPay, maxCover)
    ensures r.None? ==> t.Cover(t.collateral) > MAX_SHARE_SUPPLY
    ensures r.Some? ==> r.value == MeanOf(t, minPay, minCover, maxPay, maxCover)
    ensures r.Some? ==>
      var (pay, cover) := r.value;
      || (pay == maxPay && cover == maxCover)
      || (minPay < pay < maxPay && minCover < cover < maxCover && t.Stable(pay, cover))
  {
    var pay, cover;
    if t.matchCollateral < t.matchDebt { // step of collateral is smaller
      pay := (minPay + maxPay + 1) / 2;
      if pay == maxPay {
        cover := maxCover;
      } else {
        FloorMonotone(pay, t.collateral, t.matchDebt, t.matchCollateral);
        cover :- Checked(t.Cover(pay));
        if cover >= maxCover {
          pay, cover := maxPay, maxCover;
        } else {
          RoundDownThenUp(t, pay);
          pay := t.Pay(cover);
          assert pay < maxPay; // FC_ASSERT
        }
      }
    } else { // step of debt is smaller or equal
      cover := (minCover + maxCover) / 2;
      if cover == maxCover {
        pay := maxPay;
      } else {
        PayWithinCollateral(t, cover);
        RoundUpThenDown(t, cover);
        pay := t.Pay(cover); // at most the collateral, so operator* accepts it
        if pay >= maxPay {
          pay, cover := maxPay, maxCover;
        } else {
          FloorMonotone(pay, t.collateral, t.matchDebt, t.matchCollateral);
          cover :- Checked(t.Cover(pay));
          if cover >= maxCover {
            pay, cover := maxPay, maxCover;
          }
        }
      }
    }
    // if we have not moved away from the minimums, use the maximums
    if pay <= minPay || cover <= minCover || pay > maxPay || cover > maxCover {
      pay, cover := maxPay, maxCover;
    }
    return Some((pay, cover));
  }

  /// What halving the bracket comes to.
  ghost function Bisected(t: Terms, minPay: nat, minCover: nat, maxPay: nat, maxCover: nat, maxIsOk: bool): (r: SearchResult)
    requires Bracket(t, minPay, minCover, maxPay, maxCover, maxIsOk)
    ensures r.TooSmall? ==> minPay < r.pay < t.collateral && minCover < r.cover < t.debt && t.Stable(r.pay, r.cover)
    ensures r.Found? ==> r.cover <= maxCover
    decreases maxPay - minPay
  {
    MeanInBracket(t, minPay, minCover, maxPay, maxCover);
    var (pay, cover) := MeanOf(t, minPay, minCover, maxPay, maxCover);
    if MeanOverflows(t, minPay, minCover, maxPay, maxCover) then Overflow
    else if pay == maxPay then
      if maxIsOk || pay == t.collateral || t.AboveTarget(pay, cover) then Found(cover) else TooSmall(pay, cover)
    else if t.AboveTarget(pay, cover) then Bisected(t, minPay, minCover, pay, cover, true)
    else Bisected(t, pay, cover, maxPay, maxCover, maxIsOk)
  }

  /** Halves the bracket until a covered amount above target is pinned down, or
      until the upper end itself turns out to be too small. */
  method BinarySearch(t: Terms, pay0: nat, cover0: nat, maxPay0: nat, maxCover0: nat)
    returns (r: SearchResult)
    requires Bracket(t, pay0, cover0, maxPay0, maxCover0, false)
    ensures r == Bisected(t, pay0, cover0, maxPay0, maxCover0, false)
    ensures r.Overflow? ==> t.Cover(t.collateral) > MAX_SHARE_SUPPLY
    ensures r.Found? ==> cover0 < r.cover && (r.cover == t.debt || t.Reaches(r.cover))
    ensures r.TooSmall? ==> pay0 < r.pay < t.collateral && cover0 < r.cover < t.debt && t.Stable(r.pay, r.cover)
  {
    var minPay: nat, minCover: nat, maxPay: nat, maxCover: nat := pay0, cover0, maxPay0, maxCover0;
    var maxIsOk := false;
    while true
      invariant Bracket(t, minPay, minCover, maxPay, maxCover, maxIsOk)
      invariant pay0 <= minPay && cover0 <= minCover
      invariant Bisected(t, minPay, minCover, maxPay, maxCover, maxIsOk) == Bisected(t, pay0, cover0, maxPay0, maxCover0, false)
      decreases maxPay - minPay
    {
      var mean := Mean(t, minPay, minCover, maxPay, maxCover, maxIsOk);
      if mean.None? {
        return Overflow;
      }
      var (pay, cover) := mean.value;
      if pay == maxPay && (maxIsOk || pay == t.collateral) {
        return Found(cover);
      }
      assert pay < t.collateral && cover < t.debt; // FC_ASSERT
      if t.AboveTarget(pay, cover) {
        if pay == maxPay {
          return Found(cover);
        }
        maxPay, maxCover, maxIsOk := pay, cover, true;
      } else {
        if pay == maxPay {
          return TooSmall(pay, cover);
        }
        minPay, minCover := pay, cover;
      }
    }
    assert false;
  }

  /// One step forward of the given size: a larger stable pair, the whole debt, or a
  /// product above the share supply.
  function Step(t: Terms, pay: nat, cover: nat, d: nat): (r: SearchResult)
    requires t.Positive()
  {
    if t.matchCollateral > t.matchDebt then
      if pay + d >= t.collateral then Found(t.debt)
      else if t.Cover(pay + d) > MAX_SHARE_SUPPLY then Overflow
      else if t.Cover(pay + d) >= t.debt || t.Pay(t.Cover(pay + d)) >= t.collateral then Found(t.debt)
      else TooSmall(t.Pay(t.Cover(pay + d)), t.Cover(pay + d))
    else
      if cover + d >= t.debt || t.Pay(cover + d) >= t.collateral then Found(t.debt)
      else if t.Cover(t.Pay(cover + d)) > MAX_SHARE_SUPPLY then Overflow
      else if t.Cover(t.Pay(cover + d)) >= t.debt then Found(t.debt)
      else TooSmall(t.Pay(cover + d), t.Cover(t.Pay(cover + d)))
  }

  /** A step ends in a stable pair not below the one it started from. */
  lemma StepForward(t: Terms, pay: nat, cover: nat, d: nat)
    requires t.AboveWater() && pay < t.collateral && cover < t.debt && t.Stable(pay, cover)
    ensures var r := Step(t, pay, cover, d);
      && (r.Overflow? ==> t.Cover(t.collateral) > MAX_SHARE_SUPPLY)
      && (r.Found? ==> r.cover == t.debt)
      && (r.TooSmall? ==> pay <= r.pay < t.collateral && cover <= r.cover < t.debt && t.Stable(r.pay, r.cover))
      && (r.TooSmall? ==> d < t.collateral + t.debt)
  {
    if t.matchCollateral > t.matchDebt {
      if pay + d < t.collateral {
        FloorMonotone(pay + d, t.collateral, t.matchDebt, t.matchCollateral);
        FloorMonotone(pay, pay + d, t.matchDebt, t.matchCollateral);
        RoundDownThenUp(t, pay + d);
        CeilMonotone(cover, t.Cover(pay + d), t.matchCollateral, t.matchDebt);
      }
    } else if cover + d < t.debt {
      PayWithinCollateral(t, cover + d);
      CeilMonotone(cover, cover + d, t.matchCollateral, t.matchDebt);
      RoundUpThenDown(t, cover + d);
      FloorMonotone(t.Pay(cover + d), t.collateral, t.matchDebt, t.matchCollateral);
    }
  }

  /** In plain amounts: a step goes to the most that `d` more collateral buys, or to what `d`
      more debt costs, whichever is the finer; it takes the whole debt only when that would
      cost all the collateral or buy all the debt. */
  lemma StepMeans(t: Terms, pay: nat, cover: nat, d: nat)
    requires t.Positive()
    ensures var r := Step(t, pay, cover, d);
      if t.matchCollateral > t.matchDebt then
        && (r.Found? <==> pay + d >= t.collateral || (t.debt * t.matchCollateral <= (pay + d) * t.matchDebt && !r.Overflow?))
        && (r.TooSmall? ==> r.cover * t.matchCollateral <= (pay + d) * t.matchDebt < (r.cover + 1) * t.matchCollateral)
      else
        && (cover + d >= t.debt || (t.collateral - 1) * t.matchDebt < (cover + d) * t.matchCollateral ==> r.Found?)
        && (r.Found? && cover + d < t.debt && (cover + d) * t.matchCollateral <= (t.collateral - 1) * t.matchDebt ==>
             t.Cover(t.Pay(cover + d)) >= t.debt)
        && (r.TooSmall? ==> (r.pay - 1) * t.matchDebt < (cover + d) * t.matchCollateral <= r.pay * t.matchDebt)
  {
    hide Terms.Pay;
    hide Terms.Cover;
    if t.matchCollateral > t.matchDebt {
      StepInCollateral(t, pay + d);
    } else {
      StepInDebt(t, cover + d);
    }
  }

  lemma StepInCollateral(t: Terms, p: nat)
    requires t.Positive()
    ensures t.Cover(p) >= t.debt <==> t.debt * t.matchCollateral <= p * t.matchDebt
    ensures t.Cover(p) * t.matchCollateral <= p * t.matchDebt < (t.Cover(p) + 1) * t.matchCollateral
    ensures t.Pay(t.Cover(p)) <= p
  {
    FloorIsGreatest(p, t.matchDebt, t.matchCollateral, t.debt);
    FloorIsGreatest(p, t.matchDebt, t.matchCollateral, t.Cover(p));
    FloorIsGreatest(p, t.matchDebt, t.matchCollateral, t.Cover(p) + 1);
    RoundDownThenUp(t, p);
  }

  lemma StepInDebt(t: Terms, c: nat)
    requires t.Positive()
    ensures t.Pay(c) >= t.collateral <==> (t.collateral - 1) * t.matchDebt < c * t.matchCollateral
    ensures (t.Pay(c) - 1) * t.matchDebt < c * t.matchCollateral <= t.Pay(c) * t.matchDebt
  {
    var pay := t.Pay(c);
    CeilIsLeast(c, t.matchCollateral, t.matchDebt, t.collateral - 1);
    DivisionBounds(c * t.matchCollateral + t.matchDebt - 1, t.matchDebt);
    assert (pay - 1) * t.matchDebt == pay * t.matchDebt - t.matchDebt;
  }

  /// What walking forward comes to, the next two step sizes being `d2` and `d1 + d2`.
  ghost function Advanced(t: Terms, pay: nat, cover: nat, d1: nat, d2: nat): (r: SearchResult)
    requires t.AboveWater() && pay < t.collateral && cover < t.debt && t.Stable(pay, cover) && d1 <= d2 && d2 > 0
    ensures r.Found? ==> r.cover <= t.debt
    decreases 2 * (t.collateral + t.debt) - d1 - d2
  {
    StepForward(t, pay, cover, d2);
    var next := Step(t, pay, cover, d2);
    if !next.TooSmall? then next
    else if t.AboveTarget(next.pay, next.cover) then Found(next.cover)
    else Advanced(t, next.pay, next.cover, d2, d1 + d2)
  }

  /** Walks forward from a pair that is too small in Fibonacci steps, until a
      pair above target or the whole debt is reached. */
  method ForwardSearch(t: Terms, pay0: nat, cover0: nat) returns (r: SearchResult)
    requires t.AboveWater()
    requires pay0 < t.collateral && 0 < cover0 < t.debt && t.Stable(pay0, cover0)
    ensures r == Advanced(t, pay0, cover0, 0, 1)
    ensures r.Overflow? ==> t.Cover(t.collateral) > MAX_SHARE_SUPPLY
    ensures !r.TooSmall?
    ensures r.Found? ==> cover0 <= r.cover && (r.cover == t.debt || t.Reaches(r.cover))
  {
    hide Step;
    hide Terms.AboveTarget;
    var pay, cover := pay0, cover0;
    var d1, d2, d3 := 0, 1, 1;
    while true
      invariant pay0 <= pay < t.collateral && cover0 <= cover < t.debt
      invariant t.Stable(pay, cover)
      invariant 0 <= d1 <= d2 && 1 <= d2 && d3 == d1 + d2
      invariant Advanced(t, pay, cover, d1, d2) == Advanced(t, pay0, cover0, 0, 1)
      decreases 2 * (t.collateral + t.debt) - d3
    {
      StepForward(t, pay, cover, d2);
      var next := Step(t, pay, cover, d2);
      if !next.TooSmall? {
        return next;
      }
      pay, cover := next.pay, next.cover;
      if t.AboveTarget(pay, cover) {
        return Found(cover);
      }
      d1 := d2;
      d2 := d3;
      d3 := d1 + d2;
    }
    assert false;
  }

  // ------------------------------------------------------------------
  // The closed-form estimate

  /// Ratios of the estimate: feed and match price as collateral per debt.
  datatype Estimate = Estimate(
    feedCollateral: nat, feedDebt: nat, matchCollateral: nat, matchDebt: nat, ratio: nat)
  {
    predicate Positive() {
      feedCollateral > 0 && feedDebt > 0 && matchCollateral > 0 && matchDebt > 0 && ratio > 0
    }

    function Numerator(collateral: nat, debt: nat): int {
      feedCollateral * matchDebt * debt * ratio - feedDebt * matchDebt * collateral * RATIO_DENOM
    }

    function Denominator(): int {
      feedCollateral * matchDebt * ratio - feedDebt * matchCollateral * RATIO_DENOM
    }

    /// The fraction of one unit of debt lost by rounding, at the target ratio.
    function OneUnit(): nat {
      feedCollateral * matchDebt * ratio
    }
  }

  lemma ScaledNumerator(e: Estimate, collateral: nat, debt: nat)
    ensures debt * e.Denominator() - e.Numerator(collateral, debt)
         == (e.feedDebt * RATIO_DENOM) * (e.matchDebt * collateral - e.matchCollateral * debt)
  {
    var a, b, c := e.feedCollateral * e.matchDebt, e.feedDebt * e.matchDebt, e.feedDebt * e.matchCollateral;
    assert debt * (a * e.ratio) == a * debt * e.ratio;
    assert debt * (c * RATIO_DENOM) == c * debt * RATIO_DENOM;
    assert debt * e.Denominator() == debt * (a * e.ratio) - debt * (c * RATIO_DENOM);
    assert (e.feedDebt * RATIO_DENOM) * (e.matchDebt * collateral) == b * collateral * RATIO_DENOM;
    assert (e.feedDebt * RATIO_DENOM) * (e.matchCollateral * debt) == c * debt * RATIO_DENOM;
  }

  lemma PositiveFactor(k: nat, x: int)
    requires k * x > 0
    ensures x > 0
  {
  }

  /** An estimate below the debt means the position can pay for its debt at the
      match price, which bounds every product the searches compute. */
  lemma EstimateBelowDebt(e: Estimate, collateral: nat, debt: nat)
    requires e.Positive() && e.Denominator() > 0 && e.Numerator(collateral, debt) >= 0
    requires e.Numerator(collateral, debt) / e.Denominator() < debt
    ensures e.matchCollateral * debt < e.matchDebt * collateral
  {
    var n, d := e.Numerator(collateral, debt), e.Denominator();
    DivisionBounds(n, d);
    ProductLess(n / d, debt, d);
    ScaledNumerator(e, collateral, debt);
    assert debt * d == d * debt;
    PositiveFactor(e.feedDebt * RATIO_DENOM, e.matchDebt * collateral - e.matchCollateral * debt);
  }

  function Oriented(p: Price, call: CallOrder): Price {
    if p.base.id != call.collateral.id then p.Inverse() else p
  }

  /// The price is quoted in this position's collateral and debt.
  predicate Quotes(p: Price, call: CallOrder) {
    p.base.id == call.collateral.id && p.quote.id == call.debt.id
  }

  /// The larger of the target ratio and the maintenance ratio.
  function EffectiveRatio(call: CallOrder, mcr: nat): (r: nat)
    ensures r >= mcr && (r == mcr || call.targetRatio == Some(r))
    ensures call.targetRatio.Some? ==> r >= call.targetRatio.value
  {
    match call.targetRatio
    case None => mcr
    case Some(t) => Max(t, mcr)
  }

  function Target(call: CallOrder, feed: Price, mcr: nat): (r: Price)
    requires feed.Valid() && mcr > 0
    ensures r.Valid()
  {
    Scale(Oriented(feed, call), EffectiveRatio(call, mcr), RATIO_DENOM)
  }

  function TermsOf(call: CallOrder, matchPrice: Price, feed: Price, mcr: nat): (t: Terms)
    requires call.Valid() && matchPrice.Valid() && feed.Valid() && mcr > 0
    ensures t.Positive()
  {
    var mp := Oriented(matchPrice, call);
    Terms(call.collateral.amount, call.debt.amount, mp.base.amount, mp.quote.amount, Target(call, feed, mcr))
  }

  function EstimateOf(call: CallOrder, matchPrice: Price, feed: Price, mcr: nat): (e: Estimate)
    requires matchPrice.Valid() && feed.Valid() && mcr > 0
    ensures e.Positive()
  {
    var mp, fp := Oriented(matchPrice, call), Oriented(feed, call);
    Estimate(fp.base.amount, fp.quote.amount, mp.base.amount, mp.quote.amount, EffectiveRatio(call, mcr))
  }

  /// Nothing is covered: the estimate is negative, or rounds down to nothing while the
  /// position, as it is, is already above its target.
  predicate CoversNothing(call: CallOrder, matchPrice: Price, feed: Price, mcr: nat)
    requires call.Valid() && matchPrice.Valid() && feed.Valid() && mcr > 0
  {
    var t, e := TermsOf(call, matchPrice, feed, mcr), EstimateOf(call, matchPrice, feed, mcr);
    var n, d := e.Numerator(t.collateral, t.debt), e.Denominator();
    n < 0 || (d > 0 && n / d < t.debt && StableCover(t, n / d) == 0 && t.AboveTarget(0, 0))
  }

  /// The estimate rounded down to collateral and back.
  function StableCover(t: Terms, estimate: nat): nat
    requires t.Positive()
  {
    t.Cover(FloorMul(estimate, t.matchCollateral, t.matchDebt))
  }

  /// The upper end of the bracket, when computing it does not overflow.
  function Upper(t: Terms, upper: nat): (nat, nat)
    requires t.Positive()
  {
    var maxPay := if upper == t.debt then t.collateral else t.Pay(upper);
    if maxPay == t.collateral || t.Cover(maxPay) >= t.debt then (t.collateral, t.debt) else (maxPay, t.Cover(maxPay))
  }

  /// Computing it does.
  predicate UpperOverflows(t: Terms, upper: nat)
    requires t.Positive()
  {
    upper != t.debt && t.Pay(upper) != t.collateral && t.Cover(t.Pay(upper)) > MAX_SHARE_SUPPLY
  }

  /** The upper end of the bracket is a stable pair or the whole position. */
  lemma UpperEnd(t: Terms, upper: nat)
    requires t.AboveWater() && upper <= t.debt
    ensures var (maxPay, maxCover) := Upper(t, upper);
      && maxPay <= t.collateral && maxCover <= t.debt
      && (maxPay == t.collateral <==> maxCover == t.debt)
      && (maxPay < t.collateral ==> t.Stable(maxPay, maxCover))
  {
    PayWithinCollateral(t, upper);
    RoundUpThenDown(t, upper);
  }

  /** Rounded to a stable pair, an estimate does not grow and stays affordable. */
  lemma StableEstimate(t: Terms, estimate: nat)
    requires t.AboveWater() && estimate < t.debt
    ensures FloorMul(estimate, t.matchCollateral, t.matchDebt) <= t.collateral
    ensures var cover := StableCover(t, estimate);
      cover <= estimate && t.Stable(t.Pay(cover), cover) && t.Pay(cover) <= t.collateral
  {
    var down := FloorMul(estimate, t.matchCollateral, t.matchDebt);
    assert down <= t.collateral && t.Cover(down) <= estimate by {
      FloorIsGreatest(estimate, t.matchCollateral, t.matchDebt, down);
      FloorIsGreatest(down, t.matchDebt, t.matchCollateral, t.Cover(down));
      PayWithinCollateral(t, estimate);
      CeilIsLeast(estimate, t.matchCollateral, t.matchDebt, t.Pay(estimate));
      if t.Cover(down) > estimate {
        ProductLess(estimate, t.Cover(down), t.matchCollateral);
      }
      if down > t.Pay(estimate) {
        ProductLess(t.Pay(estimate), down, t.matchDebt);
      }
    }
    RoundDownThenUp(t, down);
    PayWithinCollateral(t, t.Cover(down));
  }

  /// What the searches come to from an estimate and an upper bound.
  ghost function Searched(t: Terms, estimate: nat, upper: nat): (r: SearchResult)
    requires t.AboveWater() && estimate < t.debt
    ensures r.Found? ==> r.cover <= t.debt
  {
    StableEstimate(t, estimate);
    UpperEnd(t, Min(upper, t.debt));
    var cover, (maxPay, maxCover) := StableCover(t, estimate), Upper(t, Min(upper, t.debt));
    var pay := t.Pay(cover);
    if cover >= t.debt || pay >= t.collateral then Found(t.debt)
    else if t.AboveTarget(pay, cover) then Found(cover)
    else if UpperOverflows(t, Min(upper, t.debt)) then Overflow
    else if maxPay <= pay || maxCover <= cover then Found(t.debt)
    else
      match Bisected(t, pay, cover, maxPay, maxCover, false)
      case TooSmall(p, c) => Advanced(t, p, c, 0, 1)
      case r => r
  }

  /// The debt to cover of a called position; none when a product exceeds the share supply.
  ghost function MaxDebt(call: CallOrder, matchPrice: Price, feed: Price, mcr: nat): (r: Option<nat>)
    requires call.Valid() && matchPrice.Valid() && feed.Valid() && mcr > 0
  {
    var t, e := TermsOf(call, matchPrice, feed, mcr), EstimateOf(call, matchPrice, feed, mcr);
    var n, d := e.Numerator(t.collateral, t.debt), e.Denominator();
    if call.targetRatio.None? then Some(t.debt)
    else if n < 0 then Some(0)
    else if d <= 0 || n / d >= t.debt then Some(t.debt)
    else
      EstimateBelowDebt(e, t.collateral, t.debt);
      var found := Searched(t, n / d, (n + e.OneUnit()) / d + 1);
      if found.Found? then Some(found.cover) else None
  }

  /// The searches are entered, and a product on the way exceeds the share supply.
  ghost predicate SearchOverflows(call: CallOrder, matchPrice: Price, feed: Price, mcr: nat)
    requires call.Valid() && matchPrice.Valid() && feed.Valid() && mcr > 0
  {
    var t, e := TermsOf(call, matchPrice, feed, mcr), EstimateOf(call, matchPrice, feed, mcr);
    var n, d := e.Numerator(t.collateral, t.debt), e.Denominator();
    n >= 0 && d > 0 && n / d < t.debt && t.AboveWater() && Searched(t, n / d, (n + e.OneUnit()) / d + 1).Overflow?
  }

  /// The searches are entered, and the first mean overflows.
  predicate FirstMeanOverflows(call: CallOrder, matchPrice: Price, feed: Price, mcr: nat)
    requires call.Valid() && matchPrice.Valid() && feed.Valid() && mcr > 0
  {
    var t, e := TermsOf(call, matchPrice, feed, mcr), EstimateOf(call, matchPrice, feed, mcr);
    var n, d := e.Numerator(t.collateral, t.debt), e.Denominator();
    n >= 0 && d > 0 && n / d < t.debt && FirstMeanOverflowsFrom(t, n / d, (n + e.OneUnit()) / d + 1)
  }

  predicate FirstMeanOverflowsFrom(t: Terms, estimate: nat, upper: nat)
    requires t.Positive()
  {
    var cover, (maxPay, maxCover) := StableCover(t, estimate), Upper(t, Min(upper, t.debt));
    var pay := t.Pay(cover);
    && cover < t.debt && pay < t.collateral && !t.AboveTarget(pay, cover)
    && pay < maxPay && cover < maxCover && MeanOverflows(t, pay, cover, maxPay, maxCover)
  }

  // ------------------------------------------------------------------
  // The same in plain amounts

  /// The amount of the asset in the price.
  function AmountOf(p: Price, id: AssetId): nat {
    if p.base.id == id then p.base.amount else p.quote.amount
  }

  /// The least collateral that buys `cover` of debt, at `mc` of collateral for `md` of debt.
  predicate IsLeastPay(pay: nat, cover: nat, mc: nat, md: nat) {
    cover * mc <= pay * md < cover * mc + md
  }

  /// Once `cover` has been bought, collateral is left, and it is worth more than `k`
  /// thousandths of the debt that is left at the feed's price.
  ghost predicate EndsAbove(call: CallOrder, matchPrice: Price, feed: Price, cover: nat, k: nat) {
    var mc, md := AmountOf(matchPrice, call.collateral.id), AmountOf(matchPrice, call.debt.id);
    var fc, fd := AmountOf(feed, call.collateral.id), AmountOf(feed, call.debt.id);
    forall pay: nat :: IsLeastPay(pay, cover, mc, md) ==>
      && pay < call.collateral.amount
      && (call.debt.amount - cover) * fc * k < (call.collateral.amount - pay) * fd * RATIO_DENOM
  }

  lemma LeastPayIsPay(t: Terms, pay: nat, cover: nat)
    requires t.Positive() && IsLeastPay(pay, cover, t.matchCollateral, t.matchDebt)
    ensures pay == t.Pay(cover)
  {
    CeilIsLeast(cover, t.matchCollateral, t.matchDebt, pay);
    assert (pay - 1) * t.matchDebt == pay * t.matchDebt - t.matchDebt;
    if t.Pay(cover) < pay {
      CeilIsLeast(cover, t.matchCollateral, t.matchDebt, pay - 1);
    }
  }

  /// The feed's price can be multiplied by both ratios without losing precision.
  predicate ExactRatios(call: CallOrder, feed: Price, mcr: nat)
    requires feed.Valid() && mcr > 0
  {
    && ScalesExactly(Oriented(feed, call), mcr, RATIO_DENOM)
    && (call.targetRatio.Some? && call.targetRatio.value > 0 ==>
          ScalesExactly(Oriented(feed, call), call.targetRatio.value, RATIO_DENOM))
  }

  /** Reaching the target means, in plain amounts, ending above both ratios. */
  lemma ReachesBoth(call: CallOrder, matchPrice: Price, feed: Price, mcr: nat, cover: nat, k: nat)
    requires call.Valid() && matchPrice.Valid() && feed.Valid() && mcr > 0 && call.targetRatio.Some?
    requires Quotes(Oriented(matchPrice, call), call) && Quotes(Oriented(feed, call), call)
    requires TermsOf(call, matchPrice, feed, mcr).Reaches(cover) && (k == mcr || k == call.targetRatio.value)
    ensures ExactRatios(call, feed, mcr) ==> EndsAbove(call, matchPrice, feed, cover, k)
  {
    hide Scale;
    hide ScaledFraction;
    hide Terms.Pay;
    var t, fp, r := TermsOf(call, matchPrice, feed, mcr), Oriented(feed, call), EffectiveRatio(call, mcr);
    var fc, fd, debt := fp.base.amount, fp.quote.amount, call.debt.amount - cover;
    if ExactRatios(call, feed, mcr) { ScaleExact(fp, r, RATIO_DENOM); }
    forall pay: nat | ExactRatios(call, feed, mcr) && IsLeastPay(pay, cover, t.matchCollateral, t.matchDebt)
      ensures pay < call.collateral.amount && debt * fc * k < (call.collateral.amount - pay) * fd * RATIO_DENOM
    {
      LeastPayIsPay(t, pay, cover);
      var rest := call.collateral.amount - pay;
      SameComparison(t.target.base.amount, t.target.quote.amount, fc * r, fd * RATIO_DENOM, rest, debt);
      assert debt * fc * k <= (fc * r) * debt by {
        ProductMonotone(k, r, debt * fc);
        Regroup(debt, fc, k);
        Regroup(debt, fc, r);
      }
      Regroup(rest, fd, RATIO_DENOM);
    }
  }

  /** The maximum debt to cover: nothing when the position is not in margin call
      territory, everything when it has no target, and otherwise an amount whose
      cost is below the collateral and whose fill ends strictly above target. */
  method GetMaxDebtToCover(call: CallOrder, matchPrice: Price, feedPrice: Price, mcr: nat, maintenance: Price)
    returns (r: Option<nat>)
    requires call.Valid() && matchPrice.Valid() && feedPrice.Valid() && mcr > 0
    ensures r.Some? ==> r.value <= call.debt.amount
    ensures r.Some? && 0 < r.value < call.debt.amount ==>
      TermsOf(call, matchPrice, feedPrice, mcr).Reaches(r.value)
    ensures r.Some? && 0 < r.value < call.debt.amount ==> call.targetRatio.Some?
    ensures r.Some? && 0 < r.value < call.debt.amount && ExactRatios(call, feedPrice, mcr) ==>
      && EndsAbove(call, matchPrice, feedPrice, r.value, call.targetRatio.value)
      && EndsAbove(call, matchPrice, feedPrice, r.value, mcr)
    ensures r.Some? && Less(maintenance, call.Collateralization()) ==> r.value == 0
    ensures r.Some? ==> (r.value == 0 <==>
      Less(maintenance, call.Collateralization()) || (call.targetRatio.Some? && CoversNothing(call, matchPrice, feedPrice, mcr)))
    ensures r.Some? && !Less(maintenance, call.Collateralization()) && call.targetRatio.None? ==>
      r.value == call.debt.amount
    ensures r.None? ==>
      || !Quotes(Oriented(feedPrice, call), call) || !Quotes(maintenance, call)
      || !Quotes(Oriented(matchPrice, call), call)
      || (TermsOf(call, matchPrice, feedPrice, mcr).Cover(call.collateral.amount) > MAX_SHARE_SUPPLY
          && !CoversNothing(call, matchPrice, feedPrice, mcr))
    ensures r.None? <==>
      || !Quotes(Oriented(feedPrice, call), call) || !Quotes(maintenance, call)
      || (!Less(maintenance, call.Collateralization()) && call.targetRatio.Some?
          && (!Quotes(Oriented(matchPrice, call), call) || SearchOverflows(call, matchPrice, feedPrice, mcr)))
    ensures
      && Quotes(Oriented(feedPrice, call), call) && Quotes(maintenance, call) && Quotes(Oriented(matchPrice, call), call)
      && !Less(maintenance, call.Collateralization()) ==>
      r == MaxDebt(call, matchPrice, feedPrice, mcr)
  {
    hide Searched;
    hide StableCover;
    hide Scale;
    hide ExactRatios;
    hide EndsAbove;
    hide Less;
    hide Terms.Cover;
    hide Terms.Pay;
    hide Terms.AboveTarget;
    if !Quotes(Oriented(feedPrice, call), call) || !Quotes(maintenance, call) {
      return None;
    }
    if Less(maintenance, call.Collateralization()) {
      return Some(0); // feed protected
    }
    if call.targetRatio.None? {
      return Some(call.debt.amount);
    }
    if !Quotes(Oriented(matchPrice, call), call) {
      return None;
    }
    var t := TermsOf(call, matchPrice, feedPrice, mcr);
    var e := EstimateOf(call, matchPrice, feedPrice, mcr);
    var numerator, denominator := e.Numerator(t.collateral, t.debt), e.Denominator();
    if numerator < 0 {
      return Some(0);
    }
    if denominator <= 0 { // black swan
      return Some(t.debt);
    }
    if numerator / denominator >= t.debt {
      return Some(t.debt);
    }
    EstimateBelowDebt(e, t.collateral, t.debt);
    // the estimate ignores rounding; one more unit of debt allows for it
    var found := SearchAround(t, numerator / denominator, (numerator + e.OneUnit()) / denominator + 1);
    if found.Found? && found.cover < t.debt {
      ReachesBoth(call, matchPrice, feedPrice, mcr, found.cover, mcr);
      ReachesBoth(call, matchPrice, feedPrice, mcr, found.cover, call.targetRatio.value);
    }
    return if found.Found? then Some(found.cover) else None;
  }

  lemma NothingIsFree(t: Terms)
    requires t.AboveWater()
    ensures t.Positive() && t.Pay(0) == 0
  {
    CeilIsLeast(0, t.matchCollateral, t.matchDebt, 0);
  }

  /** Tries the estimate, then the bracket from it up to `upper`, then forward. */
  method SearchAround(t: Terms, estimate: nat, upper: nat) returns (r: SearchResult)
    requires t.AboveWater() && estimate < t.debt
    ensures !r.TooSmall?
    ensures r.Overflow? ==> t.Cover(t.collateral) > MAX_SHARE_SUPPLY
    ensures r.Found? ==> r.cover == t.debt || t.Reaches(r.cover)
    ensures r == Found(0) <==> StableCover(t, estimate) == 0 && t.AboveTarget(0, 0)
    ensures r == Searched(t, estimate, upper)
  {
    hide StableCover;
    hide Upper;
    hide UpperOverflows;
    hide Bisected;
    hide Advanced;
    hide MeanOverflows;
    hide Terms.AboveTarget;
    hide Terms.Pay;
    hide Terms.Cover;
    hide Terms.AboveWater;
    NothingIsFree(t);
    var pay, cover := Stabilize(t, estimate);
    if cover >= t.debt || pay >= t.collateral {
      return Found(t.debt);
    }
    if t.AboveTarget(pay, cover) {
      return Found(cover);
    }
    UpperEnd(t, Min(upper, t.debt));
    var bound := UpperBound(t, Min(upper, t.debt));
    if bound.None? {
      return Overflow;
    }
    var (maxPay, maxCover) := bound.value;
    if maxPay <= pay || maxCover <= cover {
      return Found(t.debt);
    }
    r := BinarySearch(t, pay, cover, maxPay, maxCover);
    if r.TooSmall? {
      r := ForwardSearch(t, r.pay, r.cover);
    }
  }

  /// Down, down, up: the estimate rounded to a stable pair.
  method Stabilize(t: Terms, estimate: nat) returns (pay: nat, cover: nat)
    requires t.AboveWater() && estimate < t.debt
    ensures cover == StableCover(t, estimate) <= estimate && t.Stable(pay, cover) && pay <= t.collateral
  {
    StableEstimate(t, estimate);
    var down := FloorMul(estimate, t.matchCollateral, t.matchDebt);
    cover := t.Cover(down);
    pay := t.Pay(cover);
  }

  /// The upper end of the bracket: a stable pair, or the whole position.
  method UpperBound(t: Terms, upper: nat) returns (r: Option<(nat, nat)>)
    requires t.AboveWater() && upper <= t.debt
    ensures r.None? <==> UpperOverflows(t, upper)
    ensures r.None? ==> t.Cover(t.collateral) > MAX_SHARE_SUPPLY
    ensures r.Some? ==> r.value == Upper(t, upper)
  {
    PayWithinCollateral(t, upper);
    var maxPay := if upper == t.debt then t.collateral else t.Pay(upper);
    var maxCover := t.debt;
    if maxPay != t.collateral {
      FloorMonotone(maxPay, t.collateral, t.matchDebt, t.matchCollateral);
      maxCover :- Checked(t.Cover(maxPay));
    }
    if maxCover >= t.debt {
      maxPay, maxCover := t.collateral, t.debt;
    }
    return Some((maxPay, maxCover));
  }

  // ------------------------------------------------------------------
  // No more than needed

  /** A bracket whose upper end is good is searched no further. */
  lemma {:induction false} BisectedBelow(t: Terms, minPay: nat, minCover: nat, maxPay: nat, maxCover: nat, maxIsOk: bool)
    requires Bracket(t, minPay, minCover, maxPay, maxCover, maxIsOk)
    requires maxIsOk || maxPay == t.collateral || t.AboveTarget(maxPay, maxCover)
    ensures !Bisected(t, minPay, minCover, maxPay, maxCover, maxIsOk).TooSmall?
    decreases maxPay - minPay
  {
    hide Terms.AboveTarget;
    hide Terms.Stable;
    hide MeanOf;
    hide MeanOverflows;
    MeanInBracket(t, minPay, minCover, maxPay, maxCover);
    var (pay, cover) := MeanOf(t, minPay, minCover, maxPay, maxCover);
    if !MeanOverflows(t, minPay, minCover, maxPay, maxCover) && pay != maxPay {
      if t.AboveTarget(pay, cover) {
        BisectedBelow(t, minPay, minCover, pay, cover, true);
      } else {
        BisectedBelow(t, pay, cover, maxPay, maxCover, maxIsOk);
      }
    }
  }

  /** With a unit of debt to spare for rounding, the ratio a/b is reached. */
  lemma EnoughIsAbove(a: nat, b: nat, mc: nat, md: nat, debt: nat, collateral: nat, c: nat, pay: nat)
    requires md > 0 && b <= a && c <= debt && pay <= collateral && pay * md < c * mc + md
    requires a * (md * (debt + 1)) + b * (c * mc) < a * (c * md) + b * (md * collateral)
    ensures (debt - c) * a < (collateral - pay) * b
  {
    ProductMonotone(pay * md, c * mc + md, b);
    ProductMonotone(b, a, md);
    Spread(b, pay * md, c * mc, md);
    Spread(a, md * (debt + 1), md * debt, md);
    Difference(md, debt, c, a);
    Difference(md, collateral, pay, b);
    PositiveFactor(md, (collateral - pay) * b - (debt - c) * a);
  }

  lemma Spread(b: nat, w: nat, x: nat, y: nat)
    ensures w * b == b * w && (x + y) * b == b * x + y * b && b * (x + y) == b * x + b * y && y * b == b * y
  {
  }

  lemma Difference(m: nat, x: nat, y: nat, a: nat)
    requires y <= x
    ensures m * ((x - y) * a) == a * (m * x) - a * (y * m)
  {
  }

  /// `u` of debt would do for the ratio a/b even if a whole unit were lost by rounding.
  ghost predicate Ample(t: Terms, a: nat, b: nat, u: nat) {
    a * (t.matchDebt * (t.debt + 1)) + b * (u * t.matchCollateral) < a * (u * t.matchDebt) + b * (t.matchDebt * t.collateral)
  }

  /// The target collateralization is a/b.
  ghost predicate Aims(t: Terms, a: nat, b: nat) {
    b > 0 && t.target.quote.amount > 0 && t.target.base.amount * b == a * t.target.quote.amount
  }

  lemma AmplePairIsAbove(t: Terms, a: nat, b: nat, u: nat, cover: nat, pay: nat)
    requires t.AboveWater() && Aims(t, a, b) && b <= a && u <= cover < t.debt && pay < t.collateral
    requires b * t.matchCollateral < a * t.matchDebt && Ample(t, a, b, u)
    requires pay * t.matchDebt < cover * t.matchCollateral + t.matchDebt
    ensures t.AboveTarget(pay, cover)
  {
    var mc, md := t.matchCollateral, t.matchDebt;
    assert a * (md * (t.debt + 1)) + b * (cover * mc) < a * (cover * md) + b * (md * t.collateral) by {
      MoreIsAmple(a * md, b * mc, u, cover);
      Regroup(a, u, md);
      Regroup(a, cover, md);
      Regroup(b, u, mc);
      Regroup(b, cover, mc);
    }
    EnoughIsAbove(a, b, mc, md, t.debt, t.collateral, cover, pay);
    SameComparison(t.target.base.amount, t.target.quote.amount, a, b, t.collateral - pay, t.debt - cover);
  }

  lemma MoreIsAmple(x: nat, y: nat, u: nat, c: nat)
    requires y <= x && u <= c
    ensures u * x - u * y <= c * x - c * y
  {
    ProductMonotone(u, c, x - y);
    assert u * (x - y) == u * x - u * y && c * (x - y) == c * x - c * y;
  }

  /** A good upper bound is never passed. */
  lemma SearchedAtMost(t: Terms, estimate: nat, upper: nat)
    requires t.AboveWater() && estimate < t.debt && estimate < upper
    requires upper < t.debt ==> t.Pay(upper) < t.collateral
    requires t.Pay(StableCover(t, estimate)) < t.collateral
    requires upper < t.debt && t.Cover(t.Pay(upper)) < t.debt ==> t.AboveTarget(t.Pay(upper), t.Cover(t.Pay(upper)))
    ensures var r := Searched(t, estimate, upper); r.Found? ==> r.cover <= t.Cover(t.Pay(upper))
  {
    hide StableCover;
    hide Terms.AboveTarget;
    hide Terms.Pay;
    hide Terms.Cover;
    hide Bisected;
    hide Advanced;
    StableEstimate(t, estimate);
    RoundUpThenDown(t, upper);
    var cover := StableCover(t, estimate);
    if upper < t.debt && t.Cover(t.Pay(upper)) < t.debt {
      var maxPay := t.Pay(upper);
      UpperEnd(t, upper);
      StablePairsOrdered(t, cover, upper);
      if !t.AboveTarget(t.Pay(cover), cover) && !UpperOverflows(t, upper) {
        BisectedBelow(t, t.Pay(cover), cover, maxPay, t.Cover(maxPay), false);
      }
    }
  }

  lemma StablePairsOrdered(t: Terms, cover: nat, upper: nat)
    requires t.Positive() && t.Stable(t.Pay(cover), cover) && cover < upper
    ensures t.Pay(cover) < t.Pay(upper)
  {
    RoundUpThenDown(t, upper);
    CeilMonotone(cover, upper, t.matchCollateral, t.matchDebt);
  }

  /** The searches stay below what an ample amount and the collateral paid for it buy. */
  lemma SearchedBelow(t: Terms, estimate: nat, upper: nat, a: nat, b: nat, u: nat)
    requires t.AboveWater() && estimate < t.debt && estimate < upper <= u && Aims(t, a, b) && b <= a
    requires b * t.matchCollateral < a * t.matchDebt && Ample(t, a, b, upper) && LeavesCollateral(t, u)
    ensures var r := Searched(t, estimate, upper);
      r.Found? ==> r.cover * t.matchCollateral < u * t.matchCollateral + t.matchDebt
  {
    hide StableCover;
    hide Searched;
    hide Terms.AboveTarget;
    hide Terms.Pay;
    hide Terms.Cover;
    hide LeavesCollateral;
    hide Ample;
    hide Aims;
    StableEstimate(t, estimate);
    CheapEnough(t, StableCover(t, estimate), u);
    CheapEnough(t, upper, u);
    CostBelow(t, upper, u);
    if upper < t.debt && t.Cover(t.Pay(upper)) < t.debt {
      AmplePairIsAbove(t, a, b, upper, t.Cover(t.Pay(upper)), t.Pay(upper));
    }
    SearchedAtMost(t, estimate, upper);
    var r := Searched(t, estimate, upper);
    if r.Found? { ProductMonotone(r.cover, t.Cover(t.Pay(upper)), t.matchCollateral); }
  }

  lemma CostBelow(t: Terms, upper: nat, u: nat)
    requires t.Positive() && upper <= u
    ensures var pay := t.Pay(upper);
      && upper <= t.Cover(pay) && t.Cover(pay) * t.matchCollateral < u * t.matchCollateral + t.matchDebt
      && pay * t.matchDebt < t.Cover(pay) * t.matchCollateral + t.matchDebt
  {
    var mc, md, pay := t.matchCollateral, t.matchDebt, t.Pay(upper);
    RoundUpThenDown(t, upper);
    LeastBelow(upper, mc, md);
    FloorIsGreatest(pay, md, mc, t.Cover(pay));
    ProductMonotone(upper, u, mc);
    ProductMonotone(upper, t.Cover(pay), mc);
  }

  /** The debt to cover is no more than needed.  Take any amount `u` that brings the position
      to the larger ratio `k` even if a whole unit of debt were lost by rounding, and that
      costs less than the collateral: what is covered costs less than one unit of collateral
      more than `u` does.  This needs a unit of collateral to be worth no more than a unit of
      debt at that ratio; otherwise rounding may cost more than the unit that is allowed for. */
  lemma CoversNoMoreThanNeeded(call: CallOrder, matchPrice: Price, feed: Price, mcr: nat, k: nat, u: nat, r: nat)
    requires call.Valid() && matchPrice.Valid() && feed.Valid() && mcr > 0 && call.targetRatio.Some?
    requires Quotes(Oriented(matchPrice, call), call) && Quotes(Oriented(feed, call), call) && ExactRatios(call, feed, mcr)
    requires k >= mcr && k >= call.targetRatio.value && (k == mcr || k == call.targetRatio.value)
    requires MaxDebt(call, matchPrice, feed, mcr) == Some(r)
    requires
      var mc, md := AmountOf(matchPrice, call.collateral.id), AmountOf(matchPrice, call.debt.id);
      var a, b := AmountOf(feed, call.collateral.id) * k, AmountOf(feed, call.debt.id) * RATIO_DENOM;
      && b <= a && u * mc <= (call.collateral.amount - 1) * md
      && a * (md * (call.debt.amount + 1)) + b * (u * mc) < a * (u * md) + b * (md * call.collateral.amount)
    ensures
      var mc, md := AmountOf(matchPrice, call.collateral.id), AmountOf(matchPrice, call.debt.id);
      r * mc < u * mc + md
  {
    hide Scale;
    hide Searched;
    hide ScalesExactly;
    hide Estimate.Numerator;
    hide Estimate.Denominator;
    hide Estimate.OneUnit;
    var t, e := TermsOf(call, matchPrice, feed, mcr), EstimateOf(call, matchPrice, feed, mcr);
    var fp := Oriented(feed, call);
    ScaleExact(fp, k, RATIO_DENOM);
    EstimateIn(e, t.collateral, t.debt, k, fp.base.amount * k, fp.quote.amount * RATIO_DENOM);
    var n, d := e.Numerator(t.collateral, t.debt), e.Denominator();
    if n >= 0 && d > 0 && n / d < t.debt { EstimateBelowDebt(e, t.collateral, t.debt); }
    CoverBounded(t, n, d, e.OneUnit(), fp.base.amount * k, fp.quote.amount * RATIO_DENOM, u, r);
  }

  /// Numerator, denominator and allowance of the estimate for the ratio a/b.
  ghost predicate Estimates(t: Terms, a: nat, b: nat, n: int, d: int, one: nat) {
    && n == a * (t.matchDebt * t.debt) - b * (t.matchDebt * t.collateral)
    && d == a * t.matchDebt - b * t.matchCollateral && one == a * t.matchDebt
  }

  /// Collateral is left after paying for `u`.
  ghost predicate LeavesCollateral(t: Terms, u: nat) {
    u * t.matchCollateral <= (t.collateral - 1) * t.matchDebt
  }

  lemma CoverBounded(t: Terms, n: int, d: int, one: nat, a: nat, b: nat, u: nat, r: nat)
    requires t.Positive() && Aims(t, a, b) && b <= a && LeavesCollateral(t, u) && Ample(t, a, b, u) && Estimates(t, a, b, n, d, one)
    requires n >= 0 && d > 0 && n / d < t.debt ==> t.AboveWater()
    requires
      if n < 0 then r == 0
      else if d <= 0 || n / d >= t.debt then r == t.debt
      else Searched(t, n / d, (n + one) / d + 1) == Found(r)
    ensures r * t.matchCollateral < u * t.matchCollateral + t.matchDebt
  {
    hide Searched;
    hide Ample;
    hide Aims;
    hide Estimates;
    hide LeavesCollateral;
    hide Terms.AboveWater;
    AmpleIff(t, a, b, u, n, d, one);
    if n < 0 {
      ProductMonotone(0, u, t.matchCollateral);
    } else {
      UpperIsAmple(n, one, d, u);
      if n / d >= t.debt {
        ProductMonotone(t.debt, u, t.matchCollateral);
      } else {
        var upper := (n + one) / d + 1;
        AmpleIff(t, a, b, upper, n, d, one);
        SearchedBelow(t, n / d, upper, a, b, u);
      }
    }
  }

  lemma UpperIsAmple(n: nat, one: nat, d: int, u: nat)
    requires d > 0 && n + one < u * d
    ensures n / d < (n + one) / d + 1 <= u && n + one < ((n + one) / d + 1) * d
  {
    LastMultiple(n + one, d, u);
    LastMultiple(n + one, d, (n + one) / d + 1);
    QuotientGrows(n, n + one, d);
  }

  lemma AmpleIff(t: Terms, a: nat, b: nat, u: nat, n: int, d: int, one: nat)
    requires Estimates(t, a, b, n, d, one)
    ensures Ample(t, a, b, u) <==> n + one < u * d
    ensures n >= 0 && Ample(t, a, b, u) ==> d > 0
    ensures d > 0 ==> b * t.matchCollateral < a * t.matchDebt
  {
    AmpleMeans(a, b, t.matchCollateral, t.matchDebt, t.debt, t.collateral, u, n, d);
  }

  lemma EstimateIn(e: Estimate, collateral: nat, debt: nat, k: nat, a: nat, b: nat)
    requires e.ratio == k && a == e.feedCollateral * k && b == e.feedDebt * RATIO_DENOM
    ensures e.Numerator(collateral, debt) == a * (e.matchDebt * debt) - b * (e.matchDebt * collateral)
    ensures e.Denominator() == a * e.matchDebt - b * e.matchCollateral && e.OneUnit() == a * e.matchDebt
  {
    assert e.feedCollateral * e.matchDebt * debt * k == a * (e.matchDebt * debt);
    assert e.feedDebt * e.matchDebt * collateral * RATIO_DENOM == b * (e.matchDebt * collateral);
    assert e.feedCollateral * e.matchDebt * k == a * e.matchDebt;
    assert e.feedDebt * e.matchCollateral * RATIO_DENOM == b * e.matchCollateral;
  }

  /** An amount is ample exactly when its multiple of the denominator exceeds the numerator
      and the unit allowed for. */
  lemma AmpleMeans(a: nat, b: nat, mc: nat, md: nat, debt: nat, collateral: nat, u: nat, n: int, d: int)
    requires n == a * (md * debt) - b * (md * collateral) && d == a * md - b * mc
    ensures a * (md * (debt + 1)) + b * (u * mc) < a * (u * md) + b * (md * collateral) <==> n + a * md < u * d
    ensures n >= 0 && n + a * md < u * d ==> d > 0
  {
    assert a * (md * (debt + 1)) == a * (md * debt) + a * md;
    assert u * d == u * (a * md) - u * (b * mc);
    Regroup(a, u, md);
    Regroup(b, u, mc);
    assert u * (a * md) == a * (u * md) && u * (b * mc) == b * (u * mc);
  }

  lemma LastMultiple(x: nat, d: int, u: nat)
    requires d > 0
    ensures x < u * d <==> x / d + 1 <= u
  {
    DivisionBounds(x, d);
    ProductLess(x / d, u, d);
    if u <= x / d { ProductMonotone(u, x / d, d); }
  }

  lemma QuotientGrows(x: nat, y: nat, d: int)
    requires d > 0 && x <= y
    ensures x / d <= y / d
  {
    DivisionBounds(x, d);
    DivisionBounds(y, d);
    ProductLess(y / d, x / d, d);
  }

  lemma CheapEnough(t: Terms, c: nat, u: nat)
    requires t.Positive() && c <= u && LeavesCollateral(t, u)
    ensures t.Pay(c) < t.collateral
  {
    ProductMonotone(c, u, t.matchCollateral);
    CeilIsLeast(c, t.matchCollateral, t.matchDebt, t.collateral - 1);
  }

  lemma LeastBelow(c: nat, mc: nat, md: nat)
    requires md > 0
    ensures CeilMul(c, mc, md) * md < c * mc + md
  {
    DivisionBounds(c * mc + md - 1, md);
  }

  // ------------------------------------------------------------------
  // When nothing is covered, and when operator* throws

  lemma CancelFactor(k: nat, x: int, y: int)
    requires k > 0 && k * x <= k * y
    ensures x <= y
  {
    if y < x {
      PositiveDifference(k, x, y);
    }
  }

  lemma PositiveDifference(k: nat, x: int, y: int)
    requires k > 0 && y < x
    ensures k * y < k * x
  {
    assert k * x - k * y == k * (x - y);
  }

  /** If debt/collateral is at least quote/base of the price b/q scaled by m, it
      is at least that of b/q scaled by any larger ratio r. */
  lemma WorseThanScaled(debt: nat, collateral: nat, b: nat, q: nat, m: nat, r: nat, mb: nat, mq: nat)
    requires mq > 0 && m <= r
    requires mb * (q * RATIO_DENOM) == (b * m) * mq
    requires mq * collateral <= debt * mb
    ensures collateral * (q * RATIO_DENOM) <= debt * (b * r)
  {
    var k := q * RATIO_DENOM;
    assert mq * (collateral * k) <= mq * (debt * (b * m)) by {
      ProductMonotone(mq * collateral, debt * mb, k);
      Regroup(mq, collateral, k);
      Regroup(debt, mb, k);
      Regroup(debt, b * m, mq);
    }
    CancelFactor(mq, collateral * k, debt * (b * m));
    assert debt * (b * m) <= debt * (b * r) by {
      ProductMonotone(m, r, debt * b);
      Regroup(debt, b, m);
      Regroup(debt, b, r);
    }
  }

  /** A position in margin call territory is never already above its target, as
      long as both scaled prices are exact: then a called position with a target
      ratio always covers at least one unit. */
  lemma CalledPositionCoversSomething(call: CallOrder, matchPrice: Price, feed: Price, mcr: nat)
    requires call.Valid() && matchPrice.Valid() && feed.Valid() && mcr > 0
    requires ScalesExactly(Oriented(feed, call), mcr, RATIO_DENOM)
    requires ScalesExactly(Oriented(feed, call), EffectiveRatio(call, mcr), RATIO_DENOM)
    requires !Less(Scale(Oriented(feed, call), mcr, RATIO_DENOM), call.Collateralization())
    ensures !CoversNothing(call, matchPrice, feed, mcr)
  {
    var fp, r := Oriented(feed, call), EffectiveRatio(call, mcr);
    var m, t := Scale(fp, mcr, RATIO_DENOM), Scale(fp, r, RATIO_DENOM);
    var debt, collateral, b, q := call.debt.amount, call.collateral.amount, fp.base.amount, fp.quote.amount;
    ScaleExact(fp, mcr, RATIO_DENOM);
    WorseThanScaled(debt, collateral, b, q, mcr, r, m.base.amount, m.quote.amount);
    ScaleExact(fp, r, RATIO_DENOM);
    NotAboveTarget(debt, collateral, b, q, r, t.base.amount, t.quote.amount);
    NumeratorNonNegative(EstimateOf(call, matchPrice, feed, mcr), collateral, debt);
  }

  lemma NotAboveTarget(debt: nat, collateral: nat, b: nat, q: nat, r: nat, tb: nat, tq: nat)
    requires q > 0
    requires tb * (q * RATIO_DENOM) == (b * r) * tq
    requires collateral * (q * RATIO_DENOM) <= debt * (b * r)
    ensures tq * collateral <= debt * tb
  {
    var k := q * RATIO_DENOM;
    assert k * (tq * collateral) <= k * (debt * tb) by {
      ProductMonotone(collateral * k, debt * (b * r), tq);
      Regroup(k, collateral, tq);
      Regroup(debt, b * r, tq);
      Regroup(debt, tb, k);
    }
    CancelFactor(k, tq * collateral, debt * tb);
  }

  lemma NumeratorNonNegative(e: Estimate, collateral: nat, debt: nat)
    requires collateral * (e.feedDebt * RATIO_DENOM) <= debt * (e.feedCollateral * e.ratio)
    ensures e.Numerator(collateral, debt) >= 0
  {
    ProductMonotone(collateral * (e.feedDebt * RATIO_DENOM), debt * (e.feedCollateral * e.ratio), e.matchDebt);
    assert (collateral * (e.feedDebt * RATIO_DENOM)) * e.matchDebt
        == e.feedDebt * e.matchDebt * collateral * RATIO_DENOM;
    assert (debt * (e.feedCollateral * e.ratio)) * e.matchDebt
        == e.feedCollateral * e.matchDebt * debt * e.ratio;
  }

  lemma FirstMeanThrows(call: CallOrder, matchPrice: Price, feed: Price, mcr: nat)
    requires call.Valid() && matchPrice.Valid() && feed.Valid() && mcr > 0 && FirstMeanOverflows(call, matchPrice, feed, mcr)
    ensures SearchOverflows(call, matchPrice, feed, mcr)
  {
    hide StableCover;
    hide Upper;
    hide MeanOverflows;
    hide UpperOverflows;
    hide Terms.AboveTarget;
    hide Terms.Pay;
    hide Terms.Cover;
    var t, e := TermsOf(call, matchPrice, feed, mcr), EstimateOf(call, matchPrice, feed, mcr);
    EstimateBelowDebt(e, t.collateral, t.debt);
  }

  lemma OverflowingPosition()
    ensures
      var call := CallOrder(0, Asset(100_000_000_000_000, 0), Asset(1, 1), Some(2000));
      var matchPrice := Price(Asset(1, 0), Asset(1_000_000, 1));
      var feed := Price(Asset(100_000_000_000_000, 0), Asset(1, 1));
      && !Less(Scale(feed, 1750, RATIO_DENOM), call.Collateralization())
      && FirstMeanOverflows(call, matchPrice, feed, 1750)
  {
    hide Scale;
    var feed := Price(Asset(100_000_000_000_000, 0), Asset(1, 1));
    TenThousandFits();
    ScaleExact(feed, 1750, RATIO_DENOM);
    ScaleExact(feed, 2000, RATIO_DENOM);
  }

  lemma TenThousandFits()
    ensures var feed := Price(Asset(100_000_000_000_000, 0), Asset(1, 1));
      ScalesExactly(feed, 1750, RATIO_DENOM) && ScalesExactly(feed, 2000, RATIO_DENOM)
  {
    assert Gcd(100_000_000_000_000 * 1750, 1000) == 1000;
    assert Gcd(100_000_000_000_000 * 2000, 1000) == 1000;
  }

  /** operator* can throw in the middle of the binary search: one unit of debt
      backed by 10^14 of collateral, matched at a price of one millionth, starts
      from the empty pair with the whole position as upper bound, and the value
      of the mean payment exceeds the share supply. */
  method MeanCanOverflow() returns (r: Option<nat>)
    ensures r.None?
  {
    hide Scale;
    hide FirstMeanOverflows;
    hide SearchOverflows;
    hide CoversNothing;
    hide Less;
    var call := CallOrder(0, Asset(100_000_000_000_000, 0), Asset(1, 1), Some(2000));
    var matchPrice := Price(Asset(1, 0), Asset(1_000_000, 1));
    var feed := Price(Asset(100_000_000_000_000, 0), Asset(1, 1));
    OverflowingPosition();
    FirstMeanThrows(call, matchPrice, feed, 1750);
    r := GetMaxDebtToCover(call, matchPrice, feed, 1750, Scale(feed, 1750, RATIO_DENOM));
  }

  lemma InexactMaintenance()
    ensures Scale(Price(Asset(3, 0), Asset(400_000_000_000_000, 1)), 1750, RATIO_DENOM)
         == Price(Asset(1, 0), Asset(76_190_476_190_476, 1))
  {
    var p := Price(Asset(3, 0), Asset(400_000_000_000_000, 1));
    var exact := Fraction(21, 1_600_000_000_000_000);
    assert ScaledFraction(p, 1750, RATIO_DENOM) == exact by {
      assert Gcd(1000, 250) == 250;
      assert Gcd(5250, 1000) == 250;
      assert Gcd(400_000_000_000_000_000, 5250) == 250;
      assert Gcd(5250, 400_000_000_000_000_000) == 250;
    }
    assert ShrinkToFit(exact) == Fraction(1, 80_000_000_000_000) by {
      assert Gcd(800_000_000_000_000, 10) == 10;
      assert Gcd(10, 800_000_000_000_000) == 10;
      assert Fraction(10, 800_000_000_000_000).Reduce() == Fraction(1, 80_000_000_000_000);
    }
    assert UnitCandidate(exact) == Fraction(1, 76_190_476_190_476);
    assert Closer(Fraction(1, 76_190_476_190_476), Fraction(1, 80_000_000_000_000), exact);
  }

  /** A called position can cover nothing: scaled to the share supply, the maintenance
      collateralization is a little above the exact one, and the position sits between
      the two.  The margin-call loops then repeat a match that trades nothing. */
  lemma CalledButCoversNothing(matchPrice: Price)
    requires matchPrice.Valid()
    ensures
      var call := CallOrder(0, Asset(10, 0), Asset(761_904_761_904_760, 1), Some(1750));
      var feed := Price(Asset(3, 0), Asset(400_000_000_000_000, 1));
      && call.Valid() && !Less(Scale(feed, 1750, RATIO_DENOM), call.Collateralization())
      && CoversNothing(call, matchPrice, feed, 1750)
  {
    hide Scale;
    InexactMaintenance();
    var call := CallOrder(0, Asset(10, 0), Asset(761_904_761_904_760, 1), Some(1750));
    var e := EstimateOf(call, matchPrice, Price(Asset(3, 0), Asset(400_000_000_000_000, 1)), 1750);
    assert e.Numerator(10, 761_904_761_904_760)
        == e.matchDebt * (3 * 761_904_761_904_760 * 1750 - 400_000_000_000_000 * 10 * 1000);
  }
}
