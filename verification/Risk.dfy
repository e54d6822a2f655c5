/** From balance to order size to signed amount: nothing is signed that the balance cannot pay. */
module Risk {
  import opened Wrappers
  import opened Decimals

  datatype Side = Buy | Sell

  /** A zero `maxOrder` means no absolute cap. */
  datatype RiskConfig = RiskConfig(maxOrder: real, maxPct: real, minShareSize: real)

  datatype AllocError =
    | SellUnsupported | PriceNotPositive | BalanceUnavailable | InsufficientBalance | AllocatedZero | BelowMinimum

  /** The USDC set aside for an order: the least of a share of the balance, the cap if any, and the balance. */
  function Allocated(available: real, cfg: RiskConfig): (r: real)
    ensures r <= available && r <= available * cfg.maxPct
    ensures cfg.maxOrder > 0.0 ==> r <= cfg.maxOrder
    ensures r == available * cfg.maxPct || (cfg.maxOrder > 0.0 && r == cfg.maxOrder) || r == available
  {
    var byPct := available * cfg.maxPct;
    var capped := if cfg.maxOrder > 0.0 && byPct > cfg.maxOrder then cfg.maxOrder else byPct;
    if capped > available then available else capped
  }

  function Available(raw: int): real {
    raw as real / MICRO
  }

  /** The share size of a signal; `raw` is the balance in millionths, None when it cannot be read. */
  function Allocation(raw: Option<int>, cfg: RiskConfig, side: Side, price: real): Result<real, AllocError> {
    if side != Buy then Err(SellUnsupported)
    else if price <= 0.0 then Err(PriceNotPositive)
    else if raw == None then Err(BalanceUnavailable)
    else if Available(raw.value) <= 0.0 then Err(InsufficientBalance)
    else if Allocated(Available(raw.value), cfg) <= 0.0 then Err(AllocatedZero)
    else
      var size := Truncate2(Div(Allocated(Available(raw.value), cfg), price));
      if size < cfg.minShareSize then Err(BelowMinimum) else Ok(size)
  }

  method Allocate(raw: Option<int>, cfg: RiskConfig, side: Side, price: real) returns (r: Result<real, AllocError>)
    ensures r == Allocation(raw, cfg, side, price)
  {
    hide Div, Truncate2;
    if side != Buy {
      return Err(SellUnsupported);
    }
    if !(price > 0.0) {
      return Err(PriceNotPositive);
    }
    if raw.None? {
      return Err(BalanceUnavailable);
    }
    var available := Available(raw.value);
    if !(available > 0.0) {
      return Err(InsufficientBalance);
    }
    var budget := available * cfg.maxPct;
    if cfg.maxOrder > 0.0 && budget > cfg.maxOrder {
      budget := cfg.maxOrder;
    }
    if budget > available {
      budget := available;
    }
    if !(budget > 0.0) {
      return Err(AllocatedZero);
    }
    assert budget == Allocated(available, cfg);
    var size := Truncate2(Div(budget, price));
    if size < cfg.minShareSize {
      return Err(BelowMinimum);
    }
    return Ok(size);
  }

  // The signed amounts.

  function UsdcToMicro(amount: real): int {
    RoundHalfAway(amount * MICRO)
  }

  datatype Amounts = Amounts(maker: int, taker: int)

  function ComputeAmounts(side: Side, price: real, size: real): Amounts {
    if side == Buy then Amounts(UsdcToMicro(price * size), RoundHalfAway(size * MICRO))
    else Amounts(RoundHalfAway(size * MICRO), UsdcToMicro(price * size))
  }

  /** The size pays for the allocation, up to the errors of the division and the truncation. */
  lemma SizeOfAllocation(budget: real, price: real)
    requires budget > 0.0 && price > 0.0
    ensures var size := Truncate2(Div(budget, price));
            && size >= 0.0
            && size * price <= budget + DIV_ERROR * price
            && budget - size * price < (0.01 + DIV_ERROR) * price
  {
    var d := Div(budget, price);
    var size := Truncate2(d);
    DivBounds(budget, price);
    Quotient(budget, price);
    TruncateBounds(d);
    hide Div, Truncate2;
    Overspent(budget, price, size, DIV_ERROR);
    Unspent(budget, price, size, 0.01 + DIV_ERROR);
  }

  lemma Overspent(budget: real, price: real, size: real, error: real)
    requires budget > 0.0 && price > 0.0 && size <= budget / price + error
    ensures size * price <= budget + error * price
  {
    Quotient(budget, price);
    TimesMonotonic(size, budget / price + error, price);
    Distribute(budget / price, error, 0.0, price);
  }

  lemma Unspent(budget: real, price: real, size: real, error: real)
    requires budget > 0.0 && price > 0.0 && budget / price < size + error
    ensures budget - size * price < error * price
  {
    Quotient(budget, price);
    Positive(size + error - budget / price, price);
    Distribute(size, error, budget / price, price);
  }

  lemma Distribute(x: real, y: real, z: real, p: real)
    ensures (x + y - z) * p == x * p + y * p - z * p
  {
  }

  lemma Quotient(x: real, y: real)
    requires x > 0.0 && y > 0.0
    ensures x / y > 0.0 && x / y * y == x
  {
  }

  lemma Positive(x: real, y: real)
    requires x > 0.0 && y > 0.0
    ensures x * y > 0.0
  {
  }

  /**
   What the allocator may set aside of `raw` millionths: `l` is the least of the percentage of the balance,
   the cap if there is one, and the balance.
   */
  predicate LeastAllowance(raw: int, cfg: RiskConfig, l: real) {
    var balance := raw as real / 1000000.0;
    && l <= balance * cfg.maxPct && l <= balance && (cfg.maxOrder > 0.0 ==> l <= cfg.maxOrder)
    && (l == balance * cfg.maxPct || l == balance || (cfg.maxOrder > 0.0 && l == cfg.maxOrder))
  }

  lemma AllocatedIsLeast(raw: int, cfg: RiskConfig, l: real)
    ensures LeastAllowance(raw, cfg, l) <==> l == Allocated(Available(raw), cfg)
  {
  }

  /** Why an allocation is refused: the first of these reasons that applies. */
  lemma RefusalMeaning(raw: Option<int>, cfg: RiskConfig, side: Side, price: real)
    ensures var e := ErrorOf(Allocation(raw, cfg, side, price));
            if side == Sell then e == Some(SellUnsupported)
            else if price <= 0.0 then e == Some(PriceNotPositive)
            else if raw.None? then e == Some(BalanceUnavailable)
            else if raw.value <= 0 then e == Some(InsufficientBalance)
            else if cfg.maxPct <= 0.0 then e == Some(AllocatedZero)
            else e in {None, Some(BelowMinimum)}
  {
    hide Div, Truncate2;
    if raw.Some? && raw.value > 0 {
      var balance := Available(raw.value);
      if cfg.maxPct > 0.0 {
        Positive(balance, cfg.maxPct);
      } else {
        TimesMonotonic(cfg.maxPct, 0.0, balance);
      }
    }
  }

  /** The size is in hundredths, not below the minimum, affordable, and a hundredth more would not be. */
  lemma AllocationMeaning(raw: int, cfg: RiskConfig, price: real, l: real)
    requires LeastAllowance(raw, cfg, l)
    ensures var r := Allocation(Some(raw), cfg, Buy, price);
            && (r.Ok? ==>
                  && Hundredths(r.value) && r.value >= cfg.minShareSize && r.value >= 0.0
                  && r.value * price <= l + DIV_ERROR * price
                  && l - r.value * price < (0.01 + DIV_ERROR) * price)
            && (r == Err(BelowMinimum) ==> l - cfg.minShareSize * price < (0.01 + DIV_ERROR) * price)
  {
    hide *;
    AllocatedIsLeast(raw, cfg, l);
    AllocationSucceeded(raw, cfg, price);
    var r := Allocation(Some(raw), cfg, Buy, price);
    if r.Ok? || r == Err(BelowMinimum) {
      SizeOfAllocation(l, price);
      TruncateBounds(Div(l, price));
      DivBounds(l, price);
      Quotient(l, price);
      if r == Err(BelowMinimum) {
        Unspent(l, price, cfg.minShareSize, 0.01 + DIV_ERROR);
      }
    }
  }

  /** Signed spending stays within the balance, the percentage and the cap, each in millionths rounded up. */
  lemma SpendWithinBalance(raw: int, cfg: RiskConfig, price: real, limit: int)
    requires price < 10000000000.0
    ensures var r := Allocation(Some(raw), cfg, Buy, price);
            r.Ok? && Limits(raw, cfg, limit) ==> ComputeAmounts(Buy, price, r.value).maker <= limit
  {
    hide *;
    var r := Allocation(Some(raw), cfg, Buy, price);
    if r.Ok? && Limits(raw, cfg, limit) {
      var l := Allocated(Available(raw), cfg);
      AllocationSucceeded(raw, cfg, price);
      AllocatedIsLeast(raw, cfg, l);
      SizeOfAllocation(l, price);
      LimitCovers(raw, cfg, limit, l);
      SignedAmount(l, price, r.value, limit);
    }
  }

  /** `limit` millionths are no less than the balance, the percentage of it, or the cap. */
  predicate Limits(raw: int, cfg: RiskConfig, limit: int) {
    || limit >= raw
    || limit as real >= raw as real * cfg.maxPct
    || (cfg.maxOrder > 0.0 && limit as real >= cfg.maxOrder * 1000000.0)
  }

  lemma LimitCovers(raw: int, cfg: RiskConfig, limit: int, l: real)
    requires Limits(raw, cfg, limit) && LeastAllowance(raw, cfg, l)
    ensures l <= Available(limit)
  {
    assert raw as real / 1000000.0 * cfg.maxPct == raw as real * cfg.maxPct / 1000000.0;
  }

  lemma AllocationSucceeded(raw: int, cfg: RiskConfig, price: real)
    ensures var r := Allocation(Some(raw), cfg, Buy, price);
            r.Ok? || r == Err(BelowMinimum) ==>
              && price > 0.0 && Available(raw) > 0.0 && Allocated(Available(raw), cfg) > 0.0
              && var size := Truncate2(Div(Allocated(Available(raw), cfg), price));
                 if r.Ok? then r.value == size >= cfg.minShareSize else size < cfg.minShareSize
  {
    hide Div, Truncate2, Allocated;
  }

  lemma SignedAmount(budget: real, price: real, size: real, micros: int)
    requires size * price <= budget + DIV_ERROR * price && budget <= Available(micros)
    requires 0.0 < price < 10000000000.0
    ensures UsdcToMicro(price * size) == ComputeAmounts(Buy, price, size).maker <= micros
  {
    assert price * size == size * price;
    RoundBelow(price * size * MICRO, micros);
  }

  /** No allocation at a price below the bound signs more than the balance. */
  ghost predicate NeverOverspends(bound: real) {
    forall raw, cfg, price :: price < bound && Allocation(Some(raw), cfg, Buy, price).Ok? ==>
      ComputeAmounts(Buy, price, Allocation(Some(raw), cfg, Buy, price).value).maker <= raw
  }

  /** The price bound is the least one: direct calls are safe exactly up to 10^10. */
  lemma SpendBoundIsExact(bound: real)
    ensures NeverOverspends(bound) <==> bound <= 10000000000.0
  {
    hide Allocation, ComputeAmounts;
    if bound <= 10000000000.0 {
      forall raw, cfg, price | price < bound && Allocation(Some(raw), cfg, Buy, price).Ok?
        ensures ComputeAmounts(Buy, price, Allocation(Some(raw), cfg, Buy, price).value).maker <= raw
      {
        SpendWithinBalance(raw, cfg, price, raw);
      }
    } else {
      var n := (0.00005 / (bound - 10000000000.0)).Floor + 1;
      WitnessBelow(bound, n);
      SpendBeyondBalance(n);
    }
  }

  /** A price above 10^10 that is the closer to it the larger n is. */
  function TemptingPrice(n: int): real
    requires n >= 1
  {
    10000000000.0 + 0.00005 / n as real
  }

  lemma WitnessBelow(bound: real, n: int)
    requires bound > 10000000000.0 && n == (0.00005 / (bound - 10000000000.0)).Floor + 1
    ensures n >= 1 && TemptingPrice(n) < bound
  {
    var gap := bound - 10000000000.0;
    Quotient(0.00005, gap);
    TimesMonotonic(0.00005 / gap, n as real, gap);
    Positive(n as real - 0.00005 / gap, gap);
    SmallerQuotient(0.00005, n as real, gap);
  }

  lemma SmallerQuotient(x: real, y: real, z: real)
    requires x > 0.0 && y > 0.0 && y * z > x
    ensures x / y < z
  {
    Quotient(x, y);
    if x / y >= z {
      TimesMonotonic(z, x / y, y);
    }
  }

  /** Above 10^10 the quotient can round up to a size that costs half a millionth too much. */
  lemma SpendBeyondBalance(n: int)
    requires n >= 1
    ensures var raw, cfg, size := 100000000000000 * n, RiskConfig(0.0, 1.0, 0.01), 0.01 * n as real;
            && Allocation(Some(raw), cfg, Buy, TemptingPrice(n)) == Ok(size)
            && ComputeAmounts(Buy, TemptingPrice(n), size).maker == raw + 1
  {
    hide *;
    var raw, cfg := 100000000000000 * n, RiskConfig(0.0, 1.0, 0.01);
    TemptingCost(n);
    TemptingQuotient(n);
    TemptingBudget(n);
    TemptingAmount(n);
    AllocationSucceeds(raw, cfg, TemptingPrice(n), 100000000.0 * n as real, 0.01 * n as real);
  }

  lemma AllocationSucceeds(raw: int, cfg: RiskConfig, price: real, budget: real, size: real)
    requires price > 0.0 && Available(raw) > 0.0 && Allocated(Available(raw), cfg) == budget > 0.0
    requires Truncate2(Div(budget, price)) == size >= cfg.minShareSize
    ensures Allocation(Some(raw), cfg, Buy, price) == Ok(size)
  {
    hide Div, Truncate2, Allocated, Available;
  }

  lemma TemptingBudget(n: int)
    requires n >= 1
    ensures Available(100000000000000 * n) == Allocated(Available(100000000000000 * n), RiskConfig(0.0, 1.0, 0.01))
            == 100000000.0 * n as real > 0.0
    ensures Truncate2(0.01 * n as real) == 0.01 * n as real >= 0.01
  {
    assert 0.01 * n as real * 100.0 == n as real;
  }

  lemma TemptingAmount(n: int)
    requires n >= 1
    ensures ComputeAmounts(Buy, TemptingPrice(n), 0.01 * n as real).maker == 100000000000000 * n + 1
  {
    TemptingCost(n);
    assert TemptingPrice(n) * (0.01 * n as real) * MICRO == TemptingPrice(n) * n as real * 10000.0;
    hide TemptingPrice;
  }

  lemma TemptingCost(n: int)
    requires n >= 1
    ensures TemptingPrice(n) > 10000000000.0
    ensures TemptingPrice(n) * n as real == 10000000000.0 * n as real + 0.00005
  {
    Quotient(0.00005, n as real);
  }

  lemma TemptingQuotient(n: int)
    requires n >= 1
    ensures TemptingPrice(n) > 0.0
    ensures Div(100000000.0 * n as real, TemptingPrice(n)) == 0.01 * n as real
  {
    var price, k := TemptingPrice(n), 100000000000000.0 * n as real;
    TemptingCost(n);
    var q := 100000000.0 * n as real / price;
    Quotient(100000000.0 * n as real, price);
    var x := q * TEN_16;
    assert x * price == k * 10000000000.0;
    assert k * price == k * 10000000000.0 + 5000000000.0;
    RoundsTo(x, price, 100000000000000 * n);
  }

  lemma RoundsTo(x: real, price: real, k: int)
    requires price > 10000000000.0 && k >= 1
    requires k as real * price == x * price + 5000000000.0
    ensures RoundHalfAway(x) == k
  {
    var d := k as real - x;
    assert d * price == 5000000000.0;
    if d > 0.5 {
      TimesMonotonic(0.5, d, price);
    } else if d <= 0.0 {
      TimesMonotonic(d, 0.0, price);
    }
  }

  // The path of a signal: an order is signed only after its expected value is found positive.

  datatype SignalError = BadWinProbability | SellEVUnsupported | NoPrice | NotPositiveEV | NotAllocated(error: AllocError)

  function ExpectedValueBuyPrice(winProb: real, price: real): Result<real, SignalError> {
    if price <= 0.0 then Err(NoPrice) else Ok(Div(winProb, price) - 1.0)
  }

  function ValidatePositiveEV(winProb: real, side: Side, price: real): Option<SignalError> {
    if winProb <= 0.0 || winProb > 1.0 then Some(BadWinProbability)
    else if side == Sell then Some(SellEVUnsupported)
    else
      match ExpectedValueBuyPrice(winProb, price)
      case Err(e) => Some(e)
      case Ok(ev) => if ev > 0.0 then None else Some(NotPositiveEV)
  }

  function ProcessSignal(raw: Option<int>, cfg: RiskConfig, winProb: real, side: Side, price: real): Result<Amounts, SignalError> {
    match ValidatePositiveEV(winProb, side, price)
    case Some(e) => Err(e)
    case None =>
      match Allocation(raw, cfg, side, price)
      case Err(e) => Err(NotAllocated(e))
      case Ok(size) => Ok(ComputeAmounts(side, price, size))
  }

  /** The guard admits a purchase exactly when the chance beats the price by half a unit of the 16th digit. */
  lemma PositiveEVMeaning(winProb: real, side: Side, price: real)
    ensures ValidatePositiveEV(winProb, side, price) == None <==>
            side == Buy && 0.0 < price && price * (1.0 + DIV_ERROR) <= winProb <= 1.0
  {
    hide Div;
    if price > 0.0 {
      Positive(price, 1.0 + DIV_ERROR);
      if winProb > 0.0 {
        DivAboveOne(winProb, price);
        AtLeastTimes(winProb, price, 1.0 + DIV_ERROR);
      }
    }
  }

  lemma DivAboveOne(x: real, y: real)
    requires y != 0.0
    ensures Div(x, y) - 1.0 > 0.0 <==> 1.0 + DIV_ERROR <= x / y
  {
    RoundAbove(x / y * TEN_16, 10000000000000000);
  }

  lemma RoundAbove(x: real, n: int)
    requires n >= 0
    ensures RoundHalfAway(x) > n <==> x >= n as real + 0.5
  {
  }

  lemma AtLeastTimes(x: real, y: real, z: real)
    requires x > 0.0 && y > 0.0
    ensures y * z <= x <==> z <= x / y
  {
    Quotient(x, y);
    if z <= x / y {
      TimesMonotonic(z, x / y, y);
    } else {
      Positive(z - x / y, y);
    }
  }

  /** Amounts to the nearest millionth: a buyer pays USDC for shares, a seller the other way round. */
  lemma AmountsMeaning(price: real, size: real)
    ensures var r := ComputeAmounts(Buy, price, size);
            && r.maker as real - 0.5 <= price * size * 1000000.0 <= r.maker as real + 0.5
            && r.taker as real - 0.5 <= size * 1000000.0 <= r.taker as real + 0.5
            && (Hundredths(size) ==> r.taker as real == size * 1000000.0 && r.taker % 10000 == 0)
            && ComputeAmounts(Sell, price, size) == Amounts(r.taker, r.maker)
  {
    RoundMeaning(price * size * MICRO);
    RoundMeaning(size * MICRO);
    hide RoundHalfAway;
    WholeShares(size);
  }

  lemma WholeShares(size: real)
    ensures Hundredths(size) ==> RoundHalfAway(size * MICRO) as real == size * MICRO && RoundHalfAway(size * MICRO) % 10000 == 0
  {
    hide RoundHalfAway;
    if Hundredths(size) {
      var n := (size * 100.0).Floor;
      RoundOfWhole(n * 10000);
      assert size * MICRO == size * 100.0 * 10000.0 == n as real * 10000.0 == (n * 10000) as real;
    }
  }

  /** A signal is signed exactly when the guard passes and the allocator finds a size. */
  lemma SignedWhen(raw: Option<int>, cfg: RiskConfig, winProb: real, side: Side, price: real)
    ensures ProcessSignal(raw, cfg, winProb, side, price).Ok? <==>
            && side == Buy && 0.0 < price && price * (1.0 + DIV_ERROR) <= winProb <= 1.0
            && Allocation(raw, cfg, Buy, price).Ok?
  {
    hide ValidatePositiveEV, Allocation, ComputeAmounts;
    PositiveEVMeaning(winProb, side, price);
  }

  /**
   What is signed for a signal: shares in hundredths, no fewer than the minimum, for their price to the nearest
   millionth. That is within the balance, the percentage of it and the cap, whatever the price, and a
   hundredth of a share more would have cost more than the least of the three.
   */
  lemma SignedWithinBalance(raw: int, cfg: RiskConfig, winProb: real, side: Side, price: real, limit: int, l: real)
    requires LeastAllowance(raw, cfg, l)
    ensures var r := ProcessSignal(Some(raw), cfg, winProb, side, price);
            r.Ok? ==>
              && side == Buy && 0.0 < price < 1.0
              && (Limits(raw, cfg, limit) ==> r.value.maker <= limit)
              && r.value.taker % 10000 == 0 && r.value.taker as real >= cfg.minShareSize * 1000000.0
              && r.value.maker as real - 0.5 <= price * r.value.taker as real <= r.value.maker as real + 0.5
              && l * 1000000.0 < price * (r.value.taker as real + 10000.0 + 0.00000000005)
  {
    hide *;
    ProcessedAmounts(raw, cfg, winProb, side, price);
    PositiveEVMeaning(winProb, side, price);
    if ProcessSignal(Some(raw), cfg, winProb, side, price).Ok? {
      PriceBelowOne(winProb, price);
      var size := Allocation(Some(raw), cfg, Buy, price).value;
      SpendWithinBalance(raw, cfg, price, limit);
      AllocationMeaning(raw, cfg, price, l);
      AmountsMeaning(price, size);
      InShares(price, size, l);
    }
  }

  lemma ProcessedAmounts(raw: int, cfg: RiskConfig, winProb: real, side: Side, price: real)
    ensures var r := ProcessSignal(Some(raw), cfg, winProb, side, price);
            r.Ok? ==>
              && ValidatePositiveEV(winProb, side, price) == None && Allocation(Some(raw), cfg, side, price).Ok?
              && r.value == ComputeAmounts(side, price, Allocation(Some(raw), cfg, side, price).value)
  {
    hide ValidatePositiveEV, Allocation, ComputeAmounts;
  }

  lemma PriceBelowOne(winProb: real, price: real)
    requires price > 0.0 && price * (1.0 + DIV_ERROR) <= winProb <= 1.0
    ensures price < 1.0
  {
    Positive(price, DIV_ERROR);
  }

  lemma InShares(price: real, size: real, l: real)
    requires l - size * price < (0.01 + DIV_ERROR) * price
    ensures price * size * 1000000.0 == price * (size * 1000000.0)
    ensures l * 1000000.0 < price * (size * 1000000.0 + 10000.0 + 0.00000000005)
  {
    assert price * (size * 1000000.0 + 10000.0 + 0.00000000005) == (size * price + (0.01 + DIV_ERROR) * price) * 1000000.0;
  }
}
