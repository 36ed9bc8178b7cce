/** The anchor's /rate callback: two amounts rounded to their assets' decimals, and a price
    derived from the two that the platform multiplies back. */
module Rate {
  import opened Wrappers
  import opened DecimalArithmetic

  const NATIVE := "stellar:native"
  const USD := "iso4217:USD"
  const BRL := "iso4217:BRL"
  const ARS := "iso4217:ARS"
  const COP := "iso4217:COP"
  const FEE: real := 0.0
  const PRICE_DECIMALS: int := 30
  const QUOTE_LIFE: int := 86_400_000

  /** `significant_decimals` of an asset, 4 for one that is not listed. */
  function DecimalsOf(asset: string): int {
    if asset == NATIVE then 7
    else if asset == USD then 4
    else if asset == BRL || asset == ARS || asset == COP then 2
    else 4
  }

  /** An amount in the query: missing or empty, not a number, or a number. */
  datatype Amount = Absent | Malformed | Given(value: real)

  datatype Request = Request(kind: string, sellAsset: string, buyAsset: string, sellAmount: Amount, buyAmount: Amount)

  /** What `dividedBy` yields: x / 0 is Infinity or NaN. */
  datatype Price = Finite(value: real) | NotFinite

  datatype Rate = Rate(price: Price, sellAmount: real, buyAmount: real)

  datatype Error = BadType | MissingAsset | AmountChoice | NoRate | NotANumber

  /** Fiat units for one XLM: the oracle's price for USD when it has one (a positive number), a
      fixed table otherwise. */
  function FiatPerXlm(asset: string, oracle: Option<real>): (r: Option<real>)
    ensures r.Some? ==> r.value != 0.0
  {
    if asset == USD then Some(if oracle.Some? && oracle.value != 0.0 then oracle.value else 0.17)
    else if asset == BRL then Some(0.94)
    else if asset == ARS then Some(195.0)
    else if asset == COP then Some(730.0)
    else None
  }

  /** Units of the sell asset for one unit of the buy asset. */
  function RawPrice(sellAsset: string, buyAsset: string, oracle: Option<real>): (r: Option<real>)
    ensures r.Some? ==> r.value != 0.0
  {
    if sellAsset == buyAsset then
      Some(1.0)
    else if sellAsset == NATIVE then
      match FiatPerXlm(buyAsset, oracle)
      case None => None
      case Some(perXlm) =>
        RoundedSign(1.0 / perXlm);
        Some(Rounded(1.0 / perXlm))
    else if buyAsset == NATIVE then
      FiatPerXlm(sellAsset, oracle)
    else
      None
  }

  /** The sell amount before it is rounded to its asset's decimals. */
  function SellRaw(sell: Amount, buy: Amount, raw: real): real
    requires sell.Given? != buy.Given?
  {
    if sell.Given? then sell.value else Rounded(Rounded(buy.value * raw) + FEE)
  }

  function BuyRaw(sell: Amount, buy: Amount, raw: real): real
    requires sell.Given? != buy.Given? && raw != 0.0
  {
    if buy.Given? then buy.value else Rounded(Rounded(sell.value - FEE) / raw)
  }

  function PriceOf(sell: real, buy: real): Price {
    if buy == 0.0 then NotFinite
    else Finite(RoundAt(Rounded(Rounded(sell - FEE) / buy), PRICE_DECIMALS))
  }

  function RateFor(x: Request, oracle: Option<real>): Result<Rate, Error> {
    if x.kind != "indicative" && x.kind != "firm" then
      Err(BadType)
    else if x.sellAsset == "" || x.buyAsset == "" then
      Err(MissingAsset)
    else if x.sellAmount.Absent? == x.buyAmount.Absent? then
      Err(AmountChoice)
    else
      match RawPrice(x.sellAsset, x.buyAsset, oracle)
      case None => Err(NoRate)
      case Some(raw) =>
        if x.sellAmount.Malformed? || x.buyAmount.Malformed? then
          Err(NotANumber)
        else
          var sell := RoundAt(SellRaw(x.sellAmount, x.buyAmount, raw), DecimalsOf(x.sellAsset));
          var buy := RoundAt(BuyRaw(x.sellAmount, x.buyAmount, raw), DecimalsOf(x.buyAsset));
          Ok(Rate(PriceOf(sell, buy), sell, buy))
  }

  // ---- The price multiplied back ----

  /** How far the re-derived sell amount is from the quoted one. */
  function Gap(price: real, sell: real, buy: real): real {
    Abs(price * buy + FEE - sell)
  }

  /** How far a quotient, multiplied back, is from the dividend. */
  function Miss(q: real, y: real, x: real): real { Abs(q * y - x) }

  function Drift(p: real, q: real, y: real): real { Abs(p * y - q * y) }

  lemma AbsTimes(x: real, y: real)
    ensures Abs(x * y) == Abs(x) * Abs(y)
  {
    if x < 0.0 {
      AbsTimesPositive(-x, y);
      Negate(x, y);
    } else {
      AbsTimesPositive(x, y);
    }
  }

  lemma AbsTimesPositive(x: real, y: real)
    requires x >= 0.0
    ensures Abs(x * y) == x * Abs(y)
  {
    Negate(y, x);
    if y < 0.0 {
      MulLe(0.0, -y, x);
    } else {
      MulLe(0.0, y, x);
    }
  }

  lemma AbsNonNegative(x: real)
    ensures Abs(x) >= 0.0
  {
  }

  lemma Swap(a: real, b: real)
    ensures (a * E39) * b == (a * b) * E39
  {
  }

  /** Multiplying both sides of an error bound. */
  lemma ScaleError(d: real, q: real, y: real)
    requires Abs(d) * E39 <= 0.5 * Abs(q)
    ensures Abs(d * y) * E39 <= 0.5 * Abs(q * y)
  {
    hide Abs;
    AbsTimes(d, y);
    AbsTimes(q, y);
    AbsNonNegative(y);
    MulLe(Abs(d) * E39, 0.5 * Abs(q), Abs(y));
    Swap(Abs(d), Abs(y));
    Group(0.5, Abs(q), Abs(y));
  }

  /** Dividing to 40 digits and multiplying back. */
  lemma QuotientBackError(x: real, y: real)
    requires y != 0.0
    ensures Miss(Rounded(x / y), y, x) * E39 <= 0.5 * Abs(x)
  {
    hide Rounded;
    var q := x / y;
    RoundedError(q);
    ScaleError(Rounded(q) - q, q, y);
    DistributeMinus(Rounded(q), q, y);
    assert q * y == x;
  }

  /** Rounding a factor to 30 decimals before multiplying. */
  lemma ThirtyDecimals(q: real, y: real)
    ensures Drift(RoundAt(q, PRICE_DECIMALS), q, y) * E39 <= 500_000_000.0 * Abs(y)
  {
    hide RoundAt, Pow;
    RoundAtError(q, PRICE_DECIMALS);
    PowMinus30();
    assert -PRICE_DECIMALS == -30;
    var d := RoundAt(q, PRICE_DECIMALS) - q;
    DistributeMinus(RoundAt(q, PRICE_DECIMALS), q, y);
    AbsTimes(d, y);
    assert Abs(d) * E39 <= 500_000_000.0;
    AbsNonNegative(y);
    MulLe(Abs(d) * E39, 500_000_000.0, Abs(y));
    Swap(Abs(d), Abs(y));
    assert Abs(d * y) * E39 <= 500_000_000.0 * Abs(y);
  }

  lemma RoundedTwice(x: real)
    ensures Abs(Rounded(Rounded(x)) - x) * E39 <= 1.5 * Abs(x)
  {
    hide Rounded;
    RoundedError(x);
    RoundedError(Rounded(x));
  }

  /** Rounding the dividend, dividing, and multiplying back. */
  lemma QuotientOfRounded(x: real, y: real)
    requires y != 0.0
    ensures Miss(Rounded(Rounded(x) / y), y, x) * E39 <= 1.5 * Abs(x)
  {
    hide Rounded;
    RoundedError(x);
    QuotientBackError(Rounded(x), y);
  }

  lemma GapFromQuotient(price: real, q: real, sell: real, buy: real)
    ensures Gap(price, sell, buy) <= Miss(q, buy, sell) + Drift(price, q, buy)
  {
  }

  /** The price times the buy amount plus the fee is the sell amount, up to the 40th digit of the
      one and the 30th decimal on the other. */
  lemma PriceReproduces(sell: real, buy: real)
    requires buy != 0.0
    ensures Gap(PriceOf(sell, buy).value, sell, buy) * E39 <= 1.5 * Abs(sell) + 500_000_000.0 * Abs(buy)
  {
    hide Rounded, RoundAt, Gap, Miss, Drift, Abs;
    MinusFee(sell);
    var q := Rounded(Rounded(sell) / buy);
    QuotientOfRounded(sell, buy);
    ThirtyDecimals(q, buy);
    GapFromQuotient(RoundAt(q, PRICE_DECIMALS), q, sell, buy);
  }

  /** The parts of an answer. */
  lemma Answer(x: Request, oracle: Option<real>)
    requires RateFor(x, oracle).Ok?
    ensures RawPrice(x.sellAsset, x.buyAsset, oracle).Some?
    ensures x.sellAmount.Given? != x.buyAmount.Given?
    ensures var r := RateFor(x, oracle).value;
            var raw := RawPrice(x.sellAsset, x.buyAsset, oracle).value;
            && r.sellAmount == RoundAt(SellRaw(x.sellAmount, x.buyAmount, raw), DecimalsOf(x.sellAsset))
            && r.buyAmount == RoundAt(BuyRaw(x.sellAmount, x.buyAmount, raw), DecimalsOf(x.buyAsset))
            && r.price == PriceOf(r.sellAmount, r.buyAmount)
  {
    hide Rounded, RoundAt, RawPrice, DecimalsOf, PriceOf, SellRaw, BuyRaw;
  }

  /** What b units cost at a raw price, exactly. */
  function Cost(b: real, raw: real): real { b * raw }

  lemma PlusFee(x: real)
    ensures Rounded(x + FEE) == Rounded(x)
  {
    assert x + FEE == x;
  }

  lemma MinusFee(x: real)
    ensures Rounded(x - FEE) == Rounded(x)
  {
    assert x - FEE == x;
  }

  /** Before rounding to decimals, the two amounts are related by the raw price up to 40-digit
      rounding, whichever of them was given. */
  lemma AmountsFollowRawPrice(sell: Amount, buy: Amount, raw: real)
    requires sell.Given? != buy.Given? && raw != 0.0
    ensures var s, b := SellRaw(sell, buy, raw), BuyRaw(sell, buy, raw);
            && (sell.Given? ==> s == sell.value && Miss(b, raw, s) * E39 <= 1.5 * Abs(s))
            && (buy.Given? ==> b == buy.value && Miss(b, raw, s) * E39 <= 1.5 * Abs(Cost(b, raw)))
  {
    hide Rounded;
    if sell.Given? {
      MinusFee(sell.value);
      QuotientOfRounded(sell.value, raw);
    } else {
      RoundedTwice(buy.value * raw);
      PlusFee(Rounded(buy.value * raw));
    }
  }

  /** An amount that has no more decimals than its asset is echoed as it was given. */
  lemma GivenIsEchoed(x: Request, oracle: Option<real>, n: int)
    ensures RateFor(x, oracle).Ok? ==>
              var r := RateFor(x, oracle).value;
              && (x.sellAmount.Given? && IsMultiple(x.sellAmount.value, DecimalsOf(x.sellAsset), n) ==>
                    r.sellAmount == x.sellAmount.value)
              && (x.buyAmount.Given? && IsMultiple(x.buyAmount.value, DecimalsOf(x.buyAsset), n) ==>
                    r.buyAmount == x.buyAmount.value)
  {
    if RateFor(x, oracle).Ok? {
      Answer(x, oracle);
      hide RateFor, RoundAt, IsMultiple, RawPrice, DecimalsOf;
      if x.sellAmount.Given? && IsMultiple(x.sellAmount.value, DecimalsOf(x.sellAsset), n) {
        RoundAtFixed(n, DecimalsOf(x.sellAsset), x.sellAmount.value);
      }
      if x.buyAmount.Given? && IsMultiple(x.buyAmount.value, DecimalsOf(x.buyAsset), n) {
        RoundAtFixed(n, DecimalsOf(x.buyAsset), x.buyAmount.value);
      }
    }
  }

  predicate Priced(sellAsset: string, buyAsset: string) {
    || sellAsset == buyAsset
    || (sellAsset == NATIVE && buyAsset in {USD, BRL, ARS, COP})
    || (buyAsset == NATIVE && sellAsset in {USD, BRL, ARS, COP})
  }

  /** Which requests are answered: the ones with a known type, both assets, exactly one amount, and
      a priced pair. */
  lemma AnsweredIff(x: Request, oracle: Option<real>)
    ensures RateFor(x, oracle).Ok? <==>
            && x.kind in {"indicative", "firm"}
            && x.sellAsset != "" && x.buyAsset != ""
            && ((x.sellAmount.Given? && x.buyAmount.Absent?) || (x.sellAmount.Absent? && x.buyAmount.Given?))
            && Priced(x.sellAsset, x.buyAsset)
  {
    hide Rounded, RoundAt;
  }

  /** Which error an unanswered request gets: the first that applies, in this order. */
  lemma WhichError(x: Request, oracle: Option<real>)
    ensures var typed, assets := x.kind in {"indicative", "firm"}, x.sellAsset != "" && x.buyAsset != "";
            var one := x.sellAmount.Absent? != x.buyAmount.Absent?;
            && (RateFor(x, oracle) == Err(BadType) <==> !typed)
            && (RateFor(x, oracle) == Err(MissingAsset) <==> typed && !assets)
            && (RateFor(x, oracle) == Err(AmountChoice) <==> typed && assets && !one)
            && (RateFor(x, oracle) == Err(NoRate) <==> typed && assets && one && !Priced(x.sellAsset, x.buyAsset))
            && (RateFor(x, oracle) == Err(NotANumber) <==>
                typed && assets && one && Priced(x.sellAsset, x.buyAsset) && (x.sellAmount.Malformed? || x.buyAmount.Malformed?))
  {
    hide Rounded, RoundAt;
  }

  /** The answer carries a price exactly when the buy amount does not round to nothing. */
  lemma PriceFiniteIff(x: Request, oracle: Option<real>)
    ensures RateFor(x, oracle).Ok? ==>
              && RawPrice(x.sellAsset, x.buyAsset, oracle).Some?
              && x.sellAmount.Given? != x.buyAmount.Given?
              && var raw := RawPrice(x.sellAsset, x.buyAsset, oracle).value;
                 RateFor(x, oracle).value.price.Finite? <==>
                 !IsNegligible(BuyRaw(x.sellAmount, x.buyAmount, raw), DecimalsOf(x.buyAsset))
  {
    if RateFor(x, oracle).Ok? {
      Answer(x, oracle);
      hide RateFor, IsNegligible, RoundAt, RawPrice, DecimalsOf;
      var raw := RawPrice(x.sellAsset, x.buyAsset, oracle).value;
      RoundsToZeroIff(BuyRaw(x.sellAmount, x.buyAmount, raw), DecimalsOf(x.buyAsset));
    }
  }

  /** The platform's check: price * buy + fee is the sell amount within one unit of the sell asset's
      last decimal. */
  predicate Accepted(sellAsset: string, r: Rate) {
    r.price.Finite? && Gap(r.price.value, r.sellAmount, r.buyAmount) <= Pow(-DecimalsOf(sellAsset))
  }

  lemma UnitAtLeast(asset: string)
    ensures Pow(-DecimalsOf(asset)) >= 0.000_000_1
  {
    assert Pow(0) == 1.0;
    hide Pow;
    PowStep(-1); PowStep(-2); PowStep(-3); PowStep(-4); PowStep(-5); PowStep(-6); PowStep(-7);
  }

  /** What 40 digits and 30 decimals lose on these amounts stays below seven decimals. */
  predicate InRange(r: Rate) {
    r.buyAmount != 0.0 && 1.5 * Abs(r.sellAmount) + 500_000_000.0 * Abs(r.buyAmount) <= E39 / 10_000_000.0
  }

  /** An answer within range passes the platform's check, at the tolerance of seven decimals whatever
      the sell asset and whichever side was given. */
  lemma RatePassesPlatformCheck(x: Request, oracle: Option<real>)
    ensures RateFor(x, oracle).Ok? && InRange(RateFor(x, oracle).value) ==>
              var r := RateFor(x, oracle).value;
              && r.price.Finite?
              && Gap(r.price.value, r.sellAmount, r.buyAmount) <= 0.000_000_1
              && Accepted(x.sellAsset, r)
  {
    if RateFor(x, oracle).Ok? && InRange(RateFor(x, oracle).value) {
      Answer(x, oracle);
      var r := RateFor(x, oracle).value;
      assert r.price.Finite?;
      hide RateFor, PriceOf, Gap, DecimalsOf, Pow, Abs;
      PriceReproduces(r.sellAmount, r.buyAmount);
      UnitAtLeast(x.sellAsset);
    }
  }

  // ---- The check, in terms of the request ----

  /** No oracle price, or one between a thousandth and a thousand. */
  predicate Moderate(oracle: Option<real>) {
    oracle.Some? ==> 0.001 <= oracle.value <= 1000.0
  }

  lemma RoundedWithin(x: real)
    requires x > 0.0
    ensures x / 2.0 <= Rounded(x) <= 2.0 * x
  {
    hide Rounded;
    RoundedError(x);
  }

  lemma InverseWithin(p: real)
    requires 0.001 <= p <= 1000.0
    ensures 0.001 <= 1.0 / p <= 1000.0
  {
    var q := 1.0 / p;
    assert q * p == 1.0;
    assert (1000.0 - p) * q >= 0.0;
    assert (p - 0.001) * q >= 0.0;
  }

  lemma RawWithin(sellAsset: string, buyAsset: string, oracle: Option<real>)
    requires Moderate(oracle) && RawPrice(sellAsset, buyAsset, oracle).Some?
    ensures 0.000_5 <= RawPrice(sellAsset, buyAsset, oracle).value <= 2000.0
  {
    hide Rounded;
    if sellAsset != buyAsset && sellAsset == NATIVE {
      var perXlm := FiatPerXlm(buyAsset, oracle).value;
      InverseWithin(perXlm);
      RoundedWithin(1.0 / perXlm);
    }
  }

  /** How large a given amount may be. */
  predicate ModestAmounts(sell: Amount, buy: Amount) {
    && (sell.Given? ==> Abs(sell.value) <= 10_000_000_000_000_000_000.0)
    && (buy.Given? ==> Abs(buy.value) <= 100_000_000_000_000_000_000_000.0)
  }

  lemma AbsScaled(b: real, raw: real)
    requires raw > 0.0
    ensures Abs(b * raw) == Abs(b) * raw
  {
    Negate(b, raw);
    if b < 0.0 {
      MulLe(0.0, -b, raw);
    } else {
      MulLe(0.0, b, raw);
    }
  }

  lemma AtLeastFactor(a: real, raw: real, m: real)
    requires a >= 0.0 && 0.000_5 <= raw && a * raw <= 2.0 * m
    ensures a <= 4000.0 * m
  {
    assert (raw - 0.000_5) * a >= 0.0;
  }

  lemma AtMostFactor(a: real, raw: real, m: real)
    requires a >= 0.0 && raw <= 2000.0 && m <= 2.0 * (a * raw)
    ensures m <= 4000.0 * a
  {
    assert (2000.0 - raw) * a >= 0.0;
  }

  lemma FactorOf(b: real, raw: real, v: real)
    requires 0.000_5 <= raw && Miss(b, raw, v) * E39 <= 1.5 * Abs(v)
    ensures Abs(b) <= 4000.0 * Abs(v)
  {
    assert Abs(b * raw) <= 2.0 * Abs(v);
    AbsScaled(b, raw);
    AbsNonNegative(b);
    hide Abs, Miss;
    AtLeastFactor(Abs(b), raw, Abs(v));
  }

  lemma ProductOf(b: real, raw: real, s: real)
    requires 0.0 < raw <= 2000.0 && Miss(b, raw, s) * E39 <= 1.5 * Abs(Cost(b, raw))
    ensures Abs(s) <= 4000.0 * Abs(b)
  {
    MissAtMost(b, raw, s);
    AbsScaled(b, raw);
    AbsNonNegative(b);
    hide Abs, Miss, Cost;
    AtMostFactor(Abs(b), raw, Abs(s));
  }

  lemma MissAtMost(b: real, raw: real, s: real)
    requires Miss(b, raw, s) * E39 <= 1.5 * Abs(Cost(b, raw))
    ensures Abs(s) <= 2.0 * Abs(b * raw)
  {
    var cost := b * raw;
    assert Miss(b, raw, s) == Abs(cost - s) && Cost(b, raw) == cost;
  }

  /** Rounding to an asset's decimals moves an amount by at most one half. */
  lemma RoundedToAsset(x: real, asset: string)
    ensures Abs(RoundAt(x, DecimalsOf(asset))) <= Abs(x) + 0.5
  {
    RoundAtError(x, DecimalsOf(asset));
    UnitAtMost(asset);
    hide RoundAt, Pow, DecimalsOf;
  }

  lemma UnitAtMost(asset: string)
    ensures Pow(-DecimalsOf(asset)) <= 1.0
  {
    assert Pow(0) == 1.0;
    hide Pow;
    PowMonotone(-DecimalsOf(asset), 0);
  }

  lemma AmountsInRange(sell: Amount, buy: Amount, raw: real, sellAsset: string, buyAsset: string)
    requires sell.Given? != buy.Given? && ModestAmounts(sell, buy) && 0.000_5 <= raw <= 2000.0
    ensures var s := RoundAt(SellRaw(sell, buy, raw), DecimalsOf(sellAsset));
            var b := RoundAt(BuyRaw(sell, buy, raw), DecimalsOf(buyAsset));
            1.5 * Abs(s) + 500_000_000.0 * Abs(b) <= E39 / 10_000_000.0
  {
    hide Rounded, RoundAt, Abs, Miss, DecimalsOf, SellRaw, BuyRaw;
    var s, b := SellRaw(sell, buy, raw), BuyRaw(sell, buy, raw);
    AmountsFollowRawPrice(sell, buy, raw);
    if sell.Given? {
      FactorOf(b, raw, sell.value);
    } else {
      ProductOf(b, raw, s);
    }
    RoundedToAsset(s, sellAsset);
    RoundedToAsset(b, buyAsset);
  }

  /** For every request with a moderate price and a modest amount, the answer passes the platform's
      check if and only if the buy amount does not round to nothing. */
  lemma RequestPassesIff(x: Request, oracle: Option<real>)
    requires Moderate(oracle) && ModestAmounts(x.sellAmount, x.buyAmount)
    ensures RateFor(x, oracle).Ok? ==>
              && RawPrice(x.sellAsset, x.buyAsset, oracle).Some?
              && x.sellAmount.Given? != x.buyAmount.Given?
              && var raw := RawPrice(x.sellAsset, x.buyAsset, oracle).value;
                 Accepted(x.sellAsset, RateFor(x, oracle).value) <==>
                 !IsNegligible(BuyRaw(x.sellAmount, x.buyAmount, raw), DecimalsOf(x.buyAsset))
  {
    if RateFor(x, oracle).Ok? {
      Answer(x, oracle);
      PriceFiniteIff(x, oracle);
      var r := RateFor(x, oracle).value;
      assert r.price.Finite? <==> r.buyAmount != 0.0;
      RawWithin(x.sellAsset, x.buyAsset, oracle);
      hide RateFor, RawPrice, RoundAt, Abs, DecimalsOf, SellRaw, BuyRaw, PriceOf, Gap, Pow, IsNegligible;
      AmountsInRange(x.sellAmount, x.buyAmount, RawPrice(x.sellAsset, x.buyAsset, oracle).value, x.sellAsset, x.buyAsset);
      RatePassesPlatformCheck(x, oracle);
    }
  }

  // ---- The table ----

  /** Fiat units for one XLM: the rates of the table; for USD the oracle's price when it has one. */
  predicate Listed(asset: string, oracle: Option<real>, perXlm: real) {
    || (asset == "iso4217:USD" && perXlm == (if oracle.Some? && oracle.value != 0.0 then oracle.value else 0.17))
    || (asset == "iso4217:BRL" && perXlm == 0.94)
    || (asset == "iso4217:ARS" && perXlm == 195.0)
    || (asset == "iso4217:COP" && perXlm == 730.0)
  }

  /** Selling a listed currency for XLM costs its rate per XLM; the other way it is the inverse, to 40
      digits, so that the two multiply to 1 up to half a unit of the 40th. */
  lemma PairPrices(asset: string, oracle: Option<real>, perXlm: real)
    requires Listed(asset, oracle, perXlm)
    ensures RawPrice(asset, "stellar:native", oracle) == Some(perXlm)
    ensures RawPrice("stellar:native", asset, oracle) == Some(Rounded(1.0 / perXlm))
    ensures Abs(Rounded(1.0 / perXlm) * perXlm - 1.0) * E39 <= 0.5
  {
    hide Rounded;
    QuotientBackError(1.0, perXlm);
  }

  /** An asset costs 1 of itself; no other pair has a price. */
  lemma OtherPairs(sellAsset: string, buyAsset: string, oracle: Option<real>)
    ensures sellAsset == buyAsset ==> RawPrice(sellAsset, buyAsset, oracle) == Some(1.0)
    ensures sellAsset != "stellar:native" && buyAsset != "stellar:native" && sellAsset != buyAsset ==>
              RawPrice(sellAsset, buyAsset, oracle).None?
    ensures (forall perXlm :: !Listed(sellAsset, oracle, perXlm)) && sellAsset != buyAsset && buyAsset == "stellar:native" ==>
              RawPrice(sellAsset, buyAsset, oracle).None?
    ensures (forall perXlm :: !Listed(buyAsset, oracle, perXlm)) && sellAsset != buyAsset && sellAsset == "stellar:native" ==>
              RawPrice(sellAsset, buyAsset, oracle).None?
  {
    hide Rounded;
    if FiatPerXlm(sellAsset, oracle).Some? {
      assert Listed(sellAsset, oracle, FiatPerXlm(sellAsset, oracle).value);
    }
    if FiatPerXlm(buyAsset, oracle).Some? {
      assert Listed(buyAsset, oracle, FiatPerXlm(buyAsset, oracle).value);
    }
  }

  /** The decimals of the listed assets. */
  lemma ListedDecimals()
    ensures DecimalsOf("stellar:native") == 7 && DecimalsOf("iso4217:USD") == 4
    ensures DecimalsOf("iso4217:BRL") == 2 && DecimalsOf("iso4217:ARS") == 2 && DecimalsOf("iso4217:COP") == 2
  {
  }

  // ---- Where the check fails ----

  const LARGE_BUY: real := 1_460_000_000_000_000_000_000_000.0
  const LARGE_SELL: real := 2_000_000_000_000_000_000_000.0
  const LARGE_SELL_UNITS: int := 2_000_000_000_000_000_000_000

  const ONE_OVER_730: real := 0.001_369_863_013_698_630_136_986_301_369_863_013_698_630
  const PRICE_730: real := 0.001_369_863_013_698_630_136_986_301_370

  lemma SmallPowers()
    ensures Pow(-3) == 0.001 && Pow(-2) == 0.01
    ensures Pow(7) == 10_000_000.0 && Pow(2) == 100.0
    ensures Pow(18) == 1_000_000_000_000_000_000.0
    ensures Pow(21) == 1_000_000_000_000_000_000_000.0
    ensures Pow(22) == 10_000_000_000_000_000_000_000.0
    ensures Pow(30) == 1_000_000_000_000_000_000_000_000_000_000.0
    ensures Pow(42) == E39 * 1000.0
  {
    assert Pow(0) == 1.0;
    hide Pow;
    PowStep(-1); PowStep(-2); PowStep(-3);
    PowStep(0); PowStep(1); PowStep(2); PowStep(3); PowStep(4); PowStep(5); PowStep(6); PowStep(7);
    PowTenSteps(0); PowTenSteps(1); PowTenSteps(2); PowTenSteps(8); PowTenSteps(10); PowTenSteps(11); PowTenSteps(12);
    PowTenSteps(20);
    PowE39(3);
  }

  lemma OneOver730()
    ensures Rounded(1.0 / 730.0) == ONE_OVER_730
  {
    SmallPowers();
    hide Pow, Rounded;
    var p := 1_000_000_000_000_000_000_000_000_000_000_000_000_000_000.0;
    RoundedIs(1.0 / 730.0, -3, p, 1_369_863_013_698_630_136_986_301_369_863_013_698_630, ONE_OVER_730);
  }

  lemma LargeSell()
    ensures RoundAt(Rounded(Rounded(LARGE_BUY * ONE_OVER_730) + FEE), 7) == LARGE_SELL
    ensures Rounded(LARGE_SELL - FEE) == LARGE_SELL
  {
    SmallPowers();
    PlusFee(LARGE_SELL);
    MinusFee(LARGE_SELL);
    hide Pow, Rounded, RoundAt;
    var p := 1_000_000_000_000_000_000.0;
    var n := 2_000_000_000_000_000_000_000_000_000_000_000_000_000;
    RoundedIs(LARGE_BUY * ONE_OVER_730, 21, p, n, LARGE_SELL);
    RoundedIs(LARGE_SELL, 21, p, n, LARGE_SELL);
    NearestTo(LARGE_SELL, 7, LARGE_SELL_UNITS * 10_000_000, LARGE_SELL);
  }

  lemma NearestTo(x: real, k: int, n: int, q: real)
    requires x > 0.0 && n as real - 0.5 <= x * Pow(k) < n as real + 0.5 && q * Pow(k) == n as real
    ensures RoundAt(x, k) == q
  {
    hide Pow, HalfUp;
    HalfUpIs(x, Pow(k), n, q);
  }

  lemma LargePrice()
    ensures PriceOf(LARGE_SELL, LARGE_BUY) == Finite(PRICE_730)
    ensures Gap(PRICE_730, LARGE_SELL, LARGE_BUY) == 0.000_000_2
  {
    LargeSell();
    OneOver730();
    SmallPowers();
    hide Rounded, RoundAt, Pow;
    assert LARGE_SELL / LARGE_BUY == 1.0 / 730.0;
    NearestTo(ONE_OVER_730, 30, 1_369_863_013_698_630_136_986_301_370, PRICE_730);
  }

  lemma LargeBuy()
    ensures RoundAt(LARGE_BUY, 2) == LARGE_BUY
    ensures Pow(-7) < 0.000_000_2
  {
    SmallPowers();
    PowStep(-4); PowStep(-5); PowStep(-6); PowStep(-7);
    hide Pow, RoundAt;
    RoundAtFixed(146_000_000_000_000_000_000_000_000, 2, LARGE_BUY);
  }

  /** The bound on the amounts cannot be dropped. RatePassesPlatformCheck reaches to 2 * 10^23 bought;
      for 1.46 * 10^24 COP the answer quotes 2 * 10^21 XLM and misses by two units of the seventh
      decimal. */
  lemma LargeAmountsFail()
    ensures var r := RateFor(Request("indicative", NATIVE, COP, Absent, Given(LARGE_BUY)), None);
            && r.Ok?
            && r.value == Rate(Finite(PRICE_730), LARGE_SELL, LARGE_BUY)
            && Gap(PRICE_730, LARGE_SELL, LARGE_BUY) == 0.000_000_2
            && !Accepted(NATIVE, r.value)
  {
    hide Rounded, RoundAt, Pow, Gap, PriceOf;
    var x := Request("indicative", NATIVE, COP, Absent, Given(LARGE_BUY));
    AnsweredIff(x, None);
    OneOver730();
    assert RawPrice(NATIVE, COP, None) == Some(ONE_OVER_730);
    assert DecimalsOf(NATIVE) == 7 && DecimalsOf(COP) == 2;
    Answer(x, None);
    hide RateFor, RawPrice;
    LargeSell();
    LargeBuy();
    LargePrice();
  }
}
