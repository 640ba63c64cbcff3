/** The valuation rules of the carry-trade calculator (script.js): covered
    interest parity, forward points, the derived carry figures, the trade
    signal and the ECB-pivot spot-rate lookup. Numbers are exact reals;
    interest rates are in percent per annum, as the calculator's inputs are. */
module CarryMath {

  // ---------------------------------------------------------------------------
  // Forward rate (calculateForwardRate)
  // ---------------------------------------------------------------------------

  /** The holding period as a fraction of a 360-day money-market year. */
  function YearFraction360(days: int): real {
    days as real / 360.0
  }

  /** `1 + rBase * time`, the denominator of the parity formula. */
  function ParityDenominator(interestBase: real, days: int): real {
    1.0 + interestBase / 100.0 * YearFraction360(days)
  }

  /** Covered interest parity: spot * (1 + rQuote*t) / (1 + rBase*t), t = days/360. */
  function ForwardRate(spot: real, interestBase: real, interestQuote: real, days: int): (f: real)
    requires ParityDenominator(interestBase, days) != 0.0
    ensures f * ParityDenominator(interestBase, days) == spot * ParityDenominator(interestQuote, days)
  {
    var rBase := interestBase / 100.0;
    var rQuote := interestQuote / 100.0;
    var time := days as real / 360.0;
    spot * (1.0 + rQuote * time) / (1.0 + rBase * time)
  }

  /** The forward premium is proportional to the interest differential. */
  lemma ForwardPremium(spot: real, interestBase: real, interestQuote: real, days: int)
    requires ParityDenominator(interestBase, days) != 0.0
    ensures ForwardRate(spot, interestBase, interestQuote, days) - spot
         == spot * ((interestQuote - interestBase) / 100.0 * YearFraction360(days))
              / ParityDenominator(interestBase, days)
  {
    var d := ParityDenominator(interestBase, days);
    var f := ForwardRate(spot, interestBase, interestQuote, days);
    var t := YearFraction360(days);
    assert ParityDenominator(interestQuote, days) - d == (interestQuote - interestBase) / 100.0 * t;
    assert (f - spot) * d == spot * ((interestQuote - interestBase) / 100.0 * t);
  }

  /** Equal interest rates give no forward premium. */
  lemma EqualRatesNoPremium(spot: real, rate: real, days: int)
    requires ParityDenominator(rate, days) != 0.0
    ensures ForwardRate(spot, rate, rate, days) == spot
  {
    ForwardPremium(spot, rate, rate, days);
  }

  /** With a positive spot, horizon and denominator, the forward is at a premium
      exactly when the quote currency pays more, and at a discount exactly when it pays less. */
  lemma PremiumSign(spot: real, interestBase: real, interestQuote: real, days: int)
    requires spot > 0.0 && days > 0 && ParityDenominator(interestBase, days) > 0.0
    ensures ForwardRate(spot, interestBase, interestQuote, days) > spot <==> interestQuote > interestBase
    ensures ForwardRate(spot, interestBase, interestQuote, days) < spot <==> interestQuote < interestBase
  {
    ForwardPremium(spot, interestBase, interestQuote, days);
    var d := ParityDenominator(interestBase, days);
    var t := YearFraction360(days);
    var p := spot * ((interestQuote - interestBase) / 100.0 * t);
    assert t > 0.0;
    assert p > 0.0 <==> interestQuote > interestBase by {
      if interestQuote > interestBase { Positive3(spot, (interestQuote - interestBase) / 100.0, t); }
      if interestQuote <= interestBase { NonPositiveProduct(spot, (interestQuote - interestBase) / 100.0, t); }
    }
    assert p < 0.0 <==> interestQuote < interestBase by {
      if interestQuote < interestBase { Positive3(spot, (interestBase - interestQuote) / 100.0, t); }
      if interestQuote >= interestBase { NonNegativeProduct(spot, (interestQuote - interestBase) / 100.0, t); }
    }
    SignOfQuotient(p, d);
  }

  /** Reciprocal spot rates with the interest rates exchanged give reciprocal forward rates. */
  lemma ForwardRateReciprocal(spot: real, spot': real, interestBase: real, interestQuote: real, days: int)
    requires spot * spot' == 1.0
    requires ParityDenominator(interestBase, days) != 0.0 && ParityDenominator(interestQuote, days) != 0.0
    ensures ForwardRate(spot, interestBase, interestQuote, days) * ForwardRate(spot', interestQuote, interestBase, days) == 1.0
  {
    RatioProduct(ForwardRate(spot, interestBase, interestQuote, days),
                 ForwardRate(spot', interestQuote, interestBase, days), spot, spot',
                 ParityDenominator(interestBase, days), ParityDenominator(interestQuote, days));
  }

  lemma RatioProduct(f: real, f': real, s: real, s': real, a: real, b: real)
    requires f * a == s * b && f' * b == s' * a && s * s' == 1.0 && a != 0.0 && b != 0.0
    ensures f * f' == 1.0
  {
    assert (f * a) * (f' * b) == (s * b) * (s' * a);
    assert (f * f') * (a * b) == (s * s') * (a * b);
    assert (f * f' - 1.0) * (a * b) == 0.0;
    ZeroFactor(f * f' - 1.0, a * b);
  }

  lemma Positive3(a: real, b: real, c: real)
    requires a > 0.0 && b > 0.0 && c > 0.0
    ensures a * (b * c) > 0.0 && a * (-b * c) < 0.0
  {
    assert b * c > 0.0;
  }

  lemma NonPositiveProduct(a: real, b: real, c: real)
    requires a > 0.0 && b <= 0.0 && c > 0.0
    ensures a * (b * c) <= 0.0
  {
    assert b * c <= 0.0;
  }

  lemma NonNegativeProduct(a: real, b: real, c: real)
    requires a > 0.0 && b >= 0.0 && c > 0.0
    ensures a * (b * c) >= 0.0
  {
    assert b * c >= 0.0;
  }

  lemma ZeroFactor(x: real, y: real)
    requires x * y == 0.0 && y != 0.0
    ensures x == 0.0
  {
  }

  lemma SignOfQuotient(p: real, d: real)
    requires d > 0.0
    ensures p / d > 0.0 <==> p > 0.0
    ensures p / d < 0.0 <==> p < 0.0
  {
    assert p == (p / d) * d;
  }

  // ---------------------------------------------------------------------------
  // Forward points (calculateForwardPoints)
  // ---------------------------------------------------------------------------

  /** `s.includes(part)`: `part` occurs in `s` as a contiguous block. */
  predicate Includes(s: string, part: string)
    decreases |s|
  {
    |part| <= |s| && (s[..|part|] == part || (|s| > 0 && Includes(s[1..], part)))
  }

  /** `part` occurs in `s` starting at index `i`. */
  predicate OccursAt(s: string, part: string, i: int) {
    0 <= i && i + |part| <= |s| && s[i..i + |part|] == part
  }

  /** The recursive scan agrees with the positional definition of an occurrence. */
  lemma {:induction false} IncludesIffOccurs(s: string, part: string)
    ensures Includes(s, part) <==> exists i :: OccursAt(s, part, i)
    decreases |s|
  {
    if Includes(s, part) {
      if s[..|part|] == part {
        assert OccursAt(s, part, 0);
      } else {
        IncludesIffOccurs(s[1..], part);
        var i :| OccursAt(s[1..], part, i);
        assert s[1..][i..i + |part|] == s[i + 1..i + 1 + |part|];
        assert OccursAt(s, part, i + 1);
      }
    }
    if i :| OccursAt(s, part, i) {
      if i == 0 {
        assert s[..|part|] == part;
      } else {
        assert s[1..][i - 1..i - 1 + |part|] == s[i..i + |part|];
        assert OccursAt(s[1..], part, i - 1);
        IncludesIffOccurs(s[1..], part);
      }
    }
  }

  /** The pair label the calculator builds, such as "EUR/USD". */
  function PairLabel(base: string, quote: string): string {
    base + "/" + quote
  }

  /** 100 for any pair label containing "JPY", 10000 otherwise. */
  function PipMultiplier(pair: string): (m: real)
    ensures m == 100.0 || m == 10000.0
    ensures m == 100.0 <==> exists i :: OccursAt(pair, "JPY", i)
  {
    IncludesIffOccurs(pair, "JPY");
    if Includes(pair, "JPY") then 100.0 else 10000.0
  }

  /** For three-letter codes the multiplier is 100 exactly when JPY is the base OR
      the quote currency: the test looks at the whole label, not just the quote side. */
  lemma PipMultiplierOfPair(base: string, quote: string)
    requires |base| == 3 && |quote| == 3
    ensures PipMultiplier(PairLabel(base, quote)) == 100.0 <==> base == "JPY" || quote == "JPY"
  {
    var s := PairLabel(base, quote);
    assert s[3] == '/';
    if base == "JPY" {
      assert OccursAt(s, "JPY", 0) by { assert s[0..3] == base; }
    }
    if quote == "JPY" {
      assert OccursAt(s, "JPY", 4) by { assert s[4..7] == quote; }
    }
    if i :| OccursAt(s, "JPY", i) {
      assert s[i..i + 3] == "JPY";
      assert s[i..i + 3][0] == s[i] && s[i..i + 3][1] == s[i + 1] && s[i..i + 3][2] == s[i + 2];
      assert s[i] == 'J' && s[i + 1] == 'P' && s[i + 2] == 'Y';
      assert i == 0 || i == 4;
      if i == 0 { assert base == s[0..3]; }
      if i == 4 { assert quote == s[4..7]; }
    }
  }

  /** (forward - spot) scaled to pips. */
  function ForwardPoints(spot: real, forward: real, pair: string): (points: real)
    ensures points > 0.0 <==> forward > spot
    ensures points < 0.0 <==> forward < spot
    ensures points == 0.0 <==> forward == spot
  {
    var pipMultiplier := PipMultiplier(pair);
    (forward - spot) * pipMultiplier
  }

  /** A JPY pair shows one hundredth as many points as a non-JPY pair for the same move. */
  lemma JpyPointsScale(spot: real, forward: real)
    ensures ForwardPoints(spot, forward, "EUR/USD") == 100.0 * ForwardPoints(spot, forward, "USD/JPY")
  {
    PipMultiplierOfPair("EUR", "USD");
    PipMultiplierOfPair("USD", "JPY");
    assert PairLabel("EUR", "USD") == "EUR/USD";
    assert PairLabel("USD", "JPY") == "USD/JPY";
  }

  // ---------------------------------------------------------------------------
  // Trade signal (getTradeSignal)
  // ---------------------------------------------------------------------------

  /** The five signals; each carries the text, CSS class and icon the source returns. */
  datatype TradeSignal = StrongBuy | Buy | Neutral | Sell | StrongSell {
    function Text(): string {
      match this
      case StrongBuy => "STRONG BUY"
      case Buy => "BUY"
      case Neutral => "NEUTRAL"
      case Sell => "SELL"
      case StrongSell => "STRONG SELL"
    }
    function ClassName(): string {
      match this
      case StrongBuy | Buy => "signal-positive"
      case Neutral => "signal-neutral"
      case Sell | StrongSell => "signal-negative"
    }
    function Icon(): string {
      match this
      case StrongBuy | Buy => "fa-arrow-up"
      case Neutral => "fa-minus"
      case Sell | StrongSell => "fa-arrow-down"
    }
    /** Position of the band on the return axis, from STRONG SELL (-2) to STRONG BUY (2). */
    function Rank(): int {
      match this
      case StrongSell => -2
      case Sell => -1
      case Neutral => 0
      case Buy => 1
      case StrongBuy => 2
    }
  }

  /** The first matching test wins: > 3, > 1, < -3, < -1, otherwise neutral. */
  function GetTradeSignal(annualizedReturn: real): (s: TradeSignal)
    ensures s == StrongBuy <==> annualizedReturn > 3.0
    ensures s == Buy <==> 1.0 < annualizedReturn <= 3.0
    ensures s == Neutral <==> -1.0 <= annualizedReturn <= 1.0
    ensures s == Sell <==> -3.0 <= annualizedReturn < -1.0
    ensures s == StrongSell <==> annualizedReturn < -3.0
  {
    if annualizedReturn > 3.0 then StrongBuy
    else if annualizedReturn > 1.0 then Buy
    else if annualizedReturn < -3.0 then StrongSell
    else if annualizedReturn < -1.0 then Sell
    else Neutral
  }

  /** The class name and icon follow the direction of the return. */
  lemma SignalDirection(annualizedReturn: real)
    ensures GetTradeSignal(annualizedReturn).ClassName() == "signal-positive" <==> annualizedReturn > 1.0
    ensures GetTradeSignal(annualizedReturn).ClassName() == "signal-negative" <==> annualizedReturn < -1.0
    ensures GetTradeSignal(annualizedReturn).ClassName() == "signal-neutral" <==> -1.0 <= annualizedReturn <= 1.0
    ensures GetTradeSignal(annualizedReturn).Icon() == "fa-arrow-up" <==> annualizedReturn > 1.0
    ensures GetTradeSignal(annualizedReturn).Icon() == "fa-arrow-down" <==> annualizedReturn < -1.0
  {
  }

  /** A larger return never gives a lower band. */
  lemma SignalMonotone(a: real, b: real)
    requires a <= b
    ensures GetTradeSignal(a).Rank() <= GetTradeSignal(b).Rank()
  {
  }

  /** The boundary values fall on the side the comparisons put them. */
  lemma SignalBoundaries()
    ensures GetTradeSignal(3.0) == Buy && GetTradeSignal(3.0001) == StrongBuy
    ensures GetTradeSignal(1.0) == Neutral && GetTradeSignal(-1.0) == Neutral
    ensures GetTradeSignal(-3.0) == Sell && GetTradeSignal(-3.0001) == StrongSell
  {
  }

  // ---------------------------------------------------------------------------
  // Carry figures (the arithmetic of calculateCarryTrade)
  // ---------------------------------------------------------------------------

  /** The record calculateCarryTrade stores in `state.calculations`. */
  datatype Calculation = Calculation(
    currencyPair: string,
    spotRate: real,
    forwardRate: real,
    forwardPoints: real,
    interestDifferential: real,
    carryReturn: real,
    annualizedReturn: real,
    profitLoss: real,
    tradeSignal: TradeSignal,
    baseCurrency: string,
    quoteCurrency: string,
    days: int,
    investment: real)

  /** The figures for one pair, horizon and investment at a given spot rate. */
  function Calculate(base: string, quote: string, days: int, investment: real,
                     interestBase: real, interestQuote: real, spot: real): (c: Calculation)
    requires spot != 0.0 && days != 0 && ParityDenominator(interestBase, days) != 0.0
    ensures c.currencyPair == PairLabel(base, quote) && c.spotRate == spot
    ensures c.baseCurrency == base && c.quoteCurrency == quote
    ensures c.days == days && c.investment == investment
    ensures c.forwardRate * ParityDenominator(interestBase, days) == spot * ParityDenominator(interestQuote, days)
    ensures c.forwardPoints > 0.0 <==> c.forwardRate > spot
    ensures c.forwardPoints < 0.0 <==> c.forwardRate < spot
    ensures c.tradeSignal == StrongBuy <==> c.annualizedReturn > 3.0
    ensures c.tradeSignal == Buy <==> 1.0 < c.annualizedReturn <= 3.0
    ensures c.tradeSignal == Neutral <==> -1.0 <= c.annualizedReturn <= 1.0
    ensures c.tradeSignal == Sell <==> -3.0 <= c.annualizedReturn < -1.0
    ensures c.tradeSignal == StrongSell <==> c.annualizedReturn < -3.0
  {
    var currencyPair := PairLabel(base, quote);
    var forwardRate := ForwardRate(spot, interestBase, interestQuote, days);
    var forwardPoints := ForwardPoints(spot, forwardRate, currencyPair);
    var interestDifferential := interestQuote - interestBase;
    var carryReturn := ((forwardRate / spot) - 1.0) * 100.0;
    var annualizedReturn := carryReturn * (365.0 / days as real);
    var profitLoss := investment * (carryReturn / 100.0);
    var tradeSignal := GetTradeSignal(annualizedReturn);
    Calculation(currencyPair, spot, forwardRate, forwardPoints, interestDifferential,
                carryReturn, annualizedReturn, profitLoss, tradeSignal,
                base, quote, days, investment)
  }

  /** The period return is the differential over the 360-day year fraction,
      discounted by the parity denominator; it does not depend on the spot rate. */
  lemma CarryReturnClosedForm(base: string, quote: string, days: int, investment: real,
                              interestBase: real, interestQuote: real, spot: real)
    requires spot != 0.0 && days != 0 && ParityDenominator(interestBase, days) != 0.0
    ensures var c := Calculate(base, quote, days, investment, interestBase, interestQuote, spot);
      && c.interestDifferential == interestQuote - interestBase
      && c.carryReturn == c.interestDifferential * YearFraction360(days) / ParityDenominator(interestBase, days)
      && c.profitLoss * 100.0 == investment * c.carryReturn
  {
    var c := Calculate(base, quote, days, investment, interestBase, interestQuote, spot);
    var d := ParityDenominator(interestBase, days);
    var t := YearFraction360(days);
    ForwardPremium(spot, interestBase, interestQuote, days);
    assert c.carryReturn == ((c.forwardRate / spot) - 1.0) * 100.0;
    CarryAlgebra(spot, c.forwardRate, interestQuote - interestBase, t, d);
  }

  /** (f/spot - 1) * 100 when f - spot is spot * (diff/100 * t) / d. */
  lemma CarryAlgebra(spot: real, f: real, diff: real, t: real, d: real)
    requires spot != 0.0 && d != 0.0
    requires f - spot == spot * (diff / 100.0 * t) / d
    ensures ((f / spot) - 1.0) * 100.0 == diff * t / d
  {
    var k := (diff / 100.0 * t) / d;
    assert f - spot == spot * k;
    assert f == spot * (1.0 + k);
    var q := f / spot;
    assert q * spot == f;
    assert (q - (1.0 + k)) * spot == 0.0;
    ZeroFactor(q - (1.0 + k), spot);
    assert k * 100.0 == diff * t / d;
  }

  /** Annualising on a 365-day year after pricing on a 360-day year:
      the annualised return is the differential times 365/360 over the denominator. */
  lemma AnnualizedClosedForm(base: string, quote: string, days: int, investment: real,
                             interestBase: real, interestQuote: real, spot: real)
    requires spot != 0.0 && days != 0 && ParityDenominator(interestBase, days) != 0.0
    ensures var c := Calculate(base, quote, days, investment, interestBase, interestQuote, spot);
      c.annualizedReturn == c.interestDifferential * (365.0 / 360.0) / ParityDenominator(interestBase, days)
  {
    var c := Calculate(base, quote, days, investment, interestBase, interestQuote, spot);
    var d := ParityDenominator(interestBase, days);
    CarryReturnClosedForm(base, quote, days, investment, interestBase, interestQuote, spot);
    var x := c.interestDifferential / d;
    assert c.carryReturn == x * (days as real / 360.0);
    assert c.annualizedReturn == x * (days as real / 360.0) * (365.0 / days as real);
    assert (days as real / 360.0) * (365.0 / days as real) == 365.0 / 360.0;
  }

  /** With positive horizon and denominator, the period return, the annualised
      return and the profit on a positive investment all have the sign of the differential. */
  lemma CarrySign(base: string, quote: string, days: int, investment: real,
                  interestBase: real, interestQuote: real, spot: real)
    requires spot != 0.0 && days > 0 && ParityDenominator(interestBase, days) > 0.0
    ensures var c := Calculate(base, quote, days, investment, interestBase, interestQuote, spot);
      && (c.carryReturn > 0.0 <==> interestQuote > interestBase)
      && (c.carryReturn < 0.0 <==> interestQuote < interestBase)
      && (c.annualizedReturn > 0.0 <==> interestQuote > interestBase)
      && (c.annualizedReturn < 0.0 <==> interestQuote < interestBase)
      && (investment > 0.0 ==> (c.profitLoss > 0.0 <==> interestQuote > interestBase))
      && (investment > 0.0 ==> (c.profitLoss < 0.0 <==> interestQuote < interestBase))
  {
    var c := Calculate(base, quote, days, investment, interestBase, interestQuote, spot);
    var d := ParityDenominator(interestBase, days);
    var diff := interestQuote - interestBase;
    var t := YearFraction360(days);
    CarryReturnClosedForm(base, quote, days, investment, interestBase, interestQuote, spot);
    AnnualizedClosedForm(base, quote, days, investment, interestBase, interestQuote, spot);
    assert t > 0.0;
    SignOfQuotient(diff * t, d);
    SignOfQuotient(diff * (365.0 / 360.0), d);
    if investment > 0.0 {
      assert c.profitLoss == investment * c.carryReturn / 100.0;
      assert c.profitLoss > 0.0 <==> c.carryReturn > 0.0 by {
        if c.carryReturn > 0.0 { assert investment * c.carryReturn > 0.0; }
        if c.carryReturn <= 0.0 { assert investment * c.carryReturn <= 0.0; }
      }
      assert c.profitLoss < 0.0 <==> c.carryReturn < 0.0 by {
        if c.carryReturn < 0.0 { assert investment * c.carryReturn < 0.0; }
        if c.carryReturn >= 0.0 { assert investment * c.carryReturn >= 0.0; }
      }
    }
  }

  /** Equal interest rates give a neutral signal and no profit or loss. */
  lemma EqualRatesNeutral(base: string, quote: string, days: int, investment: real,
                          rate: real, spot: real)
    requires spot != 0.0 && days != 0 && ParityDenominator(rate, days) != 0.0
    ensures var c := Calculate(base, quote, days, investment, rate, rate, spot);
      c.forwardRate == spot && c.forwardPoints == 0.0 && c.carryReturn == 0.0
      && c.annualizedReturn == 0.0 && c.profitLoss == 0.0 && c.tradeSignal == Neutral
  {
    CarryReturnClosedForm(base, quote, days, investment, rate, rate, spot);
    AnnualizedClosedForm(base, quote, days, investment, rate, rate, spot);
    EqualRatesNoPremium(spot, rate, days);
  }

  /** The calculator's default scenario: EUR/USD at 1.085, 4.25% against 5.50% for 90 days is a BUY. */
  lemma DefaultScenarioIsBuy()
    ensures ParityDenominator(4.25, 90) == 1.010625
    ensures Calculate("EUR", "USD", 90, 10000.0, 4.25, 5.50, 1.085).tradeSignal == Buy
  {
    AnnualizedClosedForm("EUR", "USD", 90, 10000.0, 4.25, 5.50, 1.085);
  }

  // ---------------------------------------------------------------------------
  // Spot-rate lookup (getExchangeRate over state.ecbRates)
  // ---------------------------------------------------------------------------

  const EUR: string := "EUR"

  /** A map entry that JavaScript's `||` keeps: present and non-zero. */
  predicate Usable(rates: map<string, real>, currency: string) {
    currency in rates && rates[currency] != 0.0
  }

  /** `rates[currency] || 1`. */
  function RateOr1(rates: map<string, real>, currency: string): (r: real)
    ensures r != 0.0
    ensures Usable(rates, currency) ==> r == rates[currency]
    ensures !Usable(rates, currency) ==> r == 1.0
  {
    if Usable(rates, currency) then rates[currency] else 1.0
  }

  /** The price of one unit of `base` in `quote`, from EUR-based reference rates. */
  function ExchangeRate(rates: map<string, real>, base: string, quote: string): (r: real)
    ensures r != 0.0
  {
    if base == EUR then
      RateOr1(rates, quote)
    else if quote == EUR then
      var ecbRate := if base in rates then rates[base] else 0.0;
      if ecbRate != 0.0 then 1.0 / ecbRate else 1.0
    else
      var eurToQuote := RateOr1(rates, quote);
      var eurToBase := RateOr1(rates, base);
      if eurToBase != 0.0 && eurToQuote != 0.0 then eurToQuote / eurToBase else 1.0
  }

  /** The three lookup cases, with missing or zero entries read as 1. */
  lemma ExchangeRateCases(rates: map<string, real>, base: string, quote: string)
    ensures base == EUR ==> ExchangeRate(rates, base, quote) == RateOr1(rates, quote)
    ensures base != EUR && quote == EUR ==> ExchangeRate(rates, base, quote) == 1.0 / RateOr1(rates, base)
    ensures base != EUR && quote != EUR ==>
      ExchangeRate(rates, base, quote) == RateOr1(rates, quote) / RateOr1(rates, base)
  {
  }

  /** Quoting a pair both ways gives reciprocal rates, whatever the table holds,
      for every pair except EUR/EUR. */
  lemma ExchangeRateReciprocal(rates: map<string, real>, base: string, quote: string)
    requires base != EUR || quote != EUR
    ensures ExchangeRate(rates, base, quote) * ExchangeRate(rates, quote, base) == 1.0
  {
    var b := RateOr1(rates, base);
    var q := RateOr1(rates, quote);
    if base == EUR {
      assert ExchangeRate(rates, quote, base) == 1.0 / q;
    } else if quote == EUR {
      assert ExchangeRate(rates, base, quote) == 1.0 / b;
    } else {
      assert ExchangeRate(rates, base, quote) == q / b;
      assert ExchangeRate(rates, quote, base) == b / q;
      assert (q / b) * (b / q) == 1.0;
    }
  }

  /** EUR/EUR reads `rates[EUR] || 1` both ways, so the two quotes are reciprocal only if that entry is 1 (or -1). */
  lemma EurEurNotReciprocal()
    ensures ExchangeRate(map[EUR := 2.0], EUR, EUR) * ExchangeRate(map[EUR := 2.0], EUR, EUR) == 4.0
  {
  }

  /** A cross rate is the base-to-EUR rate times the EUR-to-quote rate. */
  lemma CrossRateThroughEur(rates: map<string, real>, base: string, quote: string)
    requires base != EUR && quote != EUR
    ensures ExchangeRate(rates, base, quote) == ExchangeRate(rates, base, EUR) * ExchangeRate(rates, EUR, quote)
  {
    var b := RateOr1(rates, base);
    var q := RateOr1(rates, quote);
    assert ExchangeRate(rates, base, EUR) == 1.0 / b;
    assert (1.0 / b) * q == q / b;
  }

  /** `rates[currency] || 0`, the interest-rate lookup of the pairs table and the selection handler. */
  function InterestOrZero(rates: map<string, real>, currency: string): (r: real)
    ensures currency in rates ==> r == rates[currency]
    ensures currency !in rates ==> r == 0.0
  {
    if currency in rates && rates[currency] != 0.0 then rates[currency] else 0.0
  }

  /** The reference rates used when the ECB feed cannot be read. */
  const FallbackRates: map<string, real> := map[
    "USD" := 1.08500, "GBP" := 0.85750, "JPY" := 160.15000, "CHF" := 0.96000,
    "AUD" := 1.63000, "CAD" := 1.45000, "NZD" := 1.78000, "SEK" := 11.25000,
    "NOK" := 11.50000, "DKK" := 7.46000, "EUR" := 1.0]

  /** The central-bank rates the calculator starts with, in percent. */
  const DefaultInterestRates: map<string, real> := map[
    "EUR" := 4.25, "USD" := 5.50, "GBP" := 5.25, "JPY" := 0.10, "CHF" := 1.50,
    "AUD" := 4.35, "CAD" := 4.00, "NZD" := 4.50, "SEK" := 3.75, "NOK" := 4.00,
    "DKK" := 4.25]

  /** Both tables know the same currencies, and every fallback rate is positive. */
  lemma DefaultTablesAgree()
    ensures DefaultInterestRates.Keys == FallbackRates.Keys
    ensures forall c :: c in FallbackRates ==> FallbackRates[c] > 0.0
    ensures FallbackRates[EUR] == 1.0
  {
  }

  /** With the fallback table, EUR-based pairs read the table and cross rates divide through EUR. */
  lemma FallbackLookups()
    ensures ExchangeRate(FallbackRates, "EUR", "USD") == 1.085
    ensures ExchangeRate(FallbackRates, "USD", "EUR") == 1.0 / 1.085
    ensures ExchangeRate(FallbackRates, "GBP", "USD") == 1.085 / 0.8575
  {
  }
}
