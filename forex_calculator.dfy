/** The stateful part of the carry-trade calculator (class ForexCalculatorECB in
    script.js): the ECB rate table, the editable interest-rate table, the stored
    calculation and the major-pairs table. Form fields are passed in as values;
    the DOM, the network and the timers are not part of this model. */
module ForexCalculator {
  import opened Wrappers
  import opened CarryMath

  /** What the calculator form holds when a calculation is triggered. */
  datatype FormInput = FormInput(
    baseCurrency: string,
    quoteCurrency: string,
    days: int,
    investment: real,
    interestBase: real,
    interestQuote: real)

  /** The form after the swap button: currencies and their interest rates change places. */
  function SwapCurrencies(form: FormInput): (swapped: FormInput)
    ensures swapped.days == form.days && swapped.investment == form.investment
    ensures PairLabel(swapped.quoteCurrency, swapped.baseCurrency) == PairLabel(form.baseCurrency, form.quoteCurrency)
    ensures swapped.interestBase - swapped.interestQuote == form.interestQuote - form.interestBase
  {
    form.(baseCurrency := form.quoteCurrency, quoteCurrency := form.baseCurrency,
          interestBase := form.interestQuote, interestQuote := form.interestBase)
  }

  /** Swapping twice restores the form. */
  lemma SwapTwice(form: FormInput)
    ensures SwapCurrencies(SwapCurrencies(form)) == form
  {
  }

  /** After a swap the spot rate is the reciprocal of the old one (except EUR/EUR),
      and so is the forward rate. */
  lemma SwapInvertsRates(rates: map<string, real>, form: FormInput)
    requires form.baseCurrency != EUR || form.quoteCurrency != EUR
    requires ParityDenominator(form.interestBase, form.days) != 0.0
    requires ParityDenominator(form.interestQuote, form.days) != 0.0
    ensures var s := ExchangeRate(rates, form.baseCurrency, form.quoteCurrency);
      var t := SwapCurrencies(form);
      var s' := ExchangeRate(rates, t.baseCurrency, t.quoteCurrency);
      && s * s' == 1.0
      && ForwardRate(s, form.interestBase, form.interestQuote, form.days)
         * ForwardRate(s', t.interestBase, t.interestQuote, t.days) == 1.0
  {
    var s := ExchangeRate(rates, form.baseCurrency, form.quoteCurrency);
    var t := SwapCurrencies(form);
    var s' := ExchangeRate(rates, t.baseCurrency, t.quoteCurrency);
    ExchangeRateReciprocal(rates, form.baseCurrency, form.quoteCurrency);
    ForwardRateReciprocal(s, s', form.interestBase, form.interestQuote, form.days);
  }

  /** One row of the major-pairs table. */
  datatype PairRow = PairRow(
    pair: string,
    spotRate: real,
    forwardRate: real,
    forwardPoints: real,
    interestDiff: real,
    carryReturn: real,
    annualizedReturn: real,
    signal: TradeSignal)

  /** The pairs listed in the table, all with EUR as base. */
  const MajorPairs: seq<(string, string)> := [
    ("EUR", "USD"), ("EUR", "GBP"), ("EUR", "JPY"), ("EUR", "CHF"), ("EUR", "AUD"),
    ("EUR", "CAD"), ("EUR", "NZD"), ("EUR", "SEK"), ("EUR", "NOK"), ("EUR", "DKK")]

  /** The ten listed pairs are distinct, all quote a currency against EUR, and every
      quote currency has a fallback rate and a default interest rate. */
  lemma MajorPairsAreEurPairs()
    ensures |MajorPairs| == 10
    ensures forall i :: 0 <= i < |MajorPairs| ==> MajorPairs[i].0 == EUR && MajorPairs[i].1 != EUR
    ensures forall i, j :: 0 <= i < j < |MajorPairs| ==> MajorPairs[i].1 != MajorPairs[j].1
    ensures forall i :: 0 <= i < |MajorPairs| ==>
      MajorPairs[i].1 in FallbackRates && MajorPairs[i].1 in DefaultInterestRates
  {
  }

  /** The table prices a 90-day forward. */
  const TableDays: int := 90

  /** The table can be computed when every listed base currency keeps the parity denominator non-zero. */
  predicate TableComputable(interestRates: map<string, real>) {
    forall i :: 0 <= i < |MajorPairs| ==>
      ParityDenominator(InterestOrZero(interestRates, MajorPairs[i].0), TableDays) != 0.0
  }

  /** The figures of one table row, with missing interest rates read as 0. */
  function MajorPairRow(ecbRates: map<string, real>, interestRates: map<string, real>,
                        base: string, quote: string): (row: PairRow)
    requires ParityDenominator(InterestOrZero(interestRates, base), TableDays) != 0.0
    ensures row.pair == PairLabel(base, quote)
    ensures row.spotRate == ExchangeRate(ecbRates, base, quote)
    ensures row.interestDiff == InterestOrZero(interestRates, quote) - InterestOrZero(interestRates, base)
  {
    var spotRate := ExchangeRate(ecbRates, base, quote);
    var interestBase := InterestOrZero(interestRates, base);
    var interestQuote := InterestOrZero(interestRates, quote);
    var forwardRate := ForwardRate(spotRate, interestBase, interestQuote, TableDays);
    var forwardPoints := ForwardPoints(spotRate, forwardRate, PairLabel(base, quote));
    var interestDiff := interestQuote - interestBase;
    var carryReturn := ((forwardRate / spotRate) - 1.0) * 100.0;
    var annualizedReturn := carryReturn * (365.0 / TableDays as real);
    PairRow(PairLabel(base, quote), spotRate, forwardRate, forwardPoints, interestDiff,
            carryReturn, annualizedReturn, GetTradeSignal(annualizedReturn))
  }

  /** A table row shows the same figures as the calculator for that pair over 90 days,
      with the interest rates taken from the table. */
  lemma MajorPairRowAgreesWithCalculate(ecbRates: map<string, real>, interestRates: map<string, real>,
                                        base: string, quote: string, investment: real)
    requires ParityDenominator(InterestOrZero(interestRates, base), TableDays) != 0.0
    ensures var row := MajorPairRow(ecbRates, interestRates, base, quote);
      var c := Calculate(base, quote, TableDays, investment, InterestOrZero(interestRates, base),
                         InterestOrZero(interestRates, quote), ExchangeRate(ecbRates, base, quote));
      && row.pair == c.currencyPair && row.spotRate == c.spotRate
      && row.forwardRate == c.forwardRate && row.forwardPoints == c.forwardPoints
      && row.interestDiff == c.interestDifferential && row.carryReturn == c.carryReturn
      && row.annualizedReturn == c.annualizedReturn && row.signal == c.tradeSignal
  {
  }

  /** The calculator's state: rate tables and the last calculation. */
  class Calculator {
    /** Interest rates in percent, by currency code. */
    var interestRates: map<string, real>
    /** ECB reference rates: units of each currency per euro. */
    var ecbRates: map<string, real>
    /** `state.calculations`; None until the first calculation. */
    var calculations: Option<Calculation>

    constructor ()
      ensures interestRates == DefaultInterestRates
      ensures ecbRates == map[] && calculations == None
    {
      interestRates := DefaultInterestRates;
      ecbRates := map[];
      calculations := None;
    }

    /** The interest rates shown for a newly selected pair. */
    function SelectionInterestRates(base: string, quote: string): (rates: (real, real))
      reads this
      ensures base in interestRates ==> rates.0 == interestRates[base]
      ensures quote in interestRates ==> rates.1 == interestRates[quote]
      ensures base !in interestRates ==> rates.0 == 0.0
      ensures quote !in interestRates ==> rates.1 == 0.0
    {
      (InterestOrZero(interestRates, base), InterestOrZero(interestRates, quote))
    }

    /** Prices the form's pair at the current spot rate and stores the result. */
    method CalculateCarryTrade(form: FormInput)
      requires form.days != 0 && ParityDenominator(form.interestBase, form.days) != 0.0
      modifies this
      ensures calculations == Some(Calculate(form.baseCurrency, form.quoteCurrency, form.days,
        form.investment, form.interestBase, form.interestQuote,
        ExchangeRate(ecbRates, form.baseCurrency, form.quoteCurrency)))
      ensures interestRates == old(interestRates) && ecbRates == old(ecbRates)
    {
      var spotRate := ExchangeRate(ecbRates, form.baseCurrency, form.quoteCurrency);
      calculations := Some(Calculate(form.baseCurrency, form.quoteCurrency, form.days,
        form.investment, form.interestBase, form.interestQuote, spotRate));
    }

    /** Records the form's two interest rates (the quote's wins if both codes are equal), then recalculates. */
    method SaveInterestRate(form: FormInput)
      requires form.days != 0 && ParityDenominator(form.interestBase, form.days) != 0.0
      modifies this
      ensures interestRates == old(interestRates)[form.baseCurrency := form.interestBase]
                                                 [form.quoteCurrency := form.interestQuote]
      ensures ecbRates == old(ecbRates)
      ensures calculations == Some(Calculate(form.baseCurrency, form.quoteCurrency, form.days,
        form.investment, form.interestBase, form.interestQuote,
        ExchangeRate(ecbRates, form.baseCurrency, form.quoteCurrency)))
    {
      interestRates := interestRates[form.baseCurrency := form.interestBase];
      interestRates := interestRates[form.quoteCurrency := form.interestQuote];
      CalculateCarryTrade(form);
    }

    /** Replaces the ECB table with the built-in reference rates. */
    method UseFallbackRates()
      modifies this
      ensures ecbRates == FallbackRates
      ensures interestRates == old(interestRates) && calculations == old(calculations)
    {
      ecbRates := FallbackRates;
    }

    /** The rows of the major-pairs table, in the order the pairs are listed. */
    method LoadMajorPairsData() returns (rows: seq<PairRow>)
      requires TableComputable(interestRates)
      ensures |rows| == |MajorPairs|
      ensures forall i :: 0 <= i < |rows| ==>
        rows[i] == MajorPairRow(ecbRates, interestRates, MajorPairs[i].0, MajorPairs[i].1)
    {
      rows := [];
      var days := TableDays;
      for k := 0 to |MajorPairs|
        invariant |rows| == k
        invariant forall i :: 0 <= i < k ==>
          rows[i] == MajorPairRow(ecbRates, interestRates, MajorPairs[i].0, MajorPairs[i].1)
      {
        var (base, quote) := MajorPairs[k];
        var pair := PairLabel(base, quote);
        var spotRate := ExchangeRate(ecbRates, base, quote);
        var interestBase := InterestOrZero(interestRates, base);
        var interestQuote := InterestOrZero(interestRates, quote);
        var forwardRate := ForwardRate(spotRate, interestBase, interestQuote, days);
        var forwardPoints := ForwardPoints(spotRate, forwardRate, pair);
        var interestDiff := interestQuote - interestBase;
        var carryReturn := ((forwardRate / spotRate) - 1.0) * 100.0;
        var annualizedReturn := carryReturn * (365.0 / days as real);
        var signal := GetTradeSignal(annualizedReturn);
        rows := rows + [PairRow(pair, spotRate, forwardRate, forwardPoints, interestDiff,
                                carryReturn, annualizedReturn, signal)];
      }
    }
  }
}
