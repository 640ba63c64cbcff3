# Carry-trade calculator and chart helpers in Dafny

This project models two JavaScript files.

`script.js` is a foreign-exchange carry-trade calculator. It takes ECB reference rates (units of each currency per euro) and central-bank interest rates. It prices a forward with covered interest parity on a 360-day year, then scales the premium into forward points: 100 for a pair label containing `JPY`, 10000 otherwise. From these it derives the period and annualised (365-day) return and the profit or loss. It classifies the annualised return into a five-band trade signal and fills a table of ten EUR pairs at 90 days. It also shows a market-status banner and schedules a daily refresh at 16:05 that skips weekends.

`chart.js` is a reduced build of Chart.js 4.4.1. Its discrete parts are modelled:
- the five keyed registries;
- the duplicate-free `registerables` list;
- the `uid` counter;
- the `Animator`, a per-chart animation table whose frame step prunes finished items in place;
- `_factorize`, the two clamps and the point-in-area test;
- the hex and named colour parsers and the order in which `getRgba` tries them.

Files and modules:

- `wrappers.dfy` (`Wrappers`) holds Option, Outcome and Result.
- `carry_math.dfy` (`CarryMath`) holds the pure formulas of `script.js`: forward rate, forward points, the trade signal, the figures of one calculation, and the spot-rate lookup.
- `forex_calculator.dfy` (`ForexCalculator`) holds the calculator object: its rate tables, the stored calculation, the swap button's effect on the form, and the major-pairs table loop.
- `market_clock.dfy` (`MarketClock`) holds the market-status classifier and the refresh-day rule.
- `sequences.dfy` (`Sequences`) holds the subsequence relation shared by the chart modules.
- `chart_registry.dfy` (`ChartRegistry`) holds the registries, the `registerables` list and `uid`.
- `chart_animator.dfy` (`ChartAnimator`) holds the `Animator`.
- `chart_math.dfy` (`ChartMath`) holds `_factorize`, `_limitValue`, `_int16Range` and `_isPointInArea`.
- `chart_color.dfy` (`ChartColor`) holds `parseHex`, the named-colour table, `parseNamedColor` and `getRgba`.

JavaScript numbers are modelled as exact `real`s. Integer quantities (days, hours, weekdays, animation totals, the number to factorise) are `int`s. Form fields, clock readings and the ECB table arrive as parameters or fields. Two behaviours of the code are worth knowing:
- **Pip multiplier.** The code uses 100 whenever the pair label contains `JPY` anywhere, not only when the quote currency is JPY. So `JPY/USD` also uses 100 (`CarryMath.PipMultiplierOfPair`).
- **`transparent`.** The colour table maps `transparent` to the eight-digit `#00000000`. Neither hex form accepts eight digits, so `getRgba("transparent")` falls through to opaque black (`ChartColor.TransparentIsOpaqueBlack`).

## Model

| member | source | states |
|---|---|---|
| CarryMath.ForwardRate | script.js:539-546 | the forward rate satisfies covered interest parity: forward × (1 + r_base·days/360) = spot × (1 + r_quote·days/360) |
| CarryMath.ForwardPremium | script.js:539-546 | forward − spot = spot × (differential/100 × days/360) / (1 + r_base·days/360) |
| CarryMath.EqualRatesNoPremium | script.js:539-546 | equal base and quote rates give forward = spot |
| CarryMath.PremiumSign | script.js:539-546 | for spot > 0, days > 0 and a positive denominator: forward > spot iff quote rate > base rate, and forward < spot iff quote rate < base rate |
| CarryMath.ForwardRateReciprocal | script.js:539-546 | pricing the inverted pair at the reciprocal spot, with the rates exchanged, gives the reciprocal forward |
| CarryMath.PairLabel | script.js:561 | the `BASE/QUOTE` label: definition; the swap's effect on it is stated by `ForexCalculator.SwapCurrencies` and the JPY test on it by `PipMultiplierOfPair` |
| CarryMath.IncludesIffOccurs | script.js:550 | the `includes` test holds iff the part occurs at some index |
| CarryMath.PipMultiplier | script.js:549-552 | the multiplier is 100 or 10000, and 100 exactly when `JPY` occurs anywhere in the pair label |
| CarryMath.PipMultiplierOfPair | script.js:549-552 | for three-letter codes the multiplier of `BASE/QUOTE` is 100 iff the base or the quote is `JPY` |
| CarryMath.ForwardPoints | script.js:549-554 | points are positive, negative or zero exactly when forward is above, below or equal to spot |
| CarryMath.JpyPointsScale | script.js:549-554 | the same rate delta gives 100 times as many points on `EUR/USD` as on `USD/JPY` |
| CarryMath.TradeSignal.Text | script.js:615-647 | the signal's label: definition (STRONG BUY, BUY, NEUTRAL, SELL, STRONG SELL); which band gets which label is stated by `GetTradeSignal` |
| CarryMath.TradeSignal.ClassName | script.js:615-647 | the CSS class: definition; its link to the return is stated by `SignalDirection` |
| CarryMath.TradeSignal.Icon | script.js:615-647 | the arrow icon: definition; its link to the return is stated by `SignalDirection` |
| CarryMath.GetTradeSignal | script.js:615-647 | STRONG BUY iff > 3; BUY iff in (1, 3]; NEUTRAL iff in [-1, 1]; SELL iff in [-3, -1); STRONG SELL iff < -3 |
| CarryMath.SignalDirection | script.js:615-647 | class name and icon are positive/up iff the return is > 1, negative/down iff < -1, neutral otherwise |
| CarryMath.SignalMonotone | script.js:615-647 | a ≤ b implies the band rank of a is at most that of b |
| CarryMath.SignalBoundaries | script.js:616-631 | 3 is BUY and just above 3 is STRONG BUY; ±1 are NEUTRAL; -3 is SELL and just below -3 is STRONG SELL |
| CarryMath.Calculate | script.js:557-609 | the stored record carries the pair label, spot, days and investment it was given; the forward rate satisfies parity; the points' sign follows forward − spot; the signal is STRONG BUY, BUY, NEUTRAL, SELL or STRONG SELL exactly when the annualised return is > 3, in (1, 3], in [-1, 1], in [-3, -1) or < -3 |
| CarryMath.CarryReturnClosedForm | script.js:577-580 | differential = quote − base; carry return = differential × (days/360) / (1 + r_base·days/360); profit × 100 = investment × carry return |
| CarryMath.AnnualizedClosedForm | script.js:539-580 | the annualised return = differential × 365/360 / (1 + r_base·days/360) |
| CarryMath.CarrySign | script.js:577-580 | with days > 0 and a positive denominator, carry return and annualised return are positive iff quote > base and negative iff quote < base; for a positive investment the profit is positive iff quote > base and negative iff quote < base |
| CarryMath.EqualRatesNeutral | script.js:557-609 | equal rates give forward = spot, zero points, zero returns, zero profit and a NEUTRAL signal |
| CarryMath.DefaultScenarioIsBuy | script.js:557-609 | EUR/USD at the default rates (4.25 %, 5.50 %) over 90 days at spot 1.085 is a BUY |
| CarryMath.RateOr1 | script.js:518-529 | a missing or zero ECB entry reads as 1; any other entry is returned as is; the result is never 0 |
| CarryMath.ExchangeRate | script.js:518-536 | the spot rate is never 0 |
| CarryMath.ExchangeRateCases | script.js:518-536 | EUR base gives rates[quote] or 1; EUR quote gives 1/rates[base] or 1; otherwise rates[quote]/rates[base] with missing entries read as 1 |
| CarryMath.ExchangeRateReciprocal | script.js:518-536 | for every table, rate(b, q) × rate(q, b) = 1 unless both codes are EUR |
| CarryMath.EurEurNotReciprocal | script.js:519-520 | EUR/EUR reads the table's EUR entry, so with EUR ↦ 2 the product with itself is 4 |
| CarryMath.CrossRateThroughEur | script.js:528-533 | a cross rate is the product of the two EUR legs |
| CarryMath.InterestOrZero | script.js:707-708 | a missing interest rate reads as 0 |
| CarryMath.DefaultTablesAgree | script.js:489-502 | the default interest-rate table (script.js:21-33) and the fallback ECB table know the same currencies; every fallback rate is positive and EUR's is 1 |
| CarryMath.FallbackLookups | script.js:489-502 | with the fallback table, EUR/USD is 1.085, USD/EUR is 1/1.085 and GBP/USD is 1.085/0.8575 |
| ForexCalculator.SwapCurrencies | script.js:375-384 | the swap keeps days and investment, reverses the pair label and negates the interest differential |
| ForexCalculator.SwapTwice | script.js:375-384 | swapping twice restores the form |
| ForexCalculator.SwapInvertsRates | script.js:375-394 | after a swap the spot rate and the forward rate are the reciprocals of those before it (pairs other than EUR/EUR) |
| ForexCalculator.MajorPairsAreEurPairs | script.js:15-18 | the ten listed pairs all have EUR as base, have distinct non-EUR quotes, and each quote has a fallback rate and a default interest rate |
| ForexCalculator.Calculator.constructor | script.js:20-38 | the calculator starts with the default interest rates, an empty ECB table and no calculation |
| ForexCalculator.MajorPairRow | script.js:702-716 | a table row carries the pair label, the looked-up spot rate and the differential of the looked-up interest rates (missing ones read as 0) |
| ForexCalculator.MajorPairRowAgreesWithCalculate | script.js:702-716 | every figure of a 90-day table row equals the calculator's figure for that pair and those rates |
| ForexCalculator.Calculator.SelectionInterestRates | script.js:332-337 | the form shows each currency's stored rate, or 0 when it has none |
| ForexCalculator.Calculator.CalculateCarryTrade | script.js:557-594 | stores the calculation of the form's pair at the current spot rate and leaves both rate tables unchanged |
| ForexCalculator.Calculator.SaveInterestRate | script.js:321-328 | writes the base rate, then the quote rate, into the table, then stores the recalculated result |
| ForexCalculator.Calculator.UseFallbackRates | script.js:489-503 | the ECB table becomes the fallback table; nothing else changes |
| ForexCalculator.Calculator.LoadMajorPairsData | script.js:693-716 | returns one row per listed pair, in list order, each equal to `MajorPairRow` for that pair |
| MarketClock.MarketStatus.Text | script.js:173-178 | the banner text: definition (Markets Open, Markets Closed, Markets Closed (Weekend)); which status is shown when is stated by `GetMarketStatus` |
| MarketClock.GetMarketStatus | script.js:170-182 | "Closed (Weekend)" iff ISO weekday > 5; "Closed" iff a weekday with hour < 8 or ≥ 17; "Open" iff a weekday with 8 ≤ hour < 17 |
| MarketClock.OpenHours | script.js:170-182 | markets are open exactly Monday to Friday at hours 8 to 16 |
| MarketClock.NextRefreshDay | script.js:853-861 | the refresh day is the start day shifted by the returned number of days, and is Monday to Friday; the shift is 0 (or 1 after 16:05) plus at most 2; every day skipped after that is a weekend day |
| ChartRegistry.Registered | chart.js:44-50 | a present key leaves the map unchanged; an absent key is added with its value; every other entry is kept |
| ChartRegistry.Unregistered | chart.js:51-57 | the key is removed, every other entry is kept, and an absent key changes nothing |
| ChartRegistry.FirstRegistrationWins | chart.js:44-50 | registering a key twice keeps the first value |
| ChartRegistry.UnregisterUndoesRegister | chart.js:44-57 | unregistering a freshly registered key restores the map |
| ChartRegistry.Registry.constructor | chart.js:40 | a registry starts empty |
| ChartRegistry.Registry.Has | chart.js:43 | membership of the key: definition; `Register` and `Unregister` state that it holds after a register and fails after an unregister |
| ChartRegistry.Registry.Get | chart.js:42 | returns a value iff the key is registered, and then the registered value |
| ChartRegistry.Registry.Register | chart.js:44-50 | succeeds iff the key was absent; the map becomes `Registered(old, key, value)` |
| ChartRegistry.Registry.Unregister | chart.js:51-57 | succeeds iff the key was present; the map becomes `Unregistered(old, key)` |
| ChartRegistry.Registries.constructor | chart.js:40-134 | five distinct, empty registries |
| ChartRegistry.Registries.RegisterIn | chart.js:44-50 | `register` on one registry succeeds iff the key was absent, gives `Registered(old, key, value)`, and leaves the other four registries as they were |
| ChartRegistry.Registries.UnregisterIn | chart.js:51-57 | `unregister` on one registry succeeds iff the key was present, gives `Unregistered(old, key)`, and leaves the other four registries as they were |
| ChartRegistry.IndexOf | chart.js:136-160 | -1 iff absent; otherwise the index of the first occurrence |
| ChartRegistry.AddIfNotExists | chart.js:136-140 | appends the item iff it is absent, and keeps a duplicate-free list duplicate-free |
| ChartRegistry.RegisterOne | chart.js:142-148 | one step of `register`: definition (an item with its own `register` leaves the list alone, any other is added if absent); stated by `RegisterAllSpec` |
| ChartRegistry.RegisterAll | chart.js:141-150 | `register` over all items in order: definition; stated by `RegisterAllSpec` |
| ChartRegistry.RemoveFirst | chart.js:157-160 | removes the first occurrence only (an absent item changes nothing); the multiset loses exactly one copy |
| ChartRegistry.UnregisterOne | chart.js:152-161 | one step of `unregister`: definition (an item with its own `unregister` leaves the list alone, any other loses its first occurrence); stated by `UnregisterAllSpec` |
| ChartRegistry.UnregisterAll | chart.js:151-163 | `unregister` over all items in order: definition; stated by `UnregisterAllSpec` |
| ChartRegistry.RegisterAllSpec | chart.js:141-150 | `register` keeps the list duplicate-free, only appends, and adds exactly the items without their own `register` |
| ChartRegistry.UnregisterAllSpec | chart.js:151-163 | on a duplicate-free list, `unregister` removes exactly the plain items named, keeps all others and keeps their order |
| ChartRegistry.RemoveFirstOfUnique | chart.js:157-160 | in a duplicate-free list, removing an item removes every copy and keeps the list duplicate-free |
| ChartRegistry.Registerables.constructor | chart.js:135 | the list starts empty |
| ChartRegistry.Registerables.Register | chart.js:141-150 | the list becomes `RegisterAll(old list, items)` |
| ChartRegistry.Registerables.Unregister | chart.js:151-163 | the list becomes `UnregisterAll(old list, items)` |
| ChartRegistry.UidCounter.constructor | chart.js:14-15 | the counter starts at 0 with no id issued |
| ChartRegistry.UidCounter.Next | chart.js:14-18 | returns the current id and increments it; the new id exceeds every id issued before |
| ChartRegistry.IssuedStrictlyIncreasing | chart.js:14-18 | the sequence 0, 1, 2, … of issued ids is strictly increasing and duplicate-free |
| ChartAnimator.Active | chart.js:201-212 | the items the splice loop keeps: definition (the active ones, in order); stated by `ActiveSpec` and `ActiveConcat` |
| ChartAnimator.RaiseDuration | chart.js:203-206 | the duration after scanning the kept items: definition; stated by `RaiseDurationIsMax` |
| ChartAnimator.Processed | chart.js:195-197 | a chart the step works on (running and with items): definition; used by `UpdatedSpec` |
| ChartAnimator.StaysRunning | chart.js:219-221 | a chart counted in `remaining`: definition; stated by `StaysRunningAfterUpdate` |
| ChartAnimator.Updated | chart.js:194-222 | a chart's record after one step: definition; stated in full by `UpdatedSpec` |
| ChartAnimator.ActiveSpec | chart.js:201-212 | the pruned list holds exactly the active items, as a subsequence of the original |
| ChartAnimator.ActiveConcat | chart.js:201-212 | pruning distributes over concatenation |
| ChartAnimator.RaiseDurationIsMax | chart.js:203-206 | the raised duration is at least the old duration and every total, and equals one of them |
| ChartAnimator.UpdatedSpec | chart.js:194-222 | a chart not running or without items is untouched; otherwise survivors are the active items, the duration covers each survivor, the chart keeps running iff something survives, an emptied chart has duration 0, and listeners are kept |
| ChartAnimator.StaysRunningAfterUpdate | chart.js:214-221 | a processed chart counts towards `remaining` iff it is still running after the step |
| ChartAnimator.UpdateAll | chart.js:194-222 | a table whose every entry is the updated entry equals the map of `Updated` over the old table, and every chart keeps its listeners |
| ChartAnimator.Animator.PruneItems | chart.js:198-218 | the in-place splice loop yields `Updated(a)` |
| ChartAnimator.Animator.UpdateTable | chart.js:193-223 | every chart is replaced by `Updated` of itself; the count of charts still running is positive iff some processed chart keeps an item |
| ChartAnimator.Animator.Update | chart.js:192-224 | the chart table becomes the updated table, and `_running` is true iff some processed chart keeps an item |
| ChartAnimator.Animator.constructor | chart.js:165-169 | no charts, not running, no frame requested |
| ChartAnimator.Animator.Refresh | chart.js:179-191 | with no pending frame, marks the animator running and requests a frame; otherwise changes nothing |
| ChartAnimator.Animator.AnimationFrame | chart.js:184-189 | after a frame the table is updated, and another frame is pending exactly when the animator is still running |
| ChartAnimator.Animator.GetAnims | chart.js:225-231 | fails with "Chart not found" iff the chart is unregistered; otherwise returns its record |
| ChartAnimator.Animator.Listen | chart.js:232-239 | fails for an unregistered chart or an event type other than start/complete/progress/stop; otherwise appends the listener to that list only |
| ChartAnimator.Animator.Add | chart.js:240-244 | appends the items to the chart's list and refreshes; fails for an unregistered chart |
| ChartAnimator.Animator.Has | chart.js:245-247 | whether the chart is registered: definition; `Running` states that a running chart is registered |
| ChartAnimator.Animator.Start | chart.js:248-257 | a stopped chart becomes running with duration 0 and refreshes; a running chart is unchanged; fails for an unregistered chart |
| ChartAnimator.Animator.Running | chart.js:258-263 | false for an unregistered chart |
| ChartAnimator.Animator.Stop | chart.js:264-271 | a running chart stops and keeps its items; a stopped chart is unchanged; fails for an unregistered chart |
| ChartAnimator.Animator.Remove | chart.js:272-274 | drops the chart and reports whether it was registered |
| ChartAnimator.Animator.Register | chart.js:275-288 | (re)initialises the chart's record: not running, no items, four empty listener lists, duration 0 |
| ChartMath.Factorize | chart.js:336-351 | for n ≥ 2 the result is non-decreasing, all prime, with product n; for n < 2 it is empty |
| ChartMath.DivideOut | chart.js:339-346 | dividing out a found divisor keeps the loop invariant (the divisor is prime and at least the previous factors) and shrinks the rest |
| ChartMath.LastFactor | chart.js:347-349 | the leftover factor above 1 is prime and completes the product |
| ChartMath.LimitValue | chart.js:428-430 | lies in [min, max] when min ≤ max; identity inside; min below, max above; min when min > max |
| ChartMath.Int16Range | chart.js:431-433 | lies in [-32768, 32767]; identity inside; saturates outside |
| ChartMath.Int16RangeIsLimitValue | chart.js:428-433 | `_int16Range(n)` = `_limitValue(n, -32768, 32767)` |
| ChartMath.LimitValueIdempotent | chart.js:428-430 | clamping twice equals clamping once |
| ChartMath.IsPointInArea | chart.js:437-441 | true iff the point lies in the closed area grown by `margin` on every side |
| ChartMath.AreaMonotoneInMargin | chart.js:437-441 | a larger margin accepts every point a smaller one accepts |
| ChartMath.AreaBoundariesInclusive | chart.js:437-441 | corners are inside at margin 0; a point just beyond an edge is not |
| ChartColor.HexDigitValue | chart.js:717 | a hex digit's value lies in 0..15 |
| ChartColor.HexPair | chart.js:716-718 | the value of two hex digits lies in 0..255; `DigitsOfPair` states that spelling it back gives the two digits in lower case |
| ChartColor.MatchesHex6 | chart.js:522 | `#` plus exactly six hex digits: definition; stated by `ParseHex` |
| ChartColor.MatchesHex3 | chart.js:523 | `#` plus exactly three hex digits: definition; stated by `ParseHex` |
| ChartColor.ParseHex | chart.js:711-733 | returns a colour iff the string is `#` plus exactly six or exactly three hex digits; every channel is in 0..255 and alpha is 1 |
| ChartColor.HexRoundTrip | chart.js:711-720 | parsing the `#rrggbb` spelling of a byte colour gives the colour back |
| ChartColor.Hex6SpellingRoundTrip | chart.js:711-720 | spelling a parsed six-digit colour gives its string in lower case |
| ChartColor.Hex3IsDoubledHex6 | chart.js:721-730 | `#rgb` parses like `#rrggbb`, so each channel is 17 × its digit |
| ChartColor.ParseHexIgnoresCase | chart.js:711-733 | letter case does not change the parse |
| ChartColor.LowerChar | chart.js:705 | an ASCII capital becomes its lower-case letter; every other character is kept |
| ChartColor.AsciiLower | chart.js:705 | length is kept and each ASCII capital becomes its lower-case letter |
| ChartColor.ParseNamedColor | chart.js:704-710 | a lower-cased name in the table gives the hex parse of its entry; any other string gives null |
| ChartColor.ParseNamedColorIgnoresCase | chart.js:704-710 | the named lookup ignores letter case |
| ChartColor.NoNameStartsWithHash | chart.js:528-677 | no colour name starts with `#` |
| ChartColor.GetRgba | chart.js:685-703 | named first, then hex, then rgb(), then hsl(), and opaque black when none parses |
| ChartColor.HexStringsParseAsHex | chart.js:685-733 | a hex string gives its hex parse, whatever the rgb() and hsl() parsers return |
| ChartColor.TransparentIsOpaqueBlack | chart.js:677-710 | `transparent` gives [0, 0, 0, 1] when rgb() and hsl() reject it |

## Left out

- The DOM, its event wiring, result rendering, notifications and injected styles are user interface. Only the values they show are modelled.
- Fetching and parsing the ECB XML feed, and `localStorage` settings, are network and persistence I/O. The ECB table is a field that the model sets directly.
- Timers are not modelled: `setInterval`, `setTimeout`, `requestAnimationFrame` itself, and the refresh guard of `refreshAllData`. `AnimationFrame` models the body of the frame callback.
- Time-zone conversion, luxon/`Date` objects and the millisecond delay of the auto-refresh are foreign date libraries. `NextRefreshDay` takes the Berlin weekday (0 = Sunday) and milliseconds past midnight. The hour and ISO weekday for the status banner are parameters.
- The random chart series of `updateChart` is nondeterministic demo data.
- IEEE-754 doubles, NaN and Infinity are not modelled. All numbers are exact reals, so a result that is exact in the model may be off in the last bit in JavaScript.
- `parseInt`/`parseFloat` of malformed form input is not modelled.
- CarryMath.Calculate: requires days ≠ 0 and a non-zero parity denominator. In the source those inputs give Infinity or NaN figures rather than an error.
- Floating-point chart helpers (`niceNum`, `_decimalPlaces`, easing, angles, distances, HSL conversion) are left out. So are the regular expressions of the rgb()/hsl() parsers and `isColor`. `GetRgba` takes the two parsers as parameters.
- Canvas and text measurement APIs are not modelled.
- Chart.js listener callbacks (`_notify`) and `item.tick(date)` are opaque calls. The model takes it that a tick does not change an item's `_active` flag.
- Animator: a chart's record is a value in a map, so aliasing of the record object by other code is not captured. `_update` visits charts in an unspecified order. JavaScript visits them in `Map` insertion order, which only affects the order of the opaque `progress`/`complete` callbacks.
- ChartAnimator.Animator.Listen: in JavaScript, a type naming an `Object.prototype` member (e.g. `toString`) passes the lookup and then throws a `TypeError` at `push`. The model reports every type outside the four as an invalid event type.
- ChartColor.AsciiLower: lower-cases ASCII letters only. JavaScript `toLowerCase` also maps some non-ASCII letters, such as the Kelvin sign to `k`.
- ChartColor.ParseNamedColor: names that are `Object.prototype` members (e.g. `constructor`) find an inherited value in JavaScript. That value is not a hex string, so the result is null, the same as the model's.
- ChartRegistry: the `item.register()` / `item.unregister()` calls on items that carry their own are opaque. The model only records that such items leave the list untouched.
- ChartRegistry: the `console.error` messages of the registries are output only. They appear as a `false` result.
