# Bitfinex grid bot: grid levels, configuration check and ticker loop

A Dafny model of the logic in `bitfinex_grid.js`, a grid bot for Bitfinex futures.
When it starts, the bot checks that its JSON configuration has all seven
template keys. It then computes the grid of buy and sell levels around the
central price. Finally, if the exchange client supports `watchTicker`, it loops
forever over ticker updates. Each price is shown green when it did not fall
since the last ticker received, and red when it fell. A failed iteration is reported
once per run of consecutive failures.

The project has three modules, one per piece of logic:

- `GridLevels` (`grid_levels.dfy`) models `createGridLevels`. The method
  `CreateGridLevels` allocates a zero-filled `array<real>` of
  `upper + down + 1` slots. A loop then overwrites each slot with
  `minLevelPrice + index * delta`. The method is proved against the function
  `Grid`, and lemmas state the grid's length, endpoints, centre, spacing and
  order.
- `Configuration` (`configuration.dfy`) models `completedConfiguration` and
  `CONFIGURATION_TEMPLATE`. A configuration is a `map<string, V>`. The
  template's key list is a constant sequence in declaration order. The method
  returns the boolean verdict and also the keys it reports as missing, in the
  order it reports them.
- `TickerStream` (`ticker_stream.dfy`) models the loop in `main`:
  - the Up/Down comparison is the function `Classify`;
  - the two loop variables `previousPrice` and `error` are fields of the class
    `TickerWatcher`;
  - one loop iteration is `Step`, and a finite run of iterations is `Run`;
  - the console is the field `log`;
  - the `watchTicker` guard is the boolean parameter of `Watch`.

  The pure functions `Next`, `Emit`, `Trace` and `Final` specify the
  methods. The lemmas relate them to definitions written independently of
  the loop: the tickers among the events (`Tickers`), the start of each run of
  failures (`RunStartAt`), and the last price received (`LastPrice`).

Prices and deltas are exact `real`s and level counts are `nat`s. The clock
reading taken after each ticker arrives is an opaque `nat` carried by the event.

The loop starts `previousPrice` at `0` (`bitfinex_grid.js:152`). The first
ticker is therefore compared with 0, so it is Up exactly when its price is not
negative (`FirstObservationAgainstZero`). The loop sets `error = true` after
every failure (`bitfinex_grid.js:171`), and `TickerWatcher.Step` does the same.

## Model

| member | source | states |
|---|---|---|
| `GridLevels.CreateGridLevels` | bitfinex_grid.js:106-115 | returns a new array of exactly `upper + down + 1` levels; slot `i` holds `(central - delta*down) + i*delta`; its contents are `Grid(...)` |
| `GridLevels.GridEndpoints` | bitfinex_grid.js:107-112 | the grid has `upper + down + 1` levels; the first is `central - delta*down`, the last is `central + delta*upper`, and level `down` is exactly the central price |
| `GridLevels.GridSpacing` | bitfinex_grid.js:111-113 | consecutive levels differ by exactly `interLevelsDelta` |
| `GridLevels.GridDistance` | bitfinex_grid.js:108-112 | levels `i <= j` are exactly `(j - i) * delta` apart (closed form, no accumulated drift) |
| `GridLevels.GridStrictlyIncreasing` | bitfinex_grid.js:111-113 | with a positive delta, every earlier level is strictly below every later one |
| `GridLevels.ShownBoundsAreExtremes` | bitfinex_grid.js:126-127 | with a non-negative delta, the values shown as minimum (first) and maximum (last) bound every level |
| `GridLevels.ZeroDeltaCollapses` | bitfinex_grid.js:106-115 | nothing rejects a zero delta, and then every level equals the central price |
| `GridLevels.TemplateGrid` | bitfinex_grid.js:23-27 | the template's settings (29000, 200, 20 up, 20 down) give 41 levels from 25000 to 33000, with 29000 at index 20 |
| `Configuration.CheckKeys` | bitfinex_grid.js:36-43 | the loop over the keys: `result` is true iff every key is present; the reported keys are exactly the absent ones, in key order |
| `Configuration.CompletedConfiguration` | bitfinex_grid.js:35-44 | true iff every template key is present; it reports exactly the template keys the configuration lacks, in template order |
| `Configuration.MissingFromMeaning` | bitfinex_grid.js:37-42 | a key is reported from position `i` on iff it is among the keys from `i` and absent from the configuration |
| `Configuration.MissingMeaning` | bitfinex_grid.js:37-42 | a key is reported iff it is one of the checked keys and absent |
| `Configuration.MissingEmpty` | bitfinex_grid.js:36-43 | nothing is reported iff every checked key is present |
| `Configuration.MissingKeysMeaning` | bitfinex_grid.js:35-44 | the configuration is complete iff no template key is reported; the reported keys are exactly the missing template keys |
| `Configuration.ExtraKeysIgnoredFrom` | bitfinex_grid.js:37-38 | adding keys outside the checked list leaves the report unchanged |
| `Configuration.ExtraTemplateKeysIgnored` | bitfinex_grid.js:35-44 | adding non-template keys changes neither the verdict nor the report |
| `Configuration.TemplateIsComplete` | bitfinex_grid.js:20-28 | the template itself passes the check, with nothing reported |
| `TickerStream.Classify` | bitfinex_grid.js:159-163 | Up iff the last price is not below the previous one, so a zero change is Up; Down iff it is strictly below |
| `TickerStream.TraceAppend` | bitfinex_grid.js:154-173 | running two event sequences one after the other writes the first's output followed by the second's output from the state the first leaves |
| `TickerStream.FinalState` | bitfinex_grid.js:164-171 | after any iterations, `previousPrice` is the price of the last ticker received (failures do not touch it), and `error` is true iff the last iteration failed |
| `TickerStream.ObservationsFollowTickers` | bitfinex_grid.js:158-165 | every ticker is shown exactly once and in order; the k-th is classified against the (k-1)-th ticker, or against the starting previous price when k = 0 |
| `TickerStream.OneReportPerFailureRun` | bitfinex_grid.js:166-172 | the failure reports are exactly the errors of the failures that follow a success (or start the run with no error pending), in order |
| `TickerStream.FailureRun` | bitfinex_grid.js:166-172 | a run of one or more consecutive failures writes one report (its first error) if no error was pending and nothing otherwise; it sets `error` and leaves `previousPrice` alone |
| `TickerStream.FirstObservationAgainstZero` | bitfinex_grid.js:152-163 | from the initial state, the first ticker is Up iff its price is not negative |
| `TickerStream.RecoveryScenario` | bitfinex_grid.js:154-173 | tickers 100, 105, 103, then two failures, then 110 give Up, Up, Down, one report, Up (110 is compared with 103) and leave `error` cleared |
| `TickerStream.NoUnsupportedInTrace` | bitfinex_grid.js:154-173 | the loop never writes the unsupported message |
| `TickerStream.TickerWatcher.constructor` | bitfinex_grid.js:152-153 | the loop starts with `previousPrice = 0`, `error = false` and nothing written |
| `TickerStream.TickerWatcher.Step` | bitfinex_grid.js:155-172 | a ticker appends one observation classified against the old `previousPrice`, then sets `previousPrice` to its price and clears `error`; a failure appends a report only if `error` was false, sets `error` and keeps `previousPrice` |
| `TickerStream.TickerWatcher.Run` | bitfinex_grid.js:154-173 | after the events, the fields are `Final(old state, events)` and the log has grown by `Trace(old state, events)` |
| `TickerStream.Watch` | bitfinex_grid.js:151-177 | with `watchTicker`, the output is the loop's trace from the initial state; without it, the output is the single unsupported message; the unsupported message appears iff `watchTicker` is absent |

## Left out

- File handling in `fileExists` and `prepareConfiguration` is not modelled: the existence test, reading and JSON parsing, and writing the template file. It is all I/O. `Template` exists only to show that the template passes the check.
- Console formatting and colours are not modelled (`showConfiguration`, `showGridLevels`, the chalk calls). A colour is kept only as the Up/Down tag. A failure report stands for the two lines the source prints (the error and "Esperando...").
- The ccxt pro client is not modelled, nor how `watch_ticker`, `iso8601` and `milliseconds` work. These are a foreign network library. The outcome of each iteration is an `Event`: a ticker, or an error thrown anywhere in the `try` block (the wait, reading `tickers.last`, or the clock calls). The timestamp is an opaque clock reading carried by a ticker.
- The `eval("levels.push(0);".repeat(...))` allocation is modelled as a zero-filled array of `totalLevels` slots.
- JavaScript `Number` coercion and binary floating point are not modelled. Prices and deltas are exact reals, and the centre-price equality holds only under that exact arithmetic.
- CompletedConfiguration: the map stands for a parsed JSON object whose own `hasOwnProperty` is the built-in one. A configuration that has its own `"hasOwnProperty"` key shadows the method, and a file whose JSON value is `null` has no such method. In both cases the source throws a TypeError, while the model returns a verdict. Other non-object values (numbers, strings, booleans, arrays) inherit the method and simply lack all seven keys.
- CreateGridLevels: level counts are `nat`. Negative or fractional counts read from the JSON file are not modelled: there `repeat` can throw or truncate.
- The never-ending `while (true)` and the `await` suspension are not modelled. `Run` and `Watch` cover any finite number of iterations.
- The hard-coded `userResponse = 'si'` confirmations are not modelled, because they always continue.
- The sequence in `main` is not modelled as a whole: check the configuration, compute the grid, then watch. Each step is modelled on its own.
