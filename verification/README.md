# Crypto-to-euro calculator, modelled in Dafny

The system converts an amount of a cryptocurrency into euros. A
`CryptoCalculator` is built over a dictionary of euro rates keyed by crypto
code; `ToEur(code, amount)` asks the dictionary once, with `TryGetValue`, for
the rate stored under exactly that code. If there is none it throws
`CryptoNotSupportedException`, whose message is `"Unsupported crypto "`
followed by the code as given. Otherwise it returns `amount * rate`.

The model has four modules:

- `RateTables` (`rate_tables.dfy`): the rate source. A source is a lookup
  function `string -> Option<real>`, the one capability the calculator uses.
  A dictionary is a `map<string, real>` seen through `Lookup`, and a mocked
  source that answers every key alike is `ConstantSource`. A `Recorder`
  wraps a source and keeps the keys it was asked about, as a mocked
  dictionary does; `AskRecorded` is `TryGetValue` through it. `ApplyWrites`
  models writes through the dictionary indexer. It is used to state that
  entries under other keys cannot change a conversion.
- `CryptoNotSupported` (`crypto_not_supported.dfy`): the exception. Like the
  .NET exception, it holds nothing but its message. `CodeOfMessage` is the
  inverse of message construction, and it recovers the code from a message.
- `CryptoCalculator` (`crypto_calculator.dfy`): the calculator datatype, which
  keeps its source as given, and `ToEur`. The thrown exception becomes the
  `Failed` alternative of the `Conversion` result. `ToEurRecorded` is the same
  operation written as a method that records the keys it asks about.
- `ToEurScenarios` (`to_eur_scenarios.dfy`): the concrete cases of the unit
  tests, and the three-entry table the web application registers.

Amounts, rates and results are `real`, which stands for .NET `double`. The
multiplication is therefore exact in the model. With exact arithmetic the
deployed table gives 300 HBAR = 63.6, 2 BTC = 62400.24 and 10 ETH = 21723.4.
The model makes no claim about what the `double` product is.

The calculator's field is read-only and only read through `TryGetValue`, so
`ToEur` changes nothing. In the model this holds by construction: `ToEur` is
a pure function of an immutable value. It gets no separate lemma.

## Model

| member | source | states |
|---|---|---|
| RateTables.TryGetValue | src/ExchangeRateCalculation/CryptoCalculator.cs:14 | a dictionary lookup finds a rate exactly when the code is a key, with no case folding, and then yields the stored rate |
| RateTables.AskRecorded | test/ExchangeRateCalculation.UnitTests/CryptoCalculatorTests/ToEurTests.cs:141-153 | a recorded `TryGetValue` gives the wrapped source's answer, keeps the source, and appends exactly the asked key to the record |
| RateTables.ApplyWrites | src/ExchangeRateCalculation/CryptoCalculator.cs:5 | after a series of indexer writes to the shared dictionary, its keys are the old keys plus every written code |
| RateTables.WritesElsewherePreserveLookup | src/ExchangeRateCalculation/CryptoCalculator.cs:14 | any number of indexer writes under other keys leave the lookup of a code unchanged, both its presence and its rate |
| CryptoNotSupported.NotSupported | src/ExchangeRateCalculation/CryptoNotSupportedException.cs:6-7 | the message is the fixed prefix followed by the code, and it is as long as both together |
| CryptoNotSupported.CodeOfMessage | src/ExchangeRateCalculation/CryptoNotSupportedException.cs:7 | a message is accepted exactly when it starts with the prefix, and the code read back is what follows the prefix |
| CryptoNotSupported.MessageLength | src/ExchangeRateCalculation/CryptoNotSupportedException.cs:7 | a message is 19 characters longer than its code |
| CryptoNotSupported.MessageRoundTrip | src/ExchangeRateCalculation/CryptoNotSupportedException.cs:7 | reading back a built message gives the very code it was built from, with no case folding |
| CryptoNotSupported.ParsedMessageRebuilds | src/ExchangeRateCalculation/CryptoNotSupportedException.cs:7 | every message that carries the prefix is the message built from the code it carries |
| CryptoNotSupported.MessageInjective | src/ExchangeRateCalculation/CryptoNotSupportedException.cs:7 | distinct codes give distinct messages |
| CryptoCalculator.OverTable | src/ExchangeRateCalculation/CryptoCalculator.cs:7-10 | the constructed calculator answers every code exactly as the dictionary it was given does |
| CryptoCalculator.ToEur | src/ExchangeRateCalculation/CryptoCalculator.cs:12-22 | the conversion succeeds exactly when the source has a rate for the code, and then yields amount times that rate; a failure's message reads back as the requested code |
| CryptoCalculator.ToEurRecorded | src/ExchangeRateCalculation/CryptoCalculator.cs:12-22 | when the one lookup goes through a recorder, the record afterwards is exactly the given code; the conversion succeeds exactly when the source has a rate, and agrees with `ToEur` |
| CryptoCalculator.ToEurSupported | src/ExchangeRateCalculation/CryptoCalculator.cs:14-21 | a key of the table converts to the amount times its rate |
| CryptoCalculator.ToEurUnsupported | src/ExchangeRateCalculation/CryptoCalculator.cs:14-18 | a code that is not a key fails with the unsupported-crypto error for that code, and yields no value |
| CryptoCalculator.ToEurSucceedsIffKey | src/ExchangeRateCalculation/CryptoCalculator.cs:14-18 | conversion succeeds if and only if the code is a key of the table |
| CryptoCalculator.ToEurDependsOnlyOnEntry | src/ExchangeRateCalculation/CryptoCalculator.cs:14-21 | two tables that agree on the entry for a code give the same outcome for that code |
| CryptoCalculator.ToEurIgnoresOtherWrites | src/ExchangeRateCalculation/CryptoCalculator.cs:14-21 | adding or re-rating other codes leaves the conversion of a code unchanged |
| CryptoCalculator.FailureIdentifiesCode | src/ExchangeRateCalculation/CryptoCalculator.cs:17 | two failed conversions with the same error were asked for the same code |
| ToEurScenarios.HbarTable | test/ExchangeRateCalculation.UnitTests/CryptoCalculatorTests/ToEurTests.cs:10-116 | with HBAR at 0.20, 100 HBAR are 20 euros; BTC and lower-case hbar fail with messages naming those codes |
| ToEurScenarios.SingleRateConverts | test/ExchangeRateCalculation.UnitTests/CryptoCalculatorTests/ToEurTests.cs:54-69 | a one-entry table converts its own code at its rate, for any code, rate and amount |
| ToEurScenarios.TheoryRows | test/ExchangeRateCalculation.UnitTests/CryptoCalculatorTests/ToEurTests.cs:118-133 | 2 BTC at 30000 give 60000, 100 HBAR at 0.20 give 20, and 10 ETH at 2300 give 23000 |
| ToEurScenarios.MockedSources | test/ExchangeRateCalculation.UnitTests/CryptoCalculatorTests/ToEurTests.cs:137-173 | a source that finds every key at 0.50 gives 50 for 100 FOO, with a record of one lookup, for FOO; one that finds nothing fails with the FOO message |
| ToEurScenarios.DeployedTable | src/ExchangeRateCalculation.WebApi/Program.cs:8-13 | over the registered table, 300 HBAR, 2 BTC and 10 ETH give 63.6, 62400.24 and 21723.4 with exact arithmetic; DOGE and hbar fail |

## Left out

- Web application: dependency registration, routing and query parsing are framework glue. Only its rate table appears, as a constant.
- Response text `"{result} EUR"`: it depends on how .NET renders a `double`.
- IEEE-754 `double` arithmetic: `real` replaces it, so rounding, NaN and infinities are not modelled.
- ToEurScenarios.DeployedTable: it states the exact products. The functional test's `"63.6 EUR"` depends on `double` rounding and on number formatting, which are not modelled.
- Exception type hierarchy: the model keeps only the message, since the exception carries nothing else.
- Dictionary construction: the collection initializer's `Add` throws on a duplicate key. Tables are given as maps instead.
- CryptoCalculator.ToEurRecorded: the single-lookup record is a modelling convention. It holds because the method asks through `AskRecorded`, but Dafny cannot forbid a body that also applies the source directly, so "exactly one lookup" is not proved of every possible body.
- ToEurScenarios.MockedSources: its record of one lookup for FOO rests on the same convention as `ToEurRecorded`.
- Null arguments: a null `cryptoCode` makes `TryGetValue` throw `ArgumentNullException`, and a null dictionary makes the lookup throw `NullReferenceException`. A Dafny `string` and a Dafny map cannot be null, so these two error paths are not modelled.
- Non-string code units: a Dafny `string` holds Unicode scalar values, so a C# string with a lone UTF-16 surrogate has no counterpart.
- Shared mutable dictionary: the C# calculator holds a reference to a dictionary that its creator may keep writing to, so a later `ToEur` can see new rates. The model's calculator holds a value; a write between two calls is modelled as a new `OverTable(ApplyWrites(table, writes))`.
- Rate validation: the code never checks that rates are positive or finite, so the model imposes no such invariant.
