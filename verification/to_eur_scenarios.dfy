/**
 Concrete conversions: the one-entry tables of the unit tests, the mocked
 sources that answer every key alike, and the three-entry table the web
 application registers at start-up.
 */
module ToEurScenarios {
  import opened RateTables
  import opened CryptoNotSupported
  import opened CryptoCalculator

  /** The table registered by the web application. */
  const DeployedRates: RateTable := map["HBAR" := 0.212, "BTC" := 31200.12, "ETH" := 2172.34]

  /** A one-entry table holding `rate` under `code`, as the unit tests build. */
  function SingleRate(code: string, rate: real): (t: RateTable)
    ensures t.Keys == {code} && t[code] == rate
  {
    map[code := rate]
  }

  /** With HBAR at 0.20, 100 HBAR are 20 euros; BTC and lower-case hbar are
      unsupported, and their errors carry those codes verbatim. */
  lemma HbarTable()
    ensures ToEur(OverTable(SingleRate("HBAR", 0.20)), "HBAR", 100.0) == Converted(20.0)
    ensures ToEur(OverTable(SingleRate("HBAR", 0.20)), "BTC", 100.0)
         == Failed(CryptoNotSupportedException("Unsupported crypto BTC"))
    ensures ToEur(OverTable(SingleRate("HBAR", 0.20)), "hbar", 100.0)
         == Failed(CryptoNotSupportedException("Unsupported crypto hbar"))
  {
  }

  /** The theory rows: a single entry `code -> rate` converts `amount` of
      `code` to amount times rate, for any code. */
  lemma SingleRateConverts(code: string, rate: real, amount: real)
    ensures ToEur(OverTable(SingleRate(code, rate)), code, amount) == Converted(amount * rate)
  {
  }

  /** The theory rows' expected values. */
  lemma TheoryRows()
    ensures ToEur(OverTable(SingleRate("BTC", 30000.0)), "BTC", 2.0) == Converted(60000.0)
    ensures ToEur(OverTable(SingleRate("HBAR", 0.20)), "HBAR", 100.0) == Converted(20.0)
    ensures ToEur(OverTable(SingleRate("ETH", 2300.0)), "ETH", 10.0) == Converted(23000.0)
  {
  }

  /** A source that finds every key at 0.50 is asked once, for FOO, and gives
      50 for 100 FOO; one that finds nothing fails with the FOO message. */
  method MockedSources() returns (found: Conversion, missing: Conversion, queried: seq<string>)
    ensures found == Converted(50.0) && queried == ["FOO"]
    ensures missing == Failed(CryptoNotSupportedException("Unsupported crypto FOO"))
  {
    found, queried := ToEurRecorded(Calculator(ConstantSource(true, 0.50)), "FOO", 100.0);
    var missingQueried;
    missing, missingQueried := ToEurRecorded(Calculator(ConstantSource(false, 0.50)), "FOO", 100.0);
  }

  /** The deployed table: 300 HBAR, 2 BTC and 10 ETH in euros, with exact
      arithmetic; DOGE and lower-case hbar are unsupported. */
  lemma DeployedTable()
    ensures ToEur(OverTable(DeployedRates), "HBAR", 300.0) == Converted(63.6)
    ensures ToEur(OverTable(DeployedRates), "BTC", 2.0) == Converted(62400.24)
    ensures ToEur(OverTable(DeployedRates), "ETH", 10.0) == Converted(21723.4)
    ensures ToEur(OverTable(DeployedRates), "DOGE", 100.0)
         == Failed(CryptoNotSupportedException("Unsupported crypto DOGE"))
    ensures ToEur(OverTable(DeployedRates), "hbar", 300.0)
         == Failed(CryptoNotSupportedException("Unsupported crypto hbar"))
  {
  }
}
