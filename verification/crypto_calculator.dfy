/**
 The euro conversion.  A calculator keeps the rate source it was given and,
 for a code and an amount, either fails with `CryptoNotSupportedException`
 (the code is not a key of the source) or returns amount times rate.  The
 thrown exception becomes the `Failed` alternative of `Conversion`.  Amounts,
 rates and results are `real`, standing for the C# `double`.
 */
module CryptoCalculator {
  import opened RateTables
  import opened CryptoNotSupported

  /** A calculator over the rate source it was constructed with, kept as-is.
      The C# calculator keeps a reference to a dictionary that others may
      still write to; here the source is a value, and a write made between
      two calls is a new calculator over `ApplyWrites` of the old table. */
  datatype Calculator = Calculator(ratesInEur: RateLookup)

  /** Outcome of `ToEur`: the euro value, or the error it throws. */
  datatype Conversion = Converted(eur: real) | Failed(error: CryptoNotSupportedException)

  /** The calculator over a dictionary of rates. */
  function OverTable(table: RateTable): (c: Calculator)
    ensures forall code :: c.ratesInEur(code) == TryGetValue(table, code)
  {
    Calculator(Lookup(table))
  }

  /** One `TryGetValue` for the code; no rate means the unsupported-crypto
      error for that very code, otherwise amount times rate. */
  function ToEur(calculator: Calculator, cryptoCode: string, cryptoAmount: real): (r: Conversion)
    ensures r.Converted? <==> calculator.ratesInEur(cryptoCode).Some?
    ensures r.Converted? ==> r.eur == cryptoAmount * calculator.ratesInEur(cryptoCode).value
    ensures r.Failed? ==> CodeOfMessage(r.error.message) == Some(cryptoCode)
  {
    var found := calculator.ratesInEur(cryptoCode);
    if found.None? then
      Failed(NotSupported(cryptoCode))
    else
      var rateInEuro := found.value;
      Converted(cryptoAmount * rateInEuro)
  }

  /** `ToEur` written as the C# method runs it, with the rate source behind a
      recorder: the one `TryGetValue` goes through `AskRecorded`, and the
      keys asked are returned. */
  method ToEurRecorded(calculator: Calculator, cryptoCode: string, cryptoAmount: real)
    returns (r: Conversion, queried: seq<string>)
    ensures queried == [cryptoCode]
    ensures r.Converted? <==> calculator.ratesInEur(cryptoCode).Some?
    ensures r == ToEur(calculator, cryptoCode, cryptoAmount)
  {
    var recorder := Recorder(calculator.ratesInEur, []);
    var (found, after) := AskRecorded(recorder, cryptoCode);
    queried := after.asked;
    if found.None? {
      r := Failed(NotSupported(cryptoCode));
    } else {
      var rateInEuro := found.value;
      r := Converted(cryptoAmount * rateInEuro);
    }
  }

  /** A key of the table converts, to the amount times its rate. */
  lemma ToEurSupported(table: RateTable, cryptoCode: string, cryptoAmount: real)
    requires cryptoCode in table
    ensures ToEur(OverTable(table), cryptoCode, cryptoAmount) == Converted(cryptoAmount * table[cryptoCode])
  {
  }

  /** A code that is not a key fails, with exactly the message for that code. */
  lemma ToEurUnsupported(table: RateTable, cryptoCode: string, cryptoAmount: real)
    requires cryptoCode !in table
    ensures ToEur(OverTable(table), cryptoCode, cryptoAmount) == Failed(NotSupported(cryptoCode))
  {
  }

  /** The two outcomes in one statement: success exactly for keys. */
  lemma ToEurSucceedsIffKey(table: RateTable, cryptoCode: string, cryptoAmount: real)
    ensures ToEur(OverTable(table), cryptoCode, cryptoAmount).Converted? <==> cryptoCode in table
  {
  }

  /** The outcome for a code depends only on the table's entry for that code:
      tables that agree there give the same outcome. */
  lemma ToEurDependsOnlyOnEntry(t1: RateTable, t2: RateTable, cryptoCode: string, cryptoAmount: real)
    requires cryptoCode in t1 <==> cryptoCode in t2
    requires cryptoCode in t1 ==> t1[cryptoCode] == t2[cryptoCode]
    ensures ToEur(OverTable(t1), cryptoCode, cryptoAmount) == ToEur(OverTable(t2), cryptoCode, cryptoAmount)
  {
  }

  /** Adding or re-rating other codes, in any number of writes, leaves the
      conversion of `cryptoCode` unchanged. */
  lemma {:induction false} ToEurIgnoresOtherWrites(table: RateTable, writes: seq<Write>, cryptoCode: string, cryptoAmount: real)
    requires AvoidsKey(writes, cryptoCode)
    ensures ToEur(OverTable(ApplyWrites(table, writes)), cryptoCode, cryptoAmount)
         == ToEur(OverTable(table), cryptoCode, cryptoAmount)
  {
    WritesElsewherePreserveLookup(table, writes, cryptoCode);
  }

  /** The error of a failed conversion names the code it was asked for, and
      no other: two failures with the same message were for the same code. */
  lemma FailureIdentifiesCode(calculator: Calculator, c1: string, c2: string, a1: real, a2: real)
    requires ToEur(calculator, c1, a1).Failed? && ToEur(calculator, c2, a2).Failed?
    requires ToEur(calculator, c1, a1).error == ToEur(calculator, c2, a2).error
    ensures c1 == c2
  {
  }
}
