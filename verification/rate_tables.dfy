/**
 The rate source a crypto calculator reads from: a mapping from crypto code to
 the price of one unit in euros.  The calculator only ever asks the source one
 question, `TryGetValue(code)`, so a source is modelled as a lookup function;
 a concrete dictionary is a finite map turned into such a lookup.
 */
module RateTables {

  datatype Option<+T> = None | Some(value: T)

  /** Answer of a rate source to `TryGetValue(code)`: the rate, or None. */
  type RateLookup = string -> Option<real>

  /** A dictionary of euro rates, keyed by crypto code exactly as written. */
  type RateTable = map<string, real>

  /** `TryGetValue` of a dictionary: found exactly when the code is a key,
      and then the stored rate, with no case folding or trimming. */
  function TryGetValue(table: RateTable, code: string): (r: Option<real>)
    ensures r.Some? <==> code in table
    ensures r.Some? ==> r.value == table[code]
  {
    if code in table then Some(table[code]) else None
  }

  /** The dictionary seen through the one capability the calculator uses. */
  function Lookup(table: RateTable): RateLookup
  {
    code => TryGetValue(table, code)
  }

  /** A stand-in source that answers every key with the same found/rate pair,
      as a mocked `TryGetValue` set up for any string does. */
  function ConstantSource(found: bool, rate: real): RateLookup
  {
    code => if found then Some(rate) else None
  }

  /** A rate source that keeps the list of keys it has been asked about, as a
      mocked dictionary does for verifying calls afterwards. */
  datatype Recorder = Recorder(source: RateLookup, asked: seq<string>)

  /** `TryGetValue` through a recorder: the source's answer, and the recorder
      with `code` appended to the keys asked. */
  function AskRecorded(recorder: Recorder, code: string): (r: (Option<real>, Recorder))
    ensures r.0 == recorder.source(code)
    ensures r.1.source == recorder.source
    ensures |r.1.asked| == |recorder.asked| + 1
    ensures r.1.asked[..|recorder.asked|] == recorder.asked
    ensures r.1.asked[|recorder.asked|] == code
  {
    (recorder.source(code), Recorder(recorder.source, recorder.asked + [code]))
  }

  /** One write through the dictionary indexer, `table[code] = rate`: adds the
      entry, or replaces the rate of an existing one. */
  datatype Write = Write(code: string, rate: real)

  /** Applies writes in order to a table. */
  function ApplyWrites(table: RateTable, writes: seq<Write>): (r: RateTable)
    ensures r.Keys == table.Keys + set i | 0 <= i < |writes| :: writes[i].code
    decreases |writes|
  {
    if |writes| == 0 then table
    else
      var w := writes[|writes| - 1];
      ApplyWrites(table, writes[..|writes| - 1])[w.code := w.rate]
  }

  /** No write in the sequence touches `code`. */
  predicate AvoidsKey(writes: seq<Write>, code: string)
  {
    forall i :: 0 <= i < |writes| ==> writes[i].code != code
  }

  /** Writes under other keys leave the answer for `code` exactly as it was:
      its presence and its rate. */
  lemma {:induction false} WritesElsewherePreserveLookup(table: RateTable, writes: seq<Write>, code: string)
    requires AvoidsKey(writes, code)
    ensures TryGetValue(ApplyWrites(table, writes), code) == TryGetValue(table, code)
    decreases |writes|
  {
    if |writes| > 0 {
      var prefix := writes[..|writes| - 1];
      assert AvoidsKey(prefix, code) by {
        forall i | 0 <= i < |prefix|
          ensures prefix[i].code != code
        {
          assert prefix[i] == writes[i];
        }
      }
      WritesElsewherePreserveLookup(table, prefix, code);
      assert writes[|writes| - 1].code != code;
    }
  }
}
