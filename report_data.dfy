/**
 * The parsed JSON payload of the post report, as the formatter in
 * telegram_bot.py sees it: a list of JSON objects, each an ordered
 * sequence of (key, value) pairs.
 */
module ReportData {
  import opened Wrappers

  /**
   * A JSON value inside one report entry.  `shown` is the text that Python's
   * `str()` produces for the value inside an f-string; the model takes it as
   * given.  An `Object` also carries its own (key, value) pairs, already
   * rendered as text, in the object's insertion order: that is what
   * `.items()` walks.  Any value that is not a JSON object is a `Scalar`
   * (numbers, strings, lists, booleans, null): calling `.items()` on it raises.
   */
  datatype Value =
    | Scalar(shown: string)
    | Object(shown: string, pairs: seq<(string, string)>)

  /** One element of the report list: a JSON object, its pairs in insertion order. */
  type Entry = seq<(string, Value)>

  /** Python's `key in item` for a dict: some pair of the entry has that key. */
  predicate HasKey(e: Entry, k: string) {
    exists i :: 0 <= i < |e| && e[i].0 == k
  }

  /**
   * Python's `item[key]`.  A parsed JSON object has distinct keys, so the
   * first pair with the key is the only one.
   */
  function Lookup(e: Entry, k: string): (r: Option<Value>)
    ensures r.Some? <==> HasKey(e, k)
    ensures r.Some? ==> (k, r.value) in e
    ensures r.None? ==> forall i :: 0 <= i < |e| ==> e[i].0 != k
  {
    if e == [] then None
    else if e[0].0 == k then Some(e[0].1)
    else
      var r := Lookup(e[1..], k);
      assert forall i :: 1 <= i < |e| ==> e[i] == e[1..][i - 1];
      r
  }
}
