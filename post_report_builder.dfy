/**
 * The formatting loop of `button_callback` (telegram_bot.py:46-61) as the
 * code runs it: a message string grown with `+=` by an outer loop over the
 * list and an inner loop over each section's pairs.  Each method is proved
 * to build exactly what the functions of `PostReport` describe.
 */
module PostReportBuilder {
  import opened Wrappers
  import opened ReportData
  import opened PostReport

  /** The inner `for key, value in ....items()` loop: one line per pair, appended in order. */
  method AppendLines(message: string, pairs: seq<(string, string)>) returns (r: string)
    ensures r == message + Lines(pairs)
  {
    r := message;
    for j := 0 to |pairs|
      invariant r == message + Lines(pairs[..j])
    {
      assert pairs[..j + 1][..j] == pairs[..j];
      r := r + Line(pairs[j]);
    }
    assert pairs[..|pairs|] == pairs;
  }

  /**
   * One section: the header is appended, then `.items()` is called on the
   * value, which raises (`None`) when the value is not a JSON object.
   */
  method AppendSection(message: string, header: string, v: Value) returns (r: Option<string>)
    ensures v.Object? ==> r == Some(message + (header + Lines(v.pairs)))
    ensures v.Scalar? ==> r.None?
  {
    var m := message + header;
    if !v.Object? {
      return None;
    }
    var s := AppendLines(m, v.pairs);
    assert m + Lines(v.pairs) == message + (header + Lines(v.pairs));
    return Some(s);
  }

  /**
   * The whole loop.  `None` stands for the exception the loop raises on a
   * malformed element; the message built so far is then discarded.
   */
  method BuildPostReport(data: seq<Entry>) returns (r: Option<string>)
    ensures r == FormatPostReport(data)
  {
    var message := Title;
    for i := 0 to |data|
      invariant ReportBody(data[..i]).Some?
      invariant message == Title + ReportBody(data[..i]).value
    {
      var item := data[i];
      var next: Option<string>;
      if HasKey(item, "type") {
        next := AppendSection(message, TypeHeader, Lookup(item, "type").value);
      } else if HasKey(item, "category") {
        next := AppendSection(message, CategoryHeader, Lookup(item, "category").value);
      } else if HasKey(item, "status") {
        next := AppendSection(message, StatusHeader, Lookup(item, "status").value);
      } else if HasKey(item, "totalPosts") {
        var shown := Lookup(item, "totalPosts").value.shown;
        next := Some(message + "\n**Total Posts:** " + shown + "\n");
        assert next.value == message + TotalLine(shown);
      } else {
        next := Some(message);
        assert message + "" == message;
      }
      StepInvariant(data, i, message, next);
      if next.None? {
        return None;
      }
      message := next.value;
    }
    assert data[..|data|] == data;
    return Some(message);
  }

  /**
   * What one pass of the outer loop does to the message, in terms of the
   * fragment of `data[i]`: on success the invariant moves to `i + 1`, on
   * failure the whole report fails.
   */
  lemma StepInvariant(data: seq<Entry>, i: nat, message: string, next: Option<string>)
    requires i < |data|
    requires ReportBody(data[..i]).Some? && message == Title + ReportBody(data[..i]).value
    requires next == (if Fragment(data[i]).Some? then Some(message + Fragment(data[i]).value) else None)
    ensures next.Some? ==> ReportBody(data[..i + 1]).Some? && next.value == Title + ReportBody(data[..i + 1]).value
    ensures next.None? ==> FormatPostReport(data).None?
  {
    assert data[..i + 1][..i] == data[..i];
    var b, f := ReportBody(data[..i]).value, Fragment(data[i]);
    if f.Some? {
      assert (Title + b) + f.value == Title + (b + f.value);
    } else {
      ReportBodyAppend(data[..i + 1], data[i + 1..]);
      assert data[..i + 1] + data[i + 1..] == data;
    }
  }
}
