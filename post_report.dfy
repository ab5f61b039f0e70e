/**
 * The post-report formatter of `button_callback` (telegram_bot.py:46-61),
 * as specification functions, and the properties it has.
 *
 * The formatter fails (`None`) exactly where the Python loop raises: when the
 * key that selects an entry's section maps to something that is not a JSON
 * object, so that `.items()` cannot be called on it.
 */
module PostReport {
  import opened Wrappers
  import opened ReportData

  const Title: string := "\U{1F4CA} **Post Report**\n\n"
  const TypeHeader: string := "**By Type:**\n"
  const CategoryHeader: string := "\n**By Category:**\n"
  const StatusHeader: string := "\n**By Status:**\n"

  /** The keys that select an entry's section, strongest first. */
  const SectionKeys: seq<string> := ["type", "category", "status", "totalPosts"]
  /** The headers of the first three sections, in the order of `SectionKeys`. */
  const Headers: seq<string> := [TypeHeader, CategoryHeader, StatusHeader]

  /** The line `- key: value` of one pair. */
  function Line(p: (string, string)): string {
    "- " + p.0 + ": " + p.1 + "\n"
  }

  /** The lines of a section, one per pair, in the pairs' own order. */
  function Lines(ps: seq<(string, string)>): string {
    if ps == [] then "" else Lines(ps[..|ps| - 1]) + Line(ps[|ps| - 1])
  }

  /** The line of a `totalPosts` entry. */
  function TotalLine(shown: string): string {
    "\n**Total Posts:** " + shown + "\n"
  }

  /** A section made of a header and the lines of a mapping; `.items()` fails on a non-object. */
  function Section(header: string, v: Value): Option<string> {
    match v
    case Object(_, ps) => Some(header + Lines(ps))
    case Scalar(_) => None
  }

  /** The text one list element adds to the message: the if/elif chain of the loop body. */
  function Fragment(e: Entry): Option<string> {
    if HasKey(e, "type") then Section(TypeHeader, Lookup(e, "type").value)
    else if HasKey(e, "category") then Section(CategoryHeader, Lookup(e, "category").value)
    else if HasKey(e, "status") then Section(StatusHeader, Lookup(e, "status").value)
    else if HasKey(e, "totalPosts") then Some(TotalLine(Lookup(e, "totalPosts").value.shown))
    else Some("")
  }

  /** The fragments of the list's elements, concatenated in list order. */
  function ReportBody(items: seq<Entry>): Option<string> {
    if items == [] then Some("")
    else
      match ReportBody(items[..|items| - 1])
      case None => None
      case Some(b) =>
        match Fragment(items[|items| - 1])
        case None => None
        case Some(f) => Some(b + f)
  }

  /** The whole message: the title, then the body. */
  function FormatPostReport(items: seq<Entry>): (r: Option<string>)
    ensures r.Some? ==> |Title| <= |r.value| && r.value[..|Title|] == Title
  {
    match ReportBody(items)
    case None => None
    case Some(b) => Some(Title + b)
  }

  // ---------------------------------------------------------------------------
  // A second reading of the loop body: pick the strongest key, then render it.

  /** The index in `keys` of the first key the entry has. */
  function FirstPresent(e: Entry, keys: seq<string>): (r: Option<nat>)
    ensures r.Some? ==> r.value < |keys| && HasKey(e, keys[r.value])
    ensures r.Some? ==> forall j :: 0 <= j < r.value ==> !HasKey(e, keys[j])
    ensures r.None? ==> forall j :: 0 <= j < |keys| ==> !HasKey(e, keys[j])
  {
    if keys == [] then None
    else if HasKey(e, keys[0]) then Some(0)
    else
      match FirstPresent(e, keys[1..])
      case None => None
      case Some(i) => Some(i + 1)
  }

  /** The section an entry falls in, as an index into `SectionKeys`. */
  function Selected(e: Entry): Option<nat> {
    FirstPresent(e, SectionKeys)
  }

  /** What the section with index `k` renders from the value of its key. */
  function Render(k: nat, v: Value): Option<string>
    requires k < |SectionKeys|
  {
    if k == 3 then Some(TotalLine(v.shown)) else Section(Headers[k], v)
  }

  /** An entry whose selected section is a mapping section but whose value is not an object. */
  predicate Malformed(e: Entry) {
    match Selected(e)
    case None => false
    case Some(k) => k < 3 && Lookup(e, SectionKeys[k]).value.Scalar?
  }

  /** An entry that has none of the four keys. */
  predicate Unmatched(e: Entry) {
    forall k :: 0 <= k < |SectionKeys| ==> !HasKey(e, SectionKeys[k])
  }

  /** Joins two partial texts: both must be present. */
  function Join(a: Option<string>, b: Option<string>): Option<string> {
    if a.Some? && b.Some? then Some(a.value + b.value) else None
  }

  // ---------------------------------------------------------------------------
  // Lemmas

  /** The if/elif chain agrees with "strongest key first, then render". */
  lemma FragmentIsRenderOfSelected(e: Entry)
    ensures Selected(e).None? ==> Fragment(e) == Some("")
    ensures Selected(e).Some? ==>
      Fragment(e) == Render(Selected(e).value, Lookup(e, SectionKeys[Selected(e).value]).value)
  {
    var s := Selected(e);
    if s.Some? {
      var k := s.value;
      assert SectionKeys[0] == "type" && SectionKeys[1] == "category";
      assert SectionKeys[2] == "status" && SectionKeys[3] == "totalPosts";
      assert k == 0 ==> HasKey(e, "type");
      assert k == 1 ==> !HasKey(e, "type") && HasKey(e, "category");
      assert k == 2 ==> !HasKey(e, "type") && !HasKey(e, "category") && HasKey(e, "status");
      assert k == 3 ==> !HasKey(e, "type") && !HasKey(e, "category") && !HasKey(e, "status");
    } else {
      assert !HasKey(e, SectionKeys[0]) && !HasKey(e, SectionKeys[1]);
      assert !HasKey(e, SectionKeys[2]) && !HasKey(e, SectionKeys[3]);
    }
  }

  /** Key precedence: an entry with a stronger key is never rendered as a weaker section. */
  lemma SelectionPrecedence(e: Entry, i: nat, j: nat)
    requires i < j < |SectionKeys| && HasKey(e, SectionKeys[i])
    ensures Selected(e).Some? && Selected(e).value <= i && Selected(e) != Some(j)
  {
  }

  /** An entry with none of the four keys is exactly one with nothing selected. */
  lemma UnmatchedIffNothingSelected(e: Entry)
    ensures Unmatched(e) <==> Selected(e).None?
  {
  }

  /** The loop body raises exactly on a malformed entry. */
  lemma {:induction false} FragmentFailsIffMalformed(e: Entry)
    ensures Fragment(e).None? <==> Malformed(e)
  {
    FragmentIsRenderOfSelected(e);
  }

  /** The formatter fails exactly when some element of the list is malformed. */
  lemma {:induction false} ReportFailsIffSomeEntryMalformed(items: seq<Entry>)
    ensures ReportBody(items).None? <==> exists i :: 0 <= i < |items| && Malformed(items[i])
  {
    if items != [] {
      var init := items[..|items| - 1];
      ReportFailsIffSomeEntryMalformed(init);
      FragmentFailsIffMalformed(items[|items| - 1]);
      assert forall i :: 0 <= i < |init| ==> init[i] == items[i];
      if ReportBody(init).None? {
        var i :| 0 <= i < |init| && Malformed(init[i]);
        assert Malformed(items[i]);
      }
    }
  }

  /** The section lines of two consecutive runs of pairs are their lines concatenated. */
  lemma {:induction false} LinesAppend(ps: seq<(string, string)>, qs: seq<(string, string)>)
    ensures Lines(ps + qs) == Lines(ps) + Lines(qs)
  {
    if qs == [] {
      assert ps + qs == ps;
    } else {
      var init, last := qs[..|qs| - 1], qs[|qs| - 1];
      assert (ps + qs)[..|ps + qs| - 1] == ps + init;
      assert (ps + qs)[|ps + qs| - 1] == last;
      calc {
        Lines(ps + qs);
        Lines(ps + init) + Line(last);
        { LinesAppend(ps, init); }
        (Lines(ps) + Lines(init)) + Line(last);
        Lines(ps) + (Lines(init) + Line(last));
        Lines(ps) + Lines(qs);
      }
    }
  }

  /** Exactly one `- k: v` line per pair, in the pairs' order. */
  lemma {:induction false} LinesOfCons(p: (string, string), ps: seq<(string, string)>)
    ensures Lines([p] + ps) == Line(p) + Lines(ps)
  {
    LinesAppend([p], ps);
    assert [p][..0] == [];
  }

  /** The list is processed in order: the body of `xs + ys` is the body of `xs` followed by that of `ys`. */
  lemma {:induction false} ReportBodyAppend(xs: seq<Entry>, ys: seq<Entry>)
    ensures ReportBody(xs + ys) == Join(ReportBody(xs), ReportBody(ys))
  {
    if ys == [] {
      assert xs + ys == xs;
      if ReportBody(xs).Some? {
        assert ReportBody(xs).value + "" == ReportBody(xs).value;
      }
    } else {
      var init := ys[..|ys| - 1];
      assert (xs + ys)[..|xs + ys| - 1] == xs + init;
      assert (xs + ys)[|xs + ys| - 1] == ys[|ys| - 1];
      ReportBodyAppend(xs, init);
      var a, b, f := ReportBody(xs), ReportBody(init), Fragment(ys[|ys| - 1]);
      if a.Some? && b.Some? && f.Some? {
        assert (a.value + b.value) + f.value == a.value + (b.value + f.value);
      }
    }
  }

  /** The message for `xs + ys` is the message for `xs` with the fragments of `ys` appended. */
  lemma FormatAppend(xs: seq<Entry>, ys: seq<Entry>)
    ensures FormatPostReport(xs + ys) ==
      if FormatPostReport(xs).Some? && ReportBody(ys).Some?
      then Some(FormatPostReport(xs).value + ReportBody(ys).value)
      else None
  {
    ReportBodyAppend(xs, ys);
    var a, b := ReportBody(xs), ReportBody(ys);
    if a.Some? && b.Some? {
      assert Title + (a.value + b.value) == (Title + a.value) + b.value;
    }
  }

  /** An empty list gives the title alone. */
  lemma EmptyReportIsTitle()
    ensures FormatPostReport([]) == Some(Title)
  {
    assert Title + "" == Title;
  }

  /** The body of a one-element list is that element's fragment. */
  lemma ReportBodySingleton(e: Entry)
    ensures ReportBody([e]) == Fragment(e)
  {
    assert [e][..0] == [];
    if Fragment(e).Some? {
      assert "" + Fragment(e).value == Fragment(e).value;
    }
  }

  /** An entry with none of the four keys can be removed without changing the output. */
  lemma {:induction false} UnmatchedEntryIsSkipped(xs: seq<Entry>, e: Entry, ys: seq<Entry>)
    requires Unmatched(e)
    ensures FormatPostReport(xs + [e] + ys) == FormatPostReport(xs + ys)
  {
    UnmatchedIffNothingSelected(e);
    FragmentIsRenderOfSelected(e);
    ReportBodySingleton(e);
    ReportBodyAppend(xs, [e]);
    ReportBodyAppend(xs + [e], ys);
    ReportBodyAppend(xs, ys);
    if ReportBody(xs).Some? {
      assert ReportBody(xs).value + "" == ReportBody(xs).value;
    }
  }

  /** A `type` entry gives `**By Type:**` and its lines, whatever other keys it has. */
  lemma TypeSection(e: Entry, shown: string, ps: seq<(string, string)>)
    requires Lookup(e, "type") == Some(Object(shown, ps))
    ensures Fragment(e) == Some(TypeHeader + Lines(ps))
  {
  }

  /** Without `type`, a `category` entry gives the category header and its lines. */
  lemma CategorySection(e: Entry, shown: string, ps: seq<(string, string)>)
    requires !HasKey(e, "type") && Lookup(e, "category") == Some(Object(shown, ps))
    ensures Fragment(e) == Some(CategoryHeader + Lines(ps))
  {
  }

  /** Without `type` or `category`, a `status` entry gives the status header and its lines. */
  lemma StatusSection(e: Entry, shown: string, ps: seq<(string, string)>)
    requires !HasKey(e, "type") && !HasKey(e, "category")
    requires Lookup(e, "status") == Some(Object(shown, ps))
    ensures Fragment(e) == Some(StatusHeader + Lines(ps))
  {
  }

  /** With only `totalPosts` among the four keys, the entry gives the total line. */
  lemma TotalPostsLine(e: Entry, v: Value)
    requires !HasKey(e, "type") && !HasKey(e, "category") && !HasKey(e, "status")
    requires Lookup(e, "totalPosts") == Some(v)
    ensures Fragment(e) == Some("\n**Total Posts:** " + v.shown + "\n")
  {
  }

  /** The body of a two-element list is the two fragments in order. */
  lemma ReportBodyPair(e1: Entry, e2: Entry)
    ensures ReportBody([e1, e2]) == Join(Fragment(e1), Fragment(e2))
  {
    ReportBodySingleton(e1);
    ReportBodySingleton(e2);
    ReportBodyAppend([e1], [e2]);
    assert [e1] + [e2] == [e1, e2];
  }

  /** Headers are not deduplicated: two `type` entries give two `**By Type:**` headers. */
  lemma TypeHeaderRepeats(e1: Entry, e2: Entry, v1: Value, v2: Value)
    requires Lookup(e1, "type") == Some(v1) && v1.Object?
    requires Lookup(e2, "type") == Some(v2) && v2.Object?
    ensures FormatPostReport([e1, e2]) == Some(Title + (TypeHeader + Lines(v1.pairs)) + (TypeHeader + Lines(v2.pairs)))
  {
    ReportBodyPair(e1, e2);
    TypeSection(e1, v1.shown, v1.pairs);
    TypeSection(e2, v2.shown, v2.pairs);
    var f1, f2 := TypeHeader + Lines(v1.pairs), TypeHeader + Lines(v2.pairs);
    assert Title + (f1 + f2) == Title + f1 + f2;
  }

  /** The lines of the mapping `{"image": 3, "video": 2}`. */
  lemma ImageVideoLines()
    ensures Lines([("image", "3"), ("video", "2")]) == "- image: 3\n" + "- video: 2\n"
  {
  }

  /**
   * The list `[{"type": {"image": 3, "video": 2}}, {"totalPosts": 5}]`: the
   * title, the type section, then the total line, and nothing else.
   */
  lemma TypeThenTotalExample()
    ensures FormatPostReport([
      [("type", Object("{'image': 3, 'video': 2}", [("image", "3"), ("video", "2")]))],
      [("totalPosts", Scalar("5"))]
    ]) == Some("\U{1F4CA} **Post Report**\n\n"
             + "**By Type:**\n"
             + "- image: 3\n"
             + "- video: 2\n"
             + "\n**Total Posts:** 5\n")
  {
    var ps := [("image", "3"), ("video", "2")];
    var e1: Entry := [("type", Object("{'image': 3, 'video': 2}", ps))];
    var e2: Entry := [("totalPosts", Scalar("5"))];
    assert e1[0].0 == "type";
    assert e2[0].0 == "totalPosts";
    assert !HasKey(e2, "type") && !HasKey(e2, "category") && !HasKey(e2, "status");
    TypeSection(e1, "{'image': 3, 'video': 2}", ps);
    TotalPostsLine(e2, Scalar("5"));
    ReportBodyPair(e1, e2);
    ImageVideoLines();
    var a, b, c, d := "**By Type:**\n", "- image: 3\n", "- video: 2\n", "\n**Total Posts:** 5\n";
    assert TotalLine("5") == d;
    assert FormatPostReport([e1, e2]) == Some(Title + ((a + (b + c)) + d));
    assert (a + (b + c)) + d == a + b + c + d;
    assert Title + (a + b + c + d) == Title + a + b + c + d;
  }
}
