/**
 * The decision `button_callback` makes (telegram_bot.py:35-71): given the
 * callback data of the pressed button and what the HTTP fetch produced,
 * which text, if any, replaces the message.  The two buttons that `start`
 * offers (telegram_bot.py:21-32) are modelled by their callback data.
 */
module ButtonCallback {
  import opened Wrappers
  import opened ReportData
  import opened PostReport

  const PostChoice: string := "get_report_post"
  const UserChoice: string := "get_report_user"

  // The fixed texts are written in two halves: the verifier reads the
  // characters of a short literal more readily than those of a long one.
  const FailedText: string := "Failed to fetch report. " + "Please try again later."
  const ErrorText: string := "An error occurred " + "while fetching the report."
  const NotImplementedText: string := "User report functionality " + "is not implemented yet."

  /** The buttons of the `/start` keyboard: (label, callback data). */
  const StartButtons: seq<(string, string)> :=
    [("Get Report Post", PostChoice), ("Get Report User", UserChoice)]

  /**
   * What `requests.get(API_URL + "/report")` and `response.json()` give the
   * handler: a response with its status code and, for a 200 response, the
   * parsed report list; or an exception (a network fault; a 200 response
   * whose body is not JSON; or a 200 response whose JSON is a number, a
   * boolean or null, or a list holding one, on which the loop itself raises
   * at `for item in data` or `"type" in item`).  For any status other than 200 the body is
   * never read, so such a response is a `Response(status, _)` whatever its
   * body holds.
   */
  datatype FetchOutcome =
    | Response(statusCode: int, payload: seq<Entry>)
    | Raised

  /** The URL the handler fetches for a choice, if it fetches at all. */
  function RequestedUrl(apiUrl: string, data: string): (r: Option<string>)
    ensures r.Some? <==> data == PostChoice
    ensures r.Some? ==> |r.value| == |apiUrl| + 7
    ensures r.Some? ==> r.value[..|apiUrl|] == apiUrl && r.value[|apiUrl|..] == "/report"
  {
    if data == PostChoice then Some(apiUrl + "/report") else None
  }

  /** The text that replaces the message, or `None` when the message is left alone. */
  function Callback(data: string, fetch: FetchOutcome): (r: Option<string>)
    ensures r.None? <==> data != PostChoice && data != UserChoice
    ensures data == UserChoice ==> r == Some(NotImplementedText)
  {
    if data == PostChoice then
      match fetch
      case Raised => Some(ErrorText)
      case Response(status, payload) =>
        if status == 200 then
          match FormatPostReport(payload)
          case Some(message) => Some(message)
          case None => Some(ErrorText)
        else Some(FailedText)
    else if data == UserChoice then Some(NotImplementedText)
    else None
  }

  /** A post request that raised shows the generic error text. */
  lemma PostRaised()
    ensures Callback(PostChoice, Raised) == Some(ErrorText)
  {
  }

  /** A post request answered with any status other than 200 shows the failure text, whatever the body. */
  lemma PostNotOk(status: int, payload: seq<Entry>)
    requires status != 200
    ensures Callback(PostChoice, Response(status, payload)) == Some(FailedText)
  {
  }

  /**
   * A post request answered with 200 shows the formatted report; a list the
   * loop cannot format (an exception inside the `try`) shows the error text.
   */
  lemma PostOk(payload: seq<Entry>)
    ensures FormatPostReport(payload).Some? ==>
      Callback(PostChoice, Response(200, payload)) == FormatPostReport(payload)
    ensures (exists i :: 0 <= i < |payload| && Malformed(payload[i])) <==>
      Callback(PostChoice, Response(200, payload)) == Some(ErrorText)
  {
    ReportFailsIffSomeEntryMalformed(payload);
    if FormatPostReport(payload).Some? {
      ReportIsNotAFixedText(FormatPostReport(payload).value);
    }
  }

  /** A formatted report starts with the title, so it is never one of the fixed texts. */
  lemma ReportIsNotAFixedText(message: string)
    requires |Title| <= |message| && message[..|Title|] == Title
    ensures message != FailedText && message != ErrorText && message != NotImplementedText
  {
    assert message[0] == Title[0] == '\U{1F4CA}';
    assert FailedText[0] == 'F' && ErrorText[0] == 'A' && NotImplementedText[0] == 'U';
  }

  /**
   * For a post request the outcome decides which text is shown, and the
   * three kinds of text are distinct: the report (title first), the failure
   * text, the error text.
   */
  lemma {:induction false} PostTextsAreDistinguishable(fetch: FetchOutcome)
    ensures Callback(PostChoice, fetch).Some?
    ensures var t := Callback(PostChoice, fetch).value;
      (t == FailedText <==> fetch.Response? && fetch.statusCode != 200)
      && (t != FailedText && t != ErrorText ==> |Title| <= |t| && t[..|Title|] == Title)
  {
    match fetch
    case Raised =>
    case Response(status, payload) =>
      if status == 200 {
        var f := FormatPostReport(payload);
        if f.Some? {
          ReportIsNotAFixedText(f.value);
        }
      }
  }

  /** The user choice fetches nothing: its text does not depend on any fetch outcome. */
  lemma UserChoiceIgnoresFetch(apiUrl: string, f1: FetchOutcome, f2: FetchOutcome)
    ensures RequestedUrl(apiUrl, UserChoice).None?
    ensures Callback(UserChoice, f1) == Callback(UserChoice, f2) == Some(NotImplementedText)
  {
  }

  /** Every button of the `/start` keyboard is answered, whatever the fetch gives. */
  lemma StartButtonsAreAnswered(b: nat, fetch: FetchOutcome)
    requires b < |StartButtons|
    ensures Callback(StartButtons[b].1, fetch).Some?
  {
  }
}
