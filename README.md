# Post-report formatter and button callback of a Telegram report bot

The bot offers two inline buttons on `/start`. When a button is pressed,
`button_callback` in `telegram_bot.py` decides what text replaces the
message. For "Get Report Post" it fetches `API_URL + "/report"`. It then
turns the JSON list in the response into one Markdown message. Each element
of the list gives either a section or a total line:

- an element with `type` gives `**By Type:**` followed by one `- key: value` line per pair of its mapping;
- otherwise one with `category` gives `\n**By Category:**` and its lines;
- otherwise one with `status` gives `\n**By Status:**` and its lines;
- otherwise one with `totalPosts` gives `\n**Total Posts:** value`;
- an element with none of these keys adds nothing.

A non-200 status gives a fixed failure text, and an exception gives a fixed
error text. "Get Report User" always answers that the feature is not
implemented. Any other callback data leaves the message unchanged.

The model has five files:

- `wrappers.dfy`: the `Option` type.
- `report_data.dfy`: the parsed payload. An entry is a JSON object as an ordered sequence of pairs. A value is a `Scalar` or an `Object` with its own pairs. Each value carries the text Python's `str()` gives for it.
- `post_report.dfy`: the formatter as functions (`Fragment`, `ReportBody`, `FormatPostReport`). It also has a second reading of the loop body ("take the strongest key present, then render it") and the lemmas.
- `post_report_builder.dfy`: the loop as the code runs it. It grows a string with `+=` in an outer loop over the list and an inner loop over a section's pairs. Each method is proved equal to the functions.
- `button_callback.dfy`: the decision of `button_callback` as a pure function of the callback data and an abstract fetch outcome.

The formatter returns `None` where the Python loop raises. That happens when the key that selects an entry's section is bound to something that is not a JSON object, so `.items()` fails. The exception is caught by the `except` around the fetch, so the callback then shows the error text.

Four points of the code are easy to misread:

- The fetched path is `API_URL + "/report"` (telegram_bot.py:42).
- A header is appended for every matching entry, so it can appear more than once (telegram_bot.py:49, :53, :57).
- The user button only sets a fixed text. Nothing is fetched or formatted for it (telegram_bot.py:71).
- Other callback data reaches no branch, so nothing is edited (telegram_bot.py:39, :69).

## Model

| member | source | states |
|---|---|---|
| `ReportData.HasKey` | telegram_bot.py:48-60 | Python's `key in item`. It has no contract of its own; `Lookup`'s contract ties it to lookup |
| `ReportData.Lookup` | telegram_bot.py:48-61 | `item[key]` is defined exactly when `key in item`, and the value found is one the entry binds to that key |
| `PostReport.Lines` | telegram_bot.py:50-59 | the inner `.items()` loops of the three sections. It has no contract of its own; `LinesAppend` and `LinesOfCons` state its properties |
| `PostReport.Fragment` | telegram_bot.py:48-61 | the if/elif chain of the loop body. It has no contract of its own; `FragmentIsRenderOfSelected` and `FragmentFailsIffMalformed` state its properties |
| `PostReport.ReportBody` | telegram_bot.py:47-61 | the outer loop over the list. It has no contract of its own; `ReportBodyAppend` and `ReportFailsIffSomeEntryMalformed` state its properties |
| `PostReport.FormatPostReport` | telegram_bot.py:46-61 | every message the formatter produces begins with the title `📊 **Post Report**` and a blank line |
| `PostReport.EmptyReportIsTitle` | telegram_bot.py:46-47 | an empty list yields exactly the title |
| `PostReport.FirstPresent` | telegram_bot.py:48-60 | the selected key is present, no earlier key is present, and nothing is selected only when no key is present |
| `PostReport.SelectionPrecedence` | telegram_bot.py:48-60 | an entry holding a stronger key (`type` > `category` > `status` > `totalPosts`) is never rendered as a weaker section |
| `PostReport.FragmentIsRenderOfSelected` | telegram_bot.py:48-61 | the if/elif chain of the loop body equals "render the strongest key present"; an entry with no key contributes the empty text |
| `PostReport.UnmatchedIffNothingSelected` | telegram_bot.py:47-61 | an entry without any of the four keys is exactly one for which no branch is taken |
| `PostReport.FragmentFailsIffMalformed` | telegram_bot.py:48-59 | the loop body raises exactly when the selected section's value is not a JSON object |
| `PostReport.ReportFailsIffSomeEntryMalformed` | telegram_bot.py:47-61 | the whole loop raises exactly when some list element is malformed |
| `PostReport.LinesAppend` | telegram_bot.py:50-51 | the lines of two runs of pairs are the two runs' lines concatenated |
| `PostReport.LinesOfCons` | telegram_bot.py:50-51 | a section has exactly one `- k: v` line per pair, in the mapping's own order |
| `PostReport.ReportBodyAppend` | telegram_bot.py:47-61 | elements are processed in list order: the body of `xs + ys` is the body of `xs` followed by that of `ys`, and fails if either fails |
| `PostReport.FormatAppend` | telegram_bot.py:46-61 | the message for `xs + ys` is the message for `xs` with the fragments of `ys` appended |
| `PostReport.ReportBodySingleton` | telegram_bot.py:47-61 | a one-element list contributes exactly that element's fragment |
| `PostReport.ReportBodyPair` | telegram_bot.py:47-61 | a two-element list contributes the two fragments in order |
| `PostReport.UnmatchedEntryIsSkipped` | telegram_bot.py:47-61 | removing an entry that has none of the four keys leaves the message unchanged |
| `PostReport.TypeSection` | telegram_bot.py:48-51 | an entry with `type` gives `**By Type:**` (no leading newline) and its lines, whatever other keys it has |
| `PostReport.CategorySection` | telegram_bot.py:52-55 | without `type`, an entry with `category` gives `\n**By Category:**` and its lines |
| `PostReport.StatusSection` | telegram_bot.py:56-59 | without `type` or `category`, an entry with `status` gives `\n**By Status:**` and its lines |
| `PostReport.TotalPostsLine` | telegram_bot.py:60-61 | with only `totalPosts` among the four keys, an entry gives exactly `\n**Total Posts:** v\n` |
| `PostReport.TypeHeaderRepeats` | telegram_bot.py:47-51 | two `type` entries give the `**By Type:**` header twice: headers are not deduplicated |
| `PostReport.ImageVideoLines` | telegram_bot.py:50-51 | the mapping `{"image": 3, "video": 2}` renders as the two lines `- image: 3` and `- video: 2` |
| `PostReport.TypeThenTotalExample` | telegram_bot.py:46-61 | `[{"type": {"image": 3, "video": 2}}, {"totalPosts": 5}]` renders as the title, the type section and the total line, in that order and nothing else |
| `PostReportBuilder.AppendLines` | telegram_bot.py:50-51 | the inner `for key, value in ....items()` loop appends exactly the section's lines |
| `PostReportBuilder.AppendSection` | telegram_bot.py:49-59 | a section appends its header and lines for an object value and raises for any other value |
| `PostReportBuilder.StepInvariant` | telegram_bot.py:47-61 | one pass of the outer loop either extends the message by the element's fragment or makes the whole report fail |
| `PostReportBuilder.BuildPostReport` | telegram_bot.py:46-61 | the imperative loop builds exactly `FormatPostReport(data)` and fails exactly where it does |
| `ButtonCallback.RequestedUrl` | telegram_bot.py:39-42 | a fetch happens only for `get_report_post`, and its URL is `API_URL` followed by `/report` |
| `ButtonCallback.Callback` | telegram_bot.py:39-71 | the message is edited exactly for the two known callback data, and the user choice always gets the not-implemented text |
| `ButtonCallback.PostRaised` | telegram_bot.py:65-67 | a fetch that raised shows "An error occurred while fetching the report." |
| `ButtonCallback.PostNotOk` | telegram_bot.py:43-64 | any status other than 200 shows "Failed to fetch report. Please try again later.", whatever the body |
| `ButtonCallback.PostOk` | telegram_bot.py:43-67 | status 200 shows the formatted report, and shows the error text exactly when some element is malformed |
| `ButtonCallback.ReportIsNotAFixedText` | telegram_bot.py:46-71 | a formatted report can never be mistaken for one of the three fixed texts |
| `ButtonCallback.PostTextsAreDistinguishable` | telegram_bot.py:39-67 | for a post request the failure text appears exactly for a non-200 response, and any other text that is not the error text is a titled report |
| `ButtonCallback.UserChoiceIgnoresFetch` | telegram_bot.py:69-71 | the user choice requests no URL, and its text is the same for every fetch outcome |
| `ButtonCallback.StartButtonsAreAnswered` | telegram_bot.py:23-71 | every button that `/start` offers gets an answer, whatever the fetch gives |

## Left out

- The HTTP GET (`requests.get`) and JSON decoding are external calls. They become the `FetchOutcome` parameter: a response with its status and the parsed list, or `Raised`. A 200 response whose body is not JSON is folded into `Raised`. For any other status the body is never read, so that response is a `Response(status, _)` whatever its body holds.
- The Telegram SDK calls are chat transport and are not modelled. These are `query.answer`, `edit_message_text`, `reply_text`, and the keyboard markup objects. Only the callback data of the two `/start` buttons is kept.
- ButtonCallback.Callback: gives the text the handler first tries to set. In the source, both edits on the post branch (the report and the failure text) are inside the `try`, so an edit that Telegram rejects becomes the error text. Examples are a report over the message-length limit, or Markdown that does not parse. The model does not capture this fallback. The user branch's edit is outside the `try` and has no such fallback.
- Application construction, handler registration and polling are framework wiring over async concurrency and are not modelled.
- Loading the `.env` file, reading the environment and configuring logging are I/O and global configuration. `API_URL` becomes a string parameter, and the error log line is dropped.
- Python's `str()` rendering of JSON values is not modelled. Each value carries its rendered text as data, and the pairs of a mapping are already rendered.
- The payload is taken to be a list of JSON objects.
- A 200 response whose JSON is a number, boolean or null makes the loop raise at telegram_bot.py:47, so the error text is shown. So does a list that holds such an element, which raises at :48. The model is given such a response as `Raised`.
- Not covered: a top-level JSON object or string, where `for item in data` walks keys or characters, and a list element that is a list or a string, where `in` tests membership or substrings.
- ReportData.Lookup: takes the first pair with the key. This matches Python only because a parsed JSON object has distinct keys. The model does not capture Python keeping the last value of a duplicated key.
