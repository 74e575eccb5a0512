# Website monitor: one check cycle

A model of the decision logic of a periodic website-availability monitor
(`script.py`). Each cycle probes a configured, ordered list of URLs, classifies
every probe result as up or down with a human-readable message, collects the
down targets as `"url: message"` lines in input order, renders an alert mail
from a template, and sends that alert once when at least one target is down
and never when all are up.

Modules:

- `Classifier` (`classifier.dfy`): the probe-result datatype `ProbeOutcome`
  and `Classify`, which mirrors `check_website_status` once the HTTP request
  has been made. `Rule` states the first-match decision table case by case;
  `VerdictOf` and `StatusOf` read the branch and the status code back out of
  a message.
- `Cycle` (`cycle.dfy`): `DownEntries`/`DownIndices` (which targets are listed,
  and in what order), `Summary`, `RunCycle` (the whole cycle, including the
  dispatch decision, as a function) and `Job` (the same cycle with the
  collection loop of the source).
- `Decimal` (`decimal.dfy`): Python's decimal rendering of an integer and its
  parser, used for the status code inside the up message.
- `Text` (`text.dfy`): prefix tests, `"\n".join` and `str.split("\n")`.
- `Wrappers` (`wrappers.dfy`): `Option`.

Assumptions and parameters:

- The HTTP library's `raise_for_status` is taken to reject exactly the
  statuses `400 <= code < 600` (`RaiseForStatusRejects`). The library is not
  part of this model.
- A probe is one of four disjoint results: a response with a status, a
  connection error, a timeout, or another request error. Elapsed times
  (already formatted with two decimals) and exception texts are opaque
  strings carried by the probe.
- Python's `str.format` is a parameter of the cycle, `Formatter`, a partial
  function from a pattern and its keyword arguments to the rendered text;
  `None` stands for formatting raising. The date string is a parameter too.
- A dispatch is an event `Alert(subject, body)` in the cycle's `sends`.
  The mail function swallows every error, so a failed delivery changes
  nothing in the cycle's result.

Behaviour of the code worth stating explicitly:

- A status counts as up whenever `raise_for_status` accepts it, not only for
  2xx and 3xx answers: every 1xx status and every status of 600 or above is
  up as well (`InformationalStatusIsUp`).
- `start_time` is assigned before anything in the `try` block can raise, so
  the HTTP error message always carries an elapsed time, taken from a second
  clock reading in the handler (`Response.elapsedAtError`).
- Rendering the subject and body happens before the "anything down?" test, so
  a template whose formatting raises leaves the cycle without a dispatch even
  when targets are down (`renderFailed`); the exception itself then escapes
  the cycle (see "## Left out").

## Model

| member | source | states |
|---|---|---|
| Classifier.Classify | script.py:35-55 | alive exactly for a completed response whose status `raise_for_status` accepts; every rejected status and every transport failure is down |
| Classifier.ClassifyPhrases | script.py:41-55 | the message opens with the phrase of the branch that fired: 404 gives "404 Not Found" and 503 "503 Service Unavailable" (both winning over the generic path), any other rejected status "HTTP error occurred", the up case "Website is up and running", and connection errors, timeouts and other request errors "Connection error occurred", "Timeout occurred" and "An error occurred", all down |
| Classifier.Rule | script.py:41-55 | first-match order as exact conditions: 404 and 503 win over the generic rejection, the HTTP-error branch fires for every other rejected status, the up branch exactly for accepted statuses, and each transport failure kind has its own handler |
| Classifier.ClassifyFollowsRule | script.py:41-55 | the message alone tells which branch produced it, that branch is the one the decision table selects, and the target is alive exactly when it is the up branch |
| Classifier.UpMessageCarriesStatus | script.py:47 | the up message contains the status code, and it reads back exactly |
| Classifier.InformationalStatusIsUp | script.py:46-47 | every 1xx status and every status of 600 or above passes `raise_for_status` and so is classified up |
| Classifier.SpecificStatusesPrecedeHttpError | script.py:41-46 | 404 and 503 are rejected by `raise_for_status`, yet the message produced for them is never the generic HTTP-error one, because their branches come first |
| Decimal.IntToString | script.py:47 | the status code in the up message is rendered as Python renders an int: a minus sign exactly for negative codes, then decimal digits without leading zeros |
| Decimal.ParseIntToString | script.py:47 | reading back the decimal rendering of any status code gives that code |
| Decimal.IntToStringInjective | script.py:47 | distinct status codes render to distinct texts |
| Text.JoinLines | script.py:106 | the newline join of a non-empty list starts with its first line and has at least one character per separator |
| Text.SplitJoinLines | script.py:106 | splitting the newline join of newline-free lines gives the lines back |
| Cycle.Entry | script.py:98 | a down line starts with the target's URL, followed by a colon |
| Cycle.DownIndices | script.py:91-98 | the listed positions are strictly increasing, each one is a down target, and every down target is among them |
| Cycle.DownEntries | script.py:91-98 | no more down lines than targets |
| Cycle.DownEntriesAtDownIndices | script.py:91-98 | there is one down line per down target, and the k-th line is the `url: message` line of the k-th down target in input order |
| Cycle.DownEntriesEmptyIffAllUp | script.py:97-98 | no line is collected exactly when every target is up |
| Cycle.UpTargetsNotListed | script.py:97-98 | an up target's position never contributes a line |
| Cycle.DownEntriesAppend | script.py:91-98 | collecting over consecutive stretches of targets concatenates their lines, so the collection is order-preserving and compositional |
| Cycle.CollectDownEntries | script.py:89-98 | the loop over the targets collects exactly the down lines, in input order |
| Cycle.Summary | script.py:106 | with no down lines the summary is the fixed all-up sentence; otherwise it starts with the first down line and, when no line has a break, splits back into exactly the down lines |
| Cycle.SummaryAllUpIffNothingDown | script.py:106 | the summary is the fixed all-up sentence exactly when no target is down |
| Cycle.SummaryLinesAreEntries | script.py:106 | when no down target's line contains a line break, the summary holds one down line per line, in input order |
| Cycle.RunCycle | script.py:89-117 | the cycle's lines are the down lines; its summary is the all-up sentence iff nothing is down and the newline join otherwise; rendering fails iff formatting the subject or the body raises; at most one alert is sent, exactly one iff something is down and rendering succeeded, and it carries the rendered subject and body |
| Cycle.Job | script.py:86-117 | the loop-based cycle produces the same report as `RunCycle` |
| Cycle.DispatchGating | script.py:113-117 | one alert when some target is down and rendering succeeded, zero otherwise |
| Cycle.ReportIndependentOfRendering | script.py:89-110 | the down lines and summary depend only on the probe results, not on the date, template or formatter, so repeating a cycle over the same results repeats them |

## Left out

- HTTP transport: the GET request, its fixed headers, the disabled TLS verification and the 10-second timeout (script.py:28-37) are a call into a library; the model starts from the probe result.
- Exception hierarchy of the HTTP library: its error kinds are modelled as disjoint, so a failure that is both a connection error and a timeout in the library (handled by the connection-error handler, which comes first) is not represented separately. Exceptions outside the library's request-error family, which would escape `check_website_status` and stop the monitor (see below), are not modelled.
- Classifier.Classify: response times and the `:.2f` float formatting (script.py:36-39, 42, 44, 47, 49) are wall-clock readings and floats; they are opaque strings here, so the contract says nothing about their digits.
- Exception texts (`{e}` in script.py:49-55) are opaque strings; the `raise_for_status` message format belongs to the library.
- Mail sending (`send_email_alert`, script.py:66-84): SMTP, STARTTLS and login are I/O; a dispatch is only the event it records, and its swallowed errors have no effect on the cycle.
- Config loading (`load_urls_from_json`, `load_email_template`, script.py:57-64): file and JSON I/O; the targets and the template are parameters, and a missing `url`, `subject` or `body` key is not modelled.
- Cycle.RunCycle: template rendering (script.py:105, 107-110) follows Python's format mini-language, which is left uninterpreted as the `Formatter` parameter, so the contract cannot say that the body contains the summary.
- Clock: `datetime.now()` (script.py:102) is the `date` parameter.
- Scheduler (`run_scheduler`, script.py:119-124): an infinite wall-clock loop over an external scheduling library.
- Escaping exceptions: a formatting error in the template (`renderFailed`), an exception outside the request-error family, or a missing configuration key propagates out of `job`; neither `run_scheduler` (script.py:122-124) nor the scheduling library catches it, so it stops the monitor altogether. The model records only that the cycle ends without a dispatch; the process stopping is not modelled.
- Logging (script.py:17-25 and the `logging` calls throughout): output only, no effect on decisions.
