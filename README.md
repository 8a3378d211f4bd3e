# Comments-box monitor, modelled in Dafny

`monitor_comments.py` polls one web page, decides whether a "document
comments" box is on it, and sends one e-mail alert when the box goes from
absent to present. The state between invocations is a small JSON file that
holds the previous observation.

This project models the two parts of that script that hold logic:

- **Detector** (`detector.dfy`): the case-insensitive regular expression
  `document\s+comments` searched anywhere in the raw page. `PatternFound` is
  its specification, an existential over match positions. `Search` is a
  scanning implementation proved equal to it. `PageHasComments` combines the
  regex result with the structural fallback, which enters as the boolean
  `selectorHit`.
- **Monitor** (`monitor.dfy`): the edge-triggered alert policy of `main`.
  `CommentsMonitor` is a class whose field `stored` is the state file, with
  `None` meaning that no file exists. `Run` loads the previous value, decides
  the alert, and overwrites the state. `Poll` is one full invocation on a
  page. The pure functions `AlertsFrom` and `Alerts` give the alerts of a
  whole sequence of invocations. The lemmas prove that, from a first
  deployment, alerts fire exactly at the rising edges of the observations.

The state file's content is a `Json` value, not a `bool`. `save_state` only
ever writes `true` or `false` (line 84), but `load_previous_state` returns
whatever JSON the file holds (line 47), and the alert test is the identity
check `prev is False` (line 77). So a stored `0` compares equal to `False` but
never triggers an alert, and the model shows this.

## Model

| member | source | states |
|---|---|---|
| Detector.IsSpace | monitor_comments.py:26 | the characters `\s` matches are the space and ASCII control characters, none of them a letter, so case folding leaves them unchanged |
| Detector.Lower | monitor_comments.py:26 | the case folding of `re.I`: an upper-case letter goes to the lower-case letter at the same position of the alphabet, every other character is kept, and no result is an upper-case letter |
| Detector.PatternFound | monitor_comments.py:26-33 | the reference meaning of `PATTERN.search(html)`: some position holds "document", a non-empty whitespace run, then "comments", in any case; a hit needs at least 17 characters |
| Detector.MatchEndIsRunEnd | monitor_comments.py:26 | for a match starting at a given position, `\s+` ends exactly at the first non-whitespace character after "document", so the greedy run is the only candidate |
| Detector.Search | monitor_comments.py:26-33 | the scan reports a hit if and only if the pattern "document", whitespace, "comments" occurs somewhere in the text, in any letter case |
| Detector.PageHasComments | monitor_comments.py:29-36 | the page has the box iff the regex check hits or the selector fallback does; when the regex check fails, the answer is the fallback's |
| Detector.PhraseIsFound | monitor_comments.py:26 | any text that contains "document", a non-empty whitespace gap, then "comments", in any letter case and with any surrounding text, is a hit |
| Detector.NoDocumentNoMatch | monitor_comments.py:26 | text without the letter "d" in either case is never a hit |
| Detector.CaseDoesNotMatter | monitor_comments.py:26 | two texts that differ only in the case of letters are both hits or both not |
| Monitor.ShouldAlert | monitor_comments.py:77 | an alert is due iff the previous value is exactly the boolean `false` and the current observation is `true`; with no state file there is never an alert |
| Monitor.EqualityIsNotIdentity | monitor_comments.py:77 | a stored `0` compares equal to `False` yet does not trigger an alert |
| Monitor.ResumeIsContinuation | monitor_comments.py:74-84 | stopping after some runs and resuming from the state file they left gives the same final state and the same alerts as never having stopped |
| Monitor.AlertsFrom | monitor_comments.py:71-85 | a sequence of runs yields exactly one alert decision per observation |
| Monitor.Alerts | monitor_comments.py:45-48 | runs that start without a state file yield one alert decision per observation |
| Monitor.AlertAt | monitor_comments.py:74-84 | run `i` alerts iff, for `i = 0`, the starting value is `false` and the box is seen, or, for `i > 0`, run `i - 1` did not see the box and run `i` does |
| Monitor.AlertsAreRisingEdges | monitor_comments.py:76-84 | starting without a state file, alerts happen exactly at the runs `i > 0` with `obs[i-1] = false` and `obs[i] = true` |
| Monitor.NoConsecutiveAlerts | monitor_comments.py:77-84 | two consecutive runs never both alert |
| Monitor.SteadyPageAlertsAtMostOnce | monitor_comments.py:77-84 | on an unchanged page, only the first of repeated runs can alert, whatever the stored value |
| Monitor.CommentsMonitor.constructor | monitor_comments.py:45-48 | a first deployment has no state file and no runs |
| Monitor.CommentsMonitor.Resume | monitor_comments.py:45-47 | a deployment may start from any content of the state file |
| Monitor.CommentsMonitor.Run | monitor_comments.py:74-84 | alerts iff the loaded value is exactly `false` and the observation is `true`; afterwards the state holds the observation, whether or not an alert fired |
| Monitor.CommentsMonitor.SentAreRisingEdges | monitor_comments.py:76-84 | for a deployment that began without a state file, every alert so far came at a rising edge, and every rising edge gave an alert |
| Monitor.CommentsMonitor.Poll | monitor_comments.py:71-84 | one invocation alerts iff the state held `false` and the page now shows the box by regex or selector, then stores that observation |
| Monitor.ThreeRuns | monitor_comments.py:71-85 | a fresh deployment that sees a page without the phrase, then "Document Comments" twice, alerts on the second run only |

## Left out

- `fetch_html` (HTTP GET with a 30-second timeout and `raise_for_status`) is network I/O. The page text is a parameter of `Poll`.
- `send_email` (SMTP with STARTTLS, credentials from the environment, `print`) is I/O. The alert is a returned boolean, and the subject and body strings are not modelled. In the source the send runs between the load (line 74) and the save (line 84). If it raises, the stored `false` survives, and the next run on the same page alerts again at a run that is not a rising edge. The model assumes that the send succeeds, so `AlertsAreRisingEdges` does not cover that case.
- The BeautifulSoup parse and the CSS selector `[data-test-id='document-comments'], .document-comments` belong to a foreign library. The selector's answer is the boolean parameter `selectorHit`. The parse runs before the regex check (line 31), so a parse failure can end the run even when the regex would hit. That fault path is not modelled.
- `load_previous_state` and `save_state` read and write a file. They are the field `stored`. A state file that is not valid JSON raises an exception; that path is not modelled. JSON numbers are integers only; floating-point values such as `0.0` are not represented.
- A state file holding JSON `null` loads as Python `None`, the same as a missing file. In the model it is `Some(JNull)`. Neither triggers an alert, so the alert decisions are the same.
- Detector.Search: approximates Python's `re.I` by ASCII case folding and `\s` by the ASCII whitespace set {space, tab, line feed, carriage return, form feed, vertical tab}. Python also folds some non-ASCII letters, such as U+017F LONG S, which matches "s". Its `\s` also includes the ASCII separators U+001C to U+001F and other Unicode spaces, such as U+0085, U+00A0 and U+2028. Texts that match only through those characters are misses in the model.
- Environment lookups (`WEBSITE_URL`, `EMAIL_USER`, `EMAIL_PASSWORD`, `RECIPIENT`) and the final `print` of line 85 are configuration and output, and are left out.
- Overlapping invocations and a crash between loading and saving the state are not modelled. The source assumes that invocations run one after another.
