# Service BC wait-time API: a verified model of the Lambda handler

This project is a Dafny model of the AWS Lambda in `SBC-RT/app.py`. The Lambda
answers one HTTP request with the current queue length and an estimated wait
for one or more Service BC offices. It works in four steps:

1. **Scope selection.** If the request has an `id` query parameter, the office ids
   are its comma-separated pieces. Otherwise they are every office in the static
   directory, and the page is in "all offices" mode.
2. **Live state.** For each office, it reads today's telemetry: how many citizens
   were added, how many left and how many finished. The line is arrivals minus
   those who left and those served. The agents are the distinct agent ids among
   the front-office hits the last-hour search returns. That search is run with `execute()` and no size,
   so it returns a single page of hits (10 by Elasticsearch's default), not
   every event of the hour.
3. **Wait estimate.** The warehouse rows give a `time_per` (seconds of service per
   customer) for each office, and the last row for an office wins. The wait is
   `round(time_per / max(1, agents) * max(0, line) / 60)` minutes. An office
   without history gets the empty-string sentinel.
4. **Rendering.** The response is JSON (`sbc-wt`, version `0.1`, a result count and
   the data), or an HTML fragment when `vis` equals "true" in any letter case. The
   fragment shows each office's line length, its wait as `HH:MM:00`, and in
   all-offices mode the office name and a link built from it.

Modules, one per file:

- `Wrappers` holds `Option` and `Result`.
- `Text` models the Python string builtins the handler uses: `split`, `lower`,
  `str(int)`, `int(str)`, `zfill`, and `int(a / b)`.
- `Rounding` models Python's `round` (half to even) on exact reals.
- `OfficeScope` covers the directory, the request event, scope selection and the
  `vis` test.
- `LiveQueue` derives each office's live record from its telemetry.
- `WaitEstimator` covers the `times` dictionary and the estimate loop.
- `Renderer` covers `generate_api_response` and `build_wait_times_graph`.
- `Handler` covers `lambda_handler` end to end.

The loops of the source are methods with loop invariants, each proved against a
specification function. The properties of the pipeline are proved as lemmas
about those functions.

## Model

| member | source | states |
|---|---|---|
| OfficeScope.SelectScope | SBC-RT/app.py:62-75 | The ids are the comma-separated pieces of `id` when it is present, otherwise the directory ids in order; `all_offices` holds exactly when there is no `id` parameter and the directory is non-empty |
| OfficeScope.ScopeIds | SBC-RT/app.py:65-75 | With an `id` parameter there is at least one id and all come from the query; without it there is one directory id per directory entry |
| OfficeScope.ExplicitScopeIsTheIdParameter | SBC-RT/app.py:65-67 | The query ids hold no comma, and joined back with commas they give the `id` parameter exactly; all-offices mode is off |
| OfficeScope.DefaultScopeIsTheDirectory | SBC-RT/app.py:69-75 | Without `id` the scope is the directory's ids in directory order, and all-offices mode is on exactly when the directory is non-empty |
| OfficeScope.EmptyDirectoryQuirk | SBC-RT/app.py:69-75 | With an empty directory and no `id`, the scope is empty and `all_offices` stays false, whether the query dictionary is absent or empty |
| OfficeScope.ExplicitScopeKeepsRequestOrder | SBC-RT/app.py:67 | `id=3,1` gives the ids "3" then "1", in request order, and `int()` reads them as 3 and 1 |
| OfficeScope.EmptyIdParameterIsRejected | SBC-RT/app.py:67 | `id=` splits to one empty piece, which `int()` rejects |
| OfficeScope.OfficeIdValue | SBC-RT/app.py:91 | `int()` of a directory id is that id; a query piece is accepted exactly when it is an optionally signed, non-empty run of ASCII digits, an unsigned one reads as a non-negative value, and the text of `str(n)` reads back as `n` |
| OfficeScope.VisRequested | SBC-RT/app.py:101-104 | HTML is requested exactly when the query dictionary is present, holds `vis`, and its value is four letters spelling "true" in any mix of cases |
| OfficeScope.VisIgnoresCase | SBC-RT/app.py:101-104 | "TRUE" and "True" request HTML; "1", "true " and a request with no query dictionary do not |
| OfficeScope.VisMeansTrueInAnyCase | SBC-RT/app.py:103 | `vis.lower() == 'true'` holds exactly for the sixteen upper/lower-case spellings of "true" |
| LiveQueue.LineSize | SBC-RT/app.py:247 | The raw line never exceeds the arrivals and is negative exactly when departures exceed arrivals |
| LiveQueue.NegativeRawLine | SBC-RT/app.py:247 | Five arrivals, two who left and four served give a raw line of -1 |
| LiveQueue.DistinctAtMostLength | SBC-RT/app.py:243 | The number of distinct agents never exceeds the number of events |
| LiveQueue.DistinctZeroIffEmpty | SBC-RT/app.py:243 | There are no distinct agents exactly when there are no events |
| LiveQueue.DistinctCountIffAllDistinct | SBC-RT/app.py:243 | The distinct count equals the event count exactly when no agent id repeats |
| LiveQueue.RecordFor | SBC-RT/app.py:237-255 | An office's record keeps its id; its raw line is arrivals minus those who left and those served; its agent count is the number of distinct agent ids among the events, at most the number of events, and zero exactly when there were none |
| LiveQueue.CollectAgents | SBC-RT/app.py:237-240 | The agent list is the agent id of every event, in event order |
| LiveQueue.QueryRealtime | SBC-RT/app.py:171-257 | One record per requested id, in request order, each derived from that office's telemetry |
| WaitEstimator.Clamp | SBC-RT/app.py:92 | The reported line is the raw line when that is non-negative, and zero otherwise |
| WaitEstimator.Staff | SBC-RT/app.py:96 | The divisor is at least one and at least the agent count, and equals the agent count when there is an agent |
| WaitEstimator.PerAgentSeconds | SBC-RT/app.py:96 | The per-agent share times the staff count is `time_per`; for a non-negative `time_per` the share lies between 0 and `time_per` |
| WaitEstimator.MinutesOfShare | SBC-RT/app.py:96 | The minutes times 60 equal the per-agent seconds times the line length |
| WaitEstimator.MinutesOfShareMonotone | SBC-RT/app.py:96 | More seconds each or a longer line never gives fewer minutes |
| WaitEstimator.WaitMinutes | SBC-RT/app.py:96 | An empty line waits 0 minutes; a non-negative history never gives a negative wait |
| WaitEstimator.WaitIsNearestMinute | SBC-RT/app.py:96-97 | The wait is the whole number nearest to `time_per * line / (60 * max(1, agents))`, within half a minute, with ties going to the even neighbour |
| WaitEstimator.ZeroAgentsCountAsOne | SBC-RT/app.py:96 | No agents on duty gives the same estimate as one agent |
| WaitEstimator.TwoAgentsTenInLine | SBC-RT/app.py:96 | 600 seconds per customer, two agents and ten in line give 50 minutes |
| WaitEstimator.LongerLineNeverShorterWait | SBC-RT/app.py:96 | With a non-negative history, a longer line never lowers the estimate |
| WaitEstimator.MoreAgentsNeverLongerWait | SBC-RT/app.py:96 | With a non-negative history, more agents never raise the estimate |
| WaitEstimator.BuildTimes | SBC-RT/app.py:85-87 | The `times` dictionary the loop builds is the rows applied in order |
| WaitEstimator.TimesDomain | SBC-RT/app.py:85-87 | An office has a time exactly when some row names it |
| WaitEstimator.LastRowWins | SBC-RT/app.py:85-87 | When several rows name an office, its time is the last such row's |
| WaitEstimator.ResultFor | SBC-RT/app.py:91-99 | An entry carries the parsed id and the clamped line; its wait is the sentinel exactly when the office has no time, otherwise the rounded formula; a raw line at or below zero reports a wait of 0 |
| WaitEstimator.OverCountedLineReportsEmpty | SBC-RT/app.py:92-96 | An office with more departures than arrivals shows a line of 0 and, with history, a wait of 0 |
| WaitEstimator.EstimateWaits | SBC-RT/app.py:89-99 | It succeeds exactly when every id parses and then gives one entry per record in order; otherwise it fails on the first id `int()` rejects |
| Rounding.RoundHalfEven | SBC-RT/app.py:96 | `round` gives an integer within half of its argument, and the even one on a tie |
| Rounding.RoundUnique | SBC-RT/app.py:96 | Only one integer is the rounding of a real |
| Rounding.RoundMonotone | SBC-RT/app.py:96 | Rounding never reverses the order of two reals |
| Rounding.RoundWhole | SBC-RT/app.py:96 | A whole number rounds to itself |
| Text.Split | SBC-RT/app.py:67 | `split(',')` always gives at least one piece, and no piece holds a comma |
| Text.JoinSplit | SBC-RT/app.py:67 | Joining the pieces of a split with the separator gives back the original text |
| Text.SplitJoin | SBC-RT/app.py:67 | Splitting comma-joined comma-free pieces gives back those pieces |
| Text.ParseInt | SBC-RT/app.py:91 | `int()` accepts exactly an optional sign followed by one or more ASCII digits, and an unsigned numeral reads as a non-negative value |
| Text.IntToDecimal | SBC-RT/app.py:280-281 | `str(n)` reads back as `n` under `int()`; for `n >= 0` it is a canonical numeral (all digits, no leading zero unless it is "0"), and for `n < 0` it is '-' followed by the canonical numeral of `-n` |
| Text.ZFill | SBC-RT/app.py:280-281 | `zfill` pads to at least the width and leaves text already that long unchanged |
| Text.CanonicalIsDecimal | SBC-RT/app.py:280-285 | Every canonical numeral is the `str()` of its value, so `str(n)` is the only canonical numeral for `n` |
| Text.ZFillReadsBack | SBC-RT/app.py:280-281 | The zero-padded numeral of a non-negative number is all digits and still reads back as that number |
| Text.TruncDiv | SBC-RT/app.py:280 | `int(a / b)` is floor division for non-negative `a` and rounds toward zero for negative `a` |
| Text.Lower | SBC-RT/app.py:103 | `lower()` keeps the length and lower-cases each ASCII letter |
| Renderer.ClockText | SBC-RT/app.py:280-287 | The clock text has at least eight characters and ends in ":00" |
| Renderer.ClockReadsBack | SBC-RT/app.py:276-287 | For a non-negative wait the clock has three ':'-separated fields: the hours and the minutes past the hour, each all digits, and "00". The minutes field has exactly two digits; the hours field has two digits below 100 hours and otherwise no leading zero. The fields read back as `wait / 60` and `wait % 60` |
| Renderer.TwoDigitsAtMost | SBC-RT/app.py:281 | A minute value below 100 prints in at most two digits |
| Renderer.WaitValue | SBC-RT/app.py:276-279 | A numeric estimate is used as it is; the result is 0 exactly for the empty-string sentinel and for an estimate of 0 |
| Renderer.WaitText | SBC-RT/app.py:276-287 | The text is the clock of the wait value. The sentinel and an estimate of 0 show as "00:00:00"; a non-negative estimate shows all-digit hours (two digits below 100 hours), two-digit minutes and "00", which read back as its hours and its minutes past the hour |
| Renderer.ClockExample | SBC-RT/app.py:276-287 | 75 minutes show as "01:15:00" |
| Renderer.ZeroWaitClock | SBC-RT/app.py:276-281 | A wait of 0 shows as "00:00:00" |
| Renderer.Slug | SBC-RT/app.py:273-274 | The link suffix has the name's length, no space and no capital: each space becomes '-' and each letter is lower-cased |
| Renderer.LastMatchNamesOffice | SBC-RT/app.py:266-270 | The name shown is that of the last directory entry with the office's id |
| Renderer.NoMatchNoName | SBC-RT/app.py:266-270 | An office missing from the directory is shown with the empty name |
| Renderer.LookupName | SBC-RT/app.py:266-270 | The directory scan, which overwrites the name at every match, ends with the name of the last match or '' |
| Renderer.BlockContents | SBC-RT/app.py:264-304 | A block has a name and a link exactly in all-offices mode; the name is the directory name; the link is the location prefix followed by the slug of that name (lower-cased, spaces turned to '-'), so it starts with the prefix, has a space-free suffix and is as long as the prefix and the name together; the line text is `str()` of the line length, a canonical numeral that reads back as it; the wait is the clock text |
| Renderer.RenderBlock | SBC-RT/app.py:266-304 | One loop iteration produces the block of its office |
| Renderer.BuildWaitTimesGraph | SBC-RT/app.py:262-305 | The fragment has one block per result, in result order, wrapped in one container exactly in all-offices mode |
| Renderer.BlockShowsNameOnlyForAllOffices | SBC-RT/app.py:264-304 | With entries "Old Name" and "Port Alberni" for office 7, all-offices mode names "Port Alberni" and links to the prefix followed by "port-alberni"; otherwise no name or link appears |
| Renderer.PortAlberniSlug | SBC-RT/app.py:274 | "Port Alberni" becomes the link suffix "port-alberni" |
| Renderer.GenerateApiResponse | SBC-RT/app.py:111-132 | Status 200. With `vis`: `text/html` and the rendered fragment. Without it: `application/json` and the envelope `sbc-wt`, the environment, version `0.1`, the count of requested ids and the data |
| Handler.LambdaHandler | SBC-RT/app.py:57-106 | It fails exactly when some scope id is not an integer, and reports the first such id. Otherwise: status 200, HTML exactly when `vis` asks for it, and one entry per scope id in order, computed from that office's telemetry and the warehouse rows. The JSON envelope is `sbc-wt`, the environment, version `0.1` and a result count equal to the number of scope ids; the HTML is wrapped exactly in all-offices mode |
| Handler.EstimateScope | SBC-RT/app.py:78-99 | It succeeds exactly when every scope id parses, and fails on the first one `int()` rejects. On success there is one entry per scope id in order: the clamped line and the estimate from that office's telemetry and the last warehouse row naming it |
| Handler.UnknownIffNoHistory | SBC-RT/app.py:93-96 | An office's wait is the empty-string sentinel exactly when no warehouse row names it |
| Handler.LastRowTimeIsUsed | SBC-RT/app.py:85-96 | The estimate uses the last warehouse row for the office |
| Handler.ReportedLineIsClampedRawLine | SBC-RT/app.py:92 | The reported line is arrivals minus departures when that is non-negative, and 0 otherwise |
| Handler.OverCountedOfficeShowsNoWait | SBC-RT/app.py:89-99 | Five arrivals, two who left and four served, with history: a line of 0 and a wait of 0 |
| Handler.TwoAgentsTenWaiting | SBC-RT/app.py:89-99 | 14 arrivals, 1 left, 3 served, and events by agents 40, 41, 40 with 600 seconds per customer: a line of 10 and 50 minutes |
| Handler.TwoAgentsOverThreeEvents | SBC-RT/app.py:237-247 | Hits by agents 40, 41 and 40 count as two agents, and 14 arrivals less 1 who left and 3 served leave a raw line of 10 |

## Left out

- Secrets and configuration are not modelled: `get_secret_value`, the Redshift and Elasticsearch endpoints, and `API_ENV`. The environment name is a parameter.
- Loading `serviceBCOfficeList.json` is a parameter: the directory is a sequence of (id, name) entries. Directory ids are assumed to be JSON integers.
- `query_redshift` is a parameter, `rows`: the connection, the SQL and its error handling are not modelled. If the connection fails, the function reaches `return result` with `result` unbound. A NULL `time_per` would be `None` in Python. Neither is modelled.
- The Elasticsearch queries are not modelled: their construction, the date anchor and the America/Vancouver time zone, the one-hour window, and the back-office filters. What they return for an office is a parameter, `snapshot`. Failures of `count()` or `execute()` outside the `try` blocks propagate, and the handler has no zero-count fallback. The model follows the code here and takes the counts as given.
- The page size of the last-hour search is not modelled. `execute()` returns one page of hits (10 by Elasticsearch's default), so in the source the agent count is at most the page size and can undercount a busy office's agents, which inflates the estimate. The model takes whatever hits the search returned as `snapshot`'s events.
- An event without the agent context raises KeyError at app.py:240. The model's events always carry an agent id.
- The clock and `response_tstamp` are left out of the JSON payload. `json.dumps` serialisation is not modelled; the payload is a datatype.
- The HTML markup and styles are not modelled. A block keeps only the text the page shows: name, link, line length and clock.
- `time_per` is an exact real, not an IEEE double. `WaitEstimator.WaitMinutes`: float rounding in the product and quotient is not modelled, because the estimate is stated on exact reals.
- `Renderer.ClockText`: for waits so large that `wait / 60` is inexact in floating point, `int(wait/60)` could differ from truncated integer division. The model uses exact truncation.
- `Text.ParseInt`: Python's `int()` also accepts surrounding whitespace, underscores between digits and non-ASCII decimal digits. The model accepts only an optional sign followed by ASCII digits.
- `Text.Lower`: only ASCII letters are lower-cased. Python's full Unicode case mapping is not modelled.
- A request whose `queryStringParameters` key is present but null raises TypeError in the source. The event model makes the dictionary either absent or a map, so this case is not modelled.
- The `context` argument of the handler is unused by the source and is not modelled.
