# Load generator of the High School Management System API, modelled in Dafny

The modelled component is `src/load_test.py`. It is the load generator that exercises the
school activities API. It covers the following steps.

- **One simulated user session.** A user fetches the activity catalog (`GET /activities`),
  then signs up for one activity (`POST /activities/{name}/signup?email=...`).
  - The first successful catalog fetch that finds the process-wide activity list empty fills it.
  - Each user picks an activity round-robin by user id, or the fixed fallback "Chess Club" when
    the list is empty.
  - Each user gets the identity `loadtest{user}_{run}@mergington.edu`.
  - Only spaces in the activity name are encoded, as `%20`.
  - A signup counts as a business success exactly for status 200, or for status 400 whose body
    contains "already signed up".
- **One load-test run.** It pre-fetches the catalog, then staggers `N` sessions linearly over
  the ramp-up window, flattens their result pairs and computes the statistics:
  - the overall success rate (2xx or business success), and requests per second;
  - the records grouped by endpoint in order of first appearance;
  - per endpoint: request count, HTTP and business success rates, an error count taken against
    the business count for endpoints whose name contains "signup", min/avg/max latency, and a
    p95 latency reported only from 20 samples on.
- **The maximum-throughput search.** It runs 10 users with a 2-second ramp-up and stops if that
  misses the 99.99% SLA. Otherwise it tests 200 users.
  - If 200 passes, it escalates in steps of 50. The safety limit ends this once a level above
    1000 would be next.
  - If 200 fails, it bisects down to a bracket of 5.
  - After the escalation or the bisection it makes one more run at the reported level; its
    result is only printed, and the level is returned whatever it shows.
    The two early returns skip it: a failure at 10 users (line 292) and the safety limit
    (line 322).

Modules:
- `Text`: substring search, decimal formatting, space encoding and the body preview.
- `Outcome`: records, endpoint names, identities and the signup business rule.
- `Session`: the activity cache as a class, and one session.
- `Stats`: success rate, grouping and per-endpoint figures.
- `Driver`: one run.
- `Search`: the throughput search.
- `Wrappers`: `Option`.

Everything the source gets from outside is a parameter:
- server replies are values (`CatalogReply`, `SignupReply`) or functions of the request;
- measured durations are reals;
- `TEST_RUN_ID` is a natural number;
- in the search, one whole run is an oracle `run(users, ramp_up)` that returns the run's success
  count, request count and requests per second.

Points of the code the model keeps as written:
- The signup business rule is status `== 200`, not any 2xx. So a 201 reply counts in the overall
  rate, through the 2xx rule, but not in the signup endpoint's business count
  (`Outcome.SignupCountsAsSuccess`).
- The search has one strategy (the escalation or the bisection above) and no fall-back for the
  case where no level passes. Its quirks are stated as contracts:
  - When 200 passes and 250 fails, the search reports the lower bound 10 with 0 requests per
    second.
  - When the safety limit ends the escalation, it reports 1050, a level that was never run,
    with the requests per second of the run at 1000.
  - When no bisection midpoint passes, it reports 10 with 0 requests per second.

`int(len * 0.95)` is modelled as `(95 * len) / 100`. These agree for every length below 2^50.
The double nearest to 0.95 is about 4.44e-17 below it. So the float product is
`95 * len / 100 - len * 4.44e-17` rounded to the nearest double. The exact value
`95 * len / 100` is a multiple of 0.05; take `95 * len / 100 < 2^50`.
- If it is an integer, the downward bias is smaller than half the spacing below that integer,
  so the rounding returns the integer.
- Otherwise the product lies at least `0.05 + len * 4.44e-17` below the next integer. Where
  the value is below 2^49, half the spacing of doubles is at most 1/32, less than 0.05. Between
  2^49 and 2^50, half the spacing is 1/16, but `len` is above 5.9e14, so the bias adds at least
  0.026 and the gap is at least 0.076. Where the bias pushes the product just under the integer
  below, by less than 0.003, the rounding returns that integer.

Above that the two can differ (see "Left out").

## Model

| member | source | states |
|---|---|---|
| Text.ContainsIffOccurs | src/load_test.py:99 | Python's `sub in s` (the scanning predicate) holds exactly when some window of `s` equals `sub`, both directions |
| Text.DecimalRoundTrip | src/load_test.py:85 | reading back the decimal text of a number gives the number |
| Text.EncodeSpaces | src/load_test.py:89 | the encoded name has no space, grows by two characters per space, and is unchanged when it had no space |
| Text.EncodeSpacesRoundTrip | src/load_test.py:89 | for names without a literal `%`, percent-decoding the encoded name gives back the exact name |
| Text.PreviewBody | src/load_test.py:107 | bodies of at most 100 characters are kept whole; longer ones become their first 100 characters followed by `...` |
| Outcome.ClassifySignup | src/load_test.py:97-99 | a signup is a business success exactly when the status is 200, or it is 400 and the body contains "already signed up" |
| Outcome.ClassifySignupExamples | src/load_test.py:97-99 | an "already signed up" 400 and a 200 count; another 400, a 201 and a 500 mentioning the phrase do not |
| Outcome.SelectActivity | src/load_test.py:76-81 | the fallback "Chess Club" when the list is empty, otherwise a member of the list |
| Outcome.SelectActivityRoundRobin | src/load_test.py:78 | over a list of distinct names, the choice has period equal to the list length, and users less than one length apart get different activities |
| Outcome.Email | src/load_test.py:85 | the identity `loadtest{user}_{run}@mergington.edu`; its properties are stated by `EmailRoundTrip` and `EmailUnique` |
| Outcome.EmailRoundTrip | src/load_test.py:83-85 | the user id and the run id can be read back from the generated identity |
| Outcome.EmailUnique | src/load_test.py:83-85 | distinct (user, run) pairs never share an identity |
| Outcome.SignupPath | src/load_test.py:88-92 | the posted path starts with `/activities/` and ends with `/signup`; the part between is exactly the space-encoded name and holds no space |
| Outcome.SignupPathDecodes | src/load_test.py:88-92 | for names without a literal `%`, percent-decoding the name part of the path gives back the name |
| Outcome.SignupEndpointMentionsSignup | src/load_test.py:220-221 | every signup record's endpoint contains "signup", `/activities` does not, and the two never coincide |
| Outcome.FetchRecord | src/load_test.py:33-70 | catalog record: an exception gives status 0 and its text as error; a non-200 reply gives its status and "Failed with status N"; a 200 gives no error; never a business success |
| Outcome.SignupRecord | src/load_test.py:101-117 | signup record under the unencoded name: an exception gives status 0, an error and no business success; a reply gives its status, no error, the body preview, and the business flag of `ClassifySignup` |
| Outcome.SignupCountsAsSuccess | src/load_test.py:184-187 | under the overall rule a signup counts exactly when it got a 2xx reply or an "already signed up" 400 |
| Outcome.FetchCountsAsSuccess | src/load_test.py:184-187 | a catalog fetch counts exactly when it got a 2xx reply |
| Session.ActivityCache.FetchActivities | src/load_test.py:33-54 | returns `FetchRecord`; the cached list becomes `Refresh` of the reply: the reply's names exactly when it was empty and the reply was a 200, otherwise the list is unchanged |
| Session.ActivityCache.SignupForActivity | src/load_test.py:72-108 | the service is called with the encoded path of the round-robin (or fallback) activity and the user's identity, and the record is `SignupRecord` of that reply |
| Session.ActivityCache.SimulateUserSession | src/load_test.py:119-128 | the cached list becomes the catalog reply's names exactly when it was empty and the reply was a 200, otherwise it is unchanged; the records are exactly `FetchRecord` of the catalog reply, then `SignupRecord` of the service's answer for the activity picked from the list as the fetch left it |
| Stats.CountIf | src/load_test.py:184-187 | a count of records, at most their number; all counted iff every record qualifies; none iff no record qualifies |
| Stats.CalculateSuccessRate | src/load_test.py:179-188 | the rate is in [0,1], is 0 for no records, times the record count equals the success count, is 1 iff every record counts, and is 0 iff none does |
| Stats.CombinedSuccessCount | src/load_test.py:219-221 | the success count an endpoint's error count is taken against (business count for "signup" endpoints, else the 2xx count) never exceeds its group size |
| Stats.CombinedAtMostOverall | src/load_test.py:215-223 | an endpoint's chosen success count never exceeds what the overall rule counts in that group |
| Stats.Filter | src/load_test.py:193-198 | a group is no longer than the input and holds only records of its endpoint |
| Stats.FilterMultiset | src/load_test.py:193-198 | a group holds every input record of its endpoint exactly as often as the input does, and nothing else |
| Stats.Endpoints | src/load_test.py:193-198 | the endpoint keys are listed without repetition |
| Stats.EndpointsListed | src/load_test.py:196-197 | an endpoint is a key exactly when some record names it |
| Stats.GroupsPartition | src/load_test.py:193-198 | the group sizes add up to the number of records |
| Stats.GroupByEndpoint | src/load_test.py:193-198 | the dict's keys are exactly the endpoints in first-appearance order, and each key maps to its group in input order |
| Stats.MinOf | src/load_test.py:230 | `min` is a sample and bounds all samples from below; 0 for no samples |
| Stats.MaxOf | src/load_test.py:231 | `max` is a sample and bounds all samples from above; 0 for no samples |
| Stats.Mean | src/load_test.py:232 | the mean of a non-empty sample lies between its minimum and maximum |
| Stats.MeanWithin | src/load_test.py:232 | the sum divided by the count lies between the minimum and the maximum |
| Stats.Sort | src/load_test.py:233 | `sorted` gives an ascending permutation of the samples |
| Stats.P95Index | src/load_test.py:233 | the index is floor(0.95 n) and lies inside the list |
| Stats.P95 | src/load_test.py:233 | a p95 is reported exactly from 20 samples on; it is element `P95Index(n)` of the sorted samples, so one of the samples, between min and max |
| Stats.P95OrderStatistic | src/load_test.py:233 | with `k = floor(0.95 n)`, at most `k` samples lie strictly below the reported p95 and at least `k + 1` lie at or below it |
| Stats.P95Gating | src/load_test.py:233 | 10 samples give "N/A"; 25 samples give the 24th smallest; 150 give the 143rd smallest |
| Stats.Ratio | src/load_test.py:227-228 | `c / n if n else 0` is in [0,1] and times `n` gives back `c` |
| Stats.Summarize | src/load_test.py:211-234 | requests is the group size; errors plus the chosen success count equal requests; both rates are the exact fractions; every latency lies between min and max, which are samples; the average is `Mean` of the latencies, between min and max; the p95 is `P95` of the group's latencies; zeros for an empty group |
| Stats.SummarizeGroups | src/load_test.py:211-234 | the summary map has exactly the listed endpoints as keys, each mapped to the summary of its group |
| Stats.SummariesOfGroups | src/load_test.py:211-234 | such a map has a key exactly for each endpoint with records, every entry summarises a non-empty group, and the request figures add up to the number of records |
| Stats.ProcessResults | src/load_test.py:190-234 | duration, total, users, requests per second and the overall rate as in the source; the endpoint keys are exactly the endpoints seen, each entry summarises its group, no entry is empty, and the per-endpoint requests add up to the total |
| Driver.StartDelay | src/load_test.py:151-154 | the delay `user / (N - 1) * ramp_up` with a window and more than one user, else 0; its properties are stated by the four lemmas below |
| Driver.StartDelayEnds | src/load_test.py:151-152 | with a window and several users, the first user starts at 0 and the last at the end of the window |
| Driver.StartDelayBounds | src/load_test.py:150-154 | every start delay lies within the window; without a window or with one user, every delay is 0 |
| Driver.StartDelayMonotone | src/load_test.py:151-152 | start delays never decrease with the user id |
| Driver.StartDelayExample | src/load_test.py:151-152 | five users over four seconds start at 0, 2 and 4 seconds (users 0, 2, 4) |
| Driver.PlanTasks | src/load_test.py:148-161 | one task per user id in order, each with its start delay |
| Driver.CollectResults | src/load_test.py:164-166 | the sessions' record lists are concatenated in session order |
| Driver.FlattenPairs | src/load_test.py:164-166 | two-record sessions give twice as many records, session `i` at positions `2i` and `2i+1` |
| Driver.CacheAfterKeeps | src/load_test.py:44-46 | an activity list that is already filled stays the same through any number of sessions |
| Driver.RunSessions | src/load_test.py:163-166 | the sessions run in task order; session `k` is exactly the record pair of task `k`'s user over the list as the first `k + 1` fetches left it (`Sessions`); the cached list ends as every catalog reply in turn refreshed it (`CacheAfter`) |
| Driver.RunLoadTest | src/load_test.py:130-171 | the pre-fetch reply refreshes the list first; the tasks are staggered as planned; the flattened records are exactly the sessions' pairs in order, and the cached list is as those sessions left it; a filled list is kept; total requests are twice the users; rps is `2N / total_time`; the success rate is `CalculateSuccessRate` of the records; the endpoint keys are exactly the endpoints with records, each mapped to `Summarize` of its group; with users, `/activities` has exactly `N` requests |
| Search.Passes | src/load_test.py:289 | the SLA test `rate >= 1 - 0.0001` as written (also at lines 298, 308 and 332); its integer form is `PassesExactly` |
| Search.PassesExactly | src/load_test.py:287-290 | a run meets the SLA exactly when it made requests and at most one in ten thousand failed (`10000 * successes >= 9999 * requests`) |
| Search.TrialOfRecords | src/load_test.py:179-188 | the success rate the search tests is the run's `calculate_success_rate` |
| Search.Escalate | src/load_test.py:298-322 | the safety limit ends the loop exactly when every multiple of 50 from 200 to 1000 passes, reporting 1050 with the rps at 1000; otherwise the level reported was seen to pass, and it is either 10 (250 failed) or a passing multiple of 50 whose next step failed, with every step from 200 up to it passing, so the next step is the first failure |
| Search.Bisect | src/load_test.py:323-339 | the reported level is in [10, 200), was seen to pass, and a level at most 5 above it was seen to fail; the reported rps is 0 if no midpoint passed, else that of the last passing midpoint |
| Search.FindMaximumThroughput | src/load_test.py:272-350 | every run is logged with what the service reported; the first run is 10 users with a 2 s ramp-up, and a failure there returns at once with that run's rps; the safety report 1050 happens iff every step from 200 to 1000 passes; otherwise the reported level was seen to pass, and the last run is one more 5 s run at the reported level, whose result is not used; the bisection bracket (a failure at most 5 above) and the escalation bracket (the next step of 50 is the first failing step, every step from 200 up to the report passed); after a passing lower bound the second run is 200 users with a 5 s ramp-up |
| Search.SearchFitsThreshold | src/load_test.py:272-350 | against a service that passes exactly the levels up to `t`, the search reports 10 for `t < 10`, a level within 5 below `t` for `10 <= t < 200`, 10 for `200 <= t < 250`, a level at most `t` and less than 50 below it for `250 <= t < 1000`, and 1050 from `t >= 1000` |

## Left out

- HTTP, aiohttp sessions and JSON decoding: server replies are parameters. A reply body that is
  not a JSON object is not modelled; the catalog reply already carries the key list.
- Concurrency: `asyncio.gather` over staggered tasks is modelled as running the sessions one
  after another in user order. This is one of the interleavings the source allows. Which user
  fills the shared activity list first can differ under other interleavings.
- `asyncio.sleep`: the ramp-up delays are computed and kept in the tasks, but no time passes.
- Clocks: `time.time()`, the measured response times, `total_time` and `TEST_RUN_ID` are
  parameters.
- All printing, the JSON results file and its timestamped name, and the argument parsing
  (`main`, lines 352-366).
- Floating point: rates, delays and latencies are exact reals. `int(n * 0.95)` is taken as the
  exact floor, which is argued above.
- Stats.P95Index: agrees with the float index only for lengths below 2^50. From about
  1.185 * 10^15 samples on, the float product can round up to the next integer, so the source's
  index can be one higher than the model's.
- `SLA_PARAMETERS["response_time_threshold"]` is never read by the code and is not modelled.
- Python dict order is modelled only through `Stats.Endpoints`, the first-appearance order;
  `ProcessResults` returns a map.
- Search.FindMaximumThroughput: the service is a function, so it gives the same result for the
  same (users, ramp_up). The model therefore cannot show a confirmatory run failing at a level
  that passed earlier. It only states that the final run happens at the reported level.
- Negative user counts are not modelled: user counts are natural numbers, although `main`
  passes `--users` through unchecked (lines 355 and 363). A negative count would give no
  sessions and echo the negative number as `concurrent_users`.
- Search.FindMaximumThroughput: the runs of the search are one oracle `run(users, ramp_up)`.
  This leaves out that each real run shares the process-wide activity list and uses fresh
  clocks.
- Stats.ProcessResults: requires a non-zero `total_time`, because the source divides by it.
- Stats.Mean: states only that the mean lies between min and max, not its rounding as a float.
- `src/performance_tests.py` and `src/test_app.py` are not part of this model.
