# Health-reminder backend: sessions, progress and settings

This project models the core of a single-user health-reminder tracker.
The backend stores "sit/move" sessions, one per reminder cycle, and one
record of reminder preferences. It answers five kinds of request:

- create a session dated today;
- mark a session as completed by id, failing with NotFound for an unknown id;
- today's sessions and the daily progress summary (sessions, completed
  sessions, sitting minutes and activity minutes);
- the weekly progress summary, which groups the sessions of the 8 days from
  `today - 7` to `today` into one bucket per date;
- read the settings, creating the defaults 50/10/true/true/8 when none are
  stored, and apply a partial settings update.

The document store is the class `Server.HealthStore`. It holds the session
collection as a `seq<Session>` in insertion order and the singleton settings
record as an `Option<UserSettings>`. Its methods are the endpoints.

The pure parts live in their own modules:

- `Progress`: the store queries (`Find`, and `Take` for the `to_list`
  caps 100 and 1000), the daily summary, and the weekly grouping.
- `SettingsMerge`: the default record, the `$set` merge of an update, and a
  new record built from an update.

The weekly endpoint's dictionary-building loop is proved against
`Progress.Weekly`. That function defines the buckets as the first-seen
dates of the window's sessions, each summarizing the sessions of its date.
The lemmas beside it prove what the endpoint promises: bounds, distinct
dates, sparseness, first-seen order, preserved totals and agreement with the
daily summary.

Modelling conventions:

- A calendar date is an integer day number. The store compares ISO
  `YYYY-MM-DD` strings with `$gte`/`$lte`, and that agrees with comparing
  the day numbers.
- Instants are integers and identifiers are strings.
- The current date, the current instant and fresh identifiers are
  parameters of the methods that need them.
- The store's natural order is taken to be insertion order.

## Model

| member | source | states |
|---|---|---|
| Progress.Matches | backend/server.py:89-121 | the two query filters: a session matches `On(d)` iff it is dated `d`, and `Between(lo, hi)` iff `lo <= date <= hi` (the `$gte`/`$lte` range, both ends included) |
| Progress.Find | backend/server.py:89 | a store query returns exactly the stored sessions matching the date filter (equality for today, the inclusive range for the week), no more than are stored |
| Progress.MatchPositions | backend/server.py:89 | the positions of the stored sessions that match, strictly increasing, every matching position included |
| Progress.MatchPositionsSnoc | backend/server.py:82 | one more inserted session appends its position when it matches |
| Progress.StoreOrderSnoc | backend/server.py:82 | appending a session keeps each answer at its matching position |
| Progress.FindInStoreOrder | backend/server.py:89 | `find` returns each matching session exactly once, in store order: its k-th answer is the session at the k-th matching position |
| Progress.MatchSetSnoc | backend/server.py:82 | one more inserted session adds its position to the matching positions when it matches, and that position is new |
| Progress.FindCountsMatches | backend/server.py:89 | `find` returns as many sessions as there are stored sessions matching the filter |
| Progress.Take | backend/server.py:122 | `to_list(n)` keeps a prefix of the query's answer of length min(n, answer length), drawn from the answer |
| Progress.FindSnoc | backend/server.py:82 | a query over a store with one more inserted session answers as before, plus that session when it matches |
| Progress.Total | backend/server.py:98-101 | a counter summed over a list of sessions: 1 per session, 1 per completed session, or the sitting or activity minutes (its properties are in the lemmas below) |
| Progress.Summarize | backend/server.py:129-141 | a day's bucket: the date and the four counters summed over the day's sessions |
| Progress.TotalSnoc | backend/server.py:98-101 | each counter summed over the sessions grows by that session's weight when one session is appended |
| Progress.SummarizeSnoc | backend/server.py:137-141 | appending a session to a day's sessions adds its weight to every counter of the day's summary |
| Progress.FindAllOnDay | backend/server.py:96 | when every stored session is dated `d`, the query for `d` returns all of them in store order |
| Progress.SessionCountIsLength | backend/server.py:98 | the session counter of a list is its length |
| Progress.CompletedCountIsIndexCount | backend/server.py:99 | the completed counter is the number of positions holding a completed session |
| Progress.CompletedWithinTotal | backend/server.py:98-99 | 0 <= completed sessions <= total sessions == length |
| Progress.TodaySessions | backend/server.py:85-90 | today's sessions: every one stored and dated today, a prefix of the full answer of length min(100, answer length), equal to the answer below the cap, empty exactly when no stored session is dated today |
| Progress.Daily | backend/server.py:92-110 | the daily summary: dated today, total = number of returned sessions (at most 100), completed = number of completed returned sessions and within total, the two minute sums over the returned sessions, everything zero and the list empty when nothing is dated today |
| Progress.DailyCountsStoredToday | backend/server.py:96-98 | the daily session count is the number of stored sessions dated today, capped at 100 |
| Progress.DailyAfterCreate | backend/server.py:71-83 | creating a session today (below the cap) appends it to the daily list and adds 1, its completed flag and its two durations to the four counters |
| Progress.DailyIgnoresOtherDays | backend/server.py:96 | creating a session dated another day leaves the daily summary unchanged |
| Progress.WeekSessions | backend/server.py:117-122 | the weekly query returns stored sessions all dated in [today - 7, today]: a prefix of the full answer of length min(1000, answer length), equal to the answer below the cap |
| Progress.HasDateSnoc | backend/server.py:126-128 | a date occurs in a list with one more session iff it occurred before or is that session's date |
| Progress.FirstSeen | backend/server.py:125-135 | the dictionary's key order: pairwise distinct dates, containing exactly the dates that occur in the sessions |
| Progress.FirstIndex | backend/server.py:126-128 | the first position at which a date occurs |
| Progress.Bump | backend/server.py:137-141 | a bucket with one session counted in: one more session, one more completed when it is completed, and its sitting and activity minutes added |
| Progress.Bumped | backend/server.py:128-141 | the bucket for the session's date after one iteration: the stored bucket, or a zeroed one for a new date, with the session counted in |
| Progress.BumpSnoc | backend/server.py:137-141 | counting a session into a day's bucket equals summarizing that day with the session appended |
| Progress.GroupedStep | backend/server.py:126-141 | one loop iteration keeps the dictionary in step: keys are the first-seen dates, a key is in the dictionary iff it was seen, and each bucket summarizes its date's sessions so far |
| Progress.BucketStepSameDay | backend/server.py:128-141 | after an iteration, the bucket of the session's date (new and zeroed, or existing) summarizes that date's sessions including this one |
| Progress.BucketStepOtherDay | backend/server.py:137-141 | an iteration leaves the bucket of every other date as it was, and it still summarizes its date |
| Progress.UnseenDateHasNoSessions | backend/server.py:128 | a date that was never seen has no sessions so far |
| Progress.GroupDict | backend/server.py:125-141 | the dictionary after a list of sessions, built one session at a time: a new date is inserted last, and the session's bucket is bumped |
| Progress.GroupDictIsGrouped | backend/server.py:125-141 | building the dictionary session by session yields buckets keyed by the first-seen dates, each summarizing its date's sessions |
| Progress.GroupedBuckets | backend/server.py:146 | the dictionary's values in key order are the buckets `BucketsFor` defines over the first-seen dates |
| Progress.Weekly | backend/server.py:143-147 | the weekly answer spans `today - 7` to `today` |
| Progress.WeeklyBucketsWellFormed | backend/server.py:117-146 | every bucket is dated in [today - 7, today], has at least one session, and has 0 <= completed <= total; bucket dates are pairwise distinct |
| Progress.WeeklyIsSparse | backend/server.py:125-146 | a bucket for date `d` exists iff some grouped session is dated `d` |
| Progress.FirstSeenOrder | backend/server.py:126-135 | of two keys, the earlier one's date first occurs earlier in the sessions |
| Progress.BucketsInFirstSeenOrder | backend/server.py:146 | every bucket's date occurs among the sessions, and of two buckets the earlier one's date first occurs earlier |
| Progress.WeeklyFirstSeenOrder | backend/server.py:125-146 | every weekly bucket's date occurs among the grouped sessions, and the buckets are in order of first occurrence (not calendar order) |
| Progress.BucketsOfNothing | backend/server.py:125 | buckets over no sessions sum to zero |
| Progress.LastIsNew | backend/server.py:128 | in a list of distinct dates the last does not occur earlier |
| Progress.SumFieldSnoc | backend/server.py:146 | a counter summed over buckets grows by the appended bucket's counter |
| Progress.BucketsForSnoc | backend/server.py:129-135 | one more key appends one bucket |
| Progress.BucketsSnoc | backend/server.py:137-141 | one more session adds its weight to the buckets' sum when its date has a bucket, and nothing otherwise |
| Progress.BucketsPartition | backend/server.py:125-141 | buckets over distinct dates that cover every session partition the sessions: each counter's bucket sum equals its total |
| Progress.WeeklyPreservesTotals | backend/server.py:120-146 | for each counter, the sum over the weekly buckets equals the total over the grouped sessions; the bucket session counts sum to the number of grouped sessions |
| Progress.FindDayWithinWindow | backend/server.py:96-122 | narrowing the window's answer to one day inside the window gives that day's answer |
| Progress.BucketOfDay | backend/server.py:126-141 | the bucket for `d`, if any, summarizes exactly the sessions dated `d`, and it exists iff there are such sessions |
| Progress.WeekDayIsDaily | backend/server.py:96-122 | below both caps, the window's sessions dated today are the daily list |
| Progress.DayBucketIs | backend/server.py:98-141 | a daily summary over exactly the sessions dated `d` carries the same four numbers as the bucket for `d`, which exists iff the summary counts a session |
| Progress.WeeklyAgreesWithDaily | backend/server.py:92-147 | below both caps, today's weekly bucket exists iff the daily summary counts a session, and then has the daily summary's four numbers |
| Progress.DistinctWithinSet | backend/server.py:125 | distinct keys drawn from a set are no more numerous than the set |
| Progress.Days | backend/server.py:118-121 | the days from lo to hi, hi - lo + 1 of them |
| Progress.WeeklyAtMostEightBuckets | backend/server.py:118-146 | at most 8 buckets, and never more buckets than grouped sessions |
| Progress.BucketsAtLeastOneEach | backend/server.py:137 | buckets with at least one session each have a session-count sum of at least their number |
| SettingsMerge.DefaultSettings | backend/server.py:49-57 | the all-defaults record: the given id, the default user, 50 and 10 minutes, both alerts on, a goal of 8 sessions, and the current instant |
| SettingsMerge.SettingsFromUpdate | backend/server.py:190-196 | a record built from an update: each field the update gives takes the given value, every other field its default (50, 10, true, true, 8), the default user and the current instant |
| SettingsMerge.ApplyUpdate | backend/server.py:182-188 | the `$set` merge: each field given in the update (including `false` and `0`) takes the given value, each absent field keeps its value, id and user are kept, timestamp becomes now |
| SettingsMerge.CreateIsMergeIntoDefaults | backend/server.py:190-196 | a record created from an update equals the update merged into the all-defaults record |
| SettingsMerge.EmptyUpdateOnlyRefreshesTimestamp | backend/server.py:182-183 | an update naming no field changes only the timestamp |
| SettingsMerge.UpdateIsIdempotent | backend/server.py:182-188 | applying the same update twice equals applying it once at the later time |
| SettingsMerge.UpdatesCompose | backend/server.py:182-188 | two updates in a row equal one update taking the later's fields where given (last writer wins per field) |
| Server.FindById | backend/server.py:153-161 | `find_one({"id": id})`: the first position holding the id, and None iff no session has it |
| Server.HealthStore.Valid | backend/server.py:29-51 | the store's invariant: session ids are pairwise distinct and the settings record belongs to the default user |
| Server.HealthStore.constructor | backend/server.py:17-19 | a fresh database: no sessions and no settings record |
| Server.HealthStore.CreateSession | backend/server.py:71-83 | the new session has the given id, the default user, today's date, the requested durations and completed flag, and the current instant; the store gains exactly it at the end, everything else unchanged; ids stay unique |
| Server.HealthStore.GetTodaySessions | backend/server.py:85-90 | returns `TodaySessions` of the store, whose properties are proved there |
| Server.HealthStore.GetDailyProgress | backend/server.py:92-110 | returns `Daily` of the store, whose properties are proved there |
| Server.HealthStore.GetWeeklyProgress | backend/server.py:112-147 | the dictionary-building loop returns exactly `Weekly` of the store |
| Server.HealthStore.CompleteSession | backend/server.py:149-162 | an unknown id fails with NotFound and leaves the store unchanged; a known id gets completed = true and timestamp = now, every other field and session unchanged, and the updated session is returned |
| Server.HealthStore.GetUserSettings | backend/server.py:164-177 | the stored record is returned unchanged; with none stored, a 50/10/true/true/8 record for the default user is stored and returned; sessions untouched |
| Server.HealthStore.UpdateUserSettings | backend/server.py:179-200 | a stored record becomes the update merged into it; with none stored, a record built from the defaults and the update's fields is stored; either way exactly one default-user record exists afterwards and sessions are untouched |
| Server.FourSessionScenario | comprehensive_backend_test.py:16-74 | four sessions (50/10, 45/15, 60/10, 55/12) with the first two completed give a daily summary of 4 sessions, 2 completed, 210 sitting and 47 activity minutes |
| Server.FourSessionStore | comprehensive_backend_test.py:22-53 | the store after four creations and two completions holds those four sessions, all dated today, the first two completed |
| Server.FourSessionDaily | backend/server.py:98-101 | the daily numbers of four such sessions |
| Server.TotalOfFour | backend/server.py:100-101 | a counter over four sessions is the sum of their four weights |

## Left out

- HTTP routing, status mapping beyond the NotFound result, CORS and logging are framework plumbing.
- The database client, environment loading and the shutdown hook are left out. The store is the in-memory `HealthStore`.
- `async`/`await` is left out, along with the lost-update race between concurrent settings updates. The model is sequential.
- `uuid4()`, `utcnow()` and `date.today()` are parameters. Fresh session ids are a precondition of `CreateSession`.
- ISO string and datetime serialisation and pydantic validation are left out. A session's stored timestamp is a datetime after creation and an ISO string after completion; a settings record's stored timestamp is an ISO string from its creation on. All of them are modelled as one integer instant.
- The legacy `/status` endpoints and the root endpoint are left out. They return a fixed message (the `/status` ones with the current time) and hold no core logic.
- Server.HealthStore.CompleteSession: a found id always succeeds. The source answers 404 when its `$set` changes nothing, that is when the session is already completed and its stored timestamp already equals the new instant's ISO string. The model agrees with the source only while each completion instant differs from the stored timestamp.
- Missing-field defaults (`s.get('completed', False)` and the like) are left out because every stored session has all its fields.
- Durations and settings values are unbounded integers. pydantic accepts any integer and nothing enforces the non-negative minutes the field comments describe, so the model does not assume non-negativity either.
- Server.HealthStore.CreateSession: always succeeds. The store's encoder rejects an integer beyond the signed 64-bit range on insert, so the source fails on such a duration; the model's unbounded `int` does not capture that failure.
- Server.HealthStore.UpdateUserSettings: always succeeds. The store rejects a settings value beyond the signed 64-bit range on update or insert; the model does not capture that failure.
- Natural store order is taken to be insertion order. The database does not promise this, and the weekly bucket order depends on it.
- `create_session` takes the `completed` flag from the request (default `false`), so the model does too. It does not always create an incomplete session.
- The daily endpoint returns a plain dictionary that includes `completed_sessions`, a field its declared `DailyProgress` class lacks. The model follows the dictionary.
- `backend_test.py` and `comprehensive_backend_test.py` are HTTP client scripts. Only the four-session scenario is restated, as `Server.FourSessionScenario`.
