# Donor registration bot: a verified model of the booking core

The bot books blood donors into half-hour slots. Bookings are limited per
weekday and blood group. This project models the logic behind the bot's
chat handlers, all of it in `main.py`:

- **The local ledger (`LocalStorage`).** It holds a nested map
  `user_id -> (date -> Booking)`, a quota table
  `weekday -> (blood group -> places)` and the fourteen working-hour slots.
  Its operations are `get_available_dates`, `get_free_times`,
  `check_existing`, `register`, `cancel_booking`, `get_user_bookings`,
  `get_quotas` and `get_stats`, plus `reset_data` and the test data it
  loads.
- **The storage router (`StorageAdapter`).** In `LOCAL` mode it sends each
  operation to the ledger and in `GOOGLE` mode to a remote script. In
  `HYBRID` mode it tries the script first and falls back to the ledger when
  the script fails.
- **The remote client's read cache (`GoogleScriptClient.call_api`).** It has
  a time-to-live and a `force_refresh` bypass, and it stores only successes.
- **`RateLimiter`** (per-user sliding windows of request times) and
  **`SessionTimeout`** (per-user last activity).
- **The `callback_data` strings the chat buttons carry.** These are the
  prefix tests, the `cancel_ask_{date}_{ticket}` and
  `cancel_yes_{date}_{ticket}` encodings, their `split("_")` decoding, and
  the slices that recover the chosen group, date and time.

## How the model is organised

| module | what it holds |
|---|---|
| `Wrappers` | `Option` |
| `Text` | digit strings, `split`/`join`, zero padding |
| `Sets` | sums over map keys and sequences |
| `Calendar` | the proleptic Gregorian calendar of Python's `datetime`: `strptime("%Y-%m-%d")`, `strftime`, `weekday()` and the Russian weekday names |
| `Api` | `Booking`, the JSON of the remote script, the typed failures with the texts the program shows, the `ApiResponse` envelope |
| `LedgerSpec` | the ledger state as values, the `check_existing`, `get_free_times`, `register` and `cancel_booking` specifications, and the ledger invariant with its preservation lemmas |
| `LedgerViews` | specifications and lemmas for `get_available_dates`, `get_user_bookings`, `get_quotas` and `get_stats` |
| `Ledger` | the class `LocalStorage`, its methods and its loops, each proved to compute the matching specification |
| `Remote` | the class `GoogleScriptClient` and its cache |
| `Router` | the class `StorageAdapter`, the method-to-action map as written and as intended |
| `Limits` | the classes `RateLimiter` and `SessionTimeout` |
| `Locking` | the lock steps of `check_existing`, `register` and `cancel_booking` |
| `Callback` | the button data codec |

**How time, randomness and the remote side enter the model:**

- Dates are day ordinals (0001-01-01 is day 1, a Monday). Booking keys stay
  the `%Y-%m-%d` strings the program stores. `ParseDate` models `strptime`
  and returns `None` where Python raises `ValueError`.
- The current date (`today`), the clock in seconds (`now`) and the number
  `random.randint(1000, 9999)` drew (`draw`) are all parameters.
- The remote script's reply is a parameter too (`HttpReply`).

**The ledger invariant `LedgerSpec.Inv`.** Every stored entry records its
own user, date and weekday, and its date parses. The other parts are keyed on
the stored date text, as the program's dictionaries are:

- at most one booking holds each (date text, time, group) slot;
- for each (date text, group), the number of bookings never exceeds that
  weekday's quota for the group;
- at most one booking per (user, date text) holds by the shape of the map.

`strptime` also reads other spellings of a day (`2030-1-2` for
`2030-01-02`), and the program keeps those apart as different dates. When
every key is the text `strftime("%Y-%m-%d")` writes, as every date the bot
offers is, the invariant holds per calendar day. `LedgerSpec.PerDayUnique`
and `LedgerSpec.PerDayQuota` prove this reading. The test bookings have such
keys, and `register` keeps them so when given such a date.

The two places where the code is evidently wrong are listed under
"## Findings". The model uses the corrected behaviour in both, and each
finding also has a member that models the code as written.

## Model

| member | source | states |
|---|---|---|
| Calendar.ParseFormatDate | main.py:316 | `strptime("%Y-%m-%d")` reads back every date `strftime` wrote, so the test data's keys and the offered dates parse to their own day |
| Calendar.FormatDateInjective | main.py:371 | different days have different `%Y-%m-%d` texts |
| Calendar.FromOrdinal | main.py:362 | the calendar date of a day ordinal is a valid date whose ordinal is that day (`today + timedelta(days=i)`) |
| Calendar.ParseDate | main.py:388 | a date that parses is a representable ordinal, and its text holds no `_` |
| Calendar.ShortSpellingSameDay | main.py:439 | `strptime` also reads a month and a day below ten written with one digit; that text names the same day as the `strftime` text and is not that text |
| Calendar.Weekday | main.py:348-351 | `weekday()` is always 0..6, so `days[weekday()]` always names a weekday |
| LedgerSpec.DefaultQuotasShape | main.py:285-304 | the default table covers the seven weekdays; each weekday has exactly the eight groups, each with a positive quota; weekdays get the base table; Saturday and Sunday get the weekend table, which is never larger |
| Ledger.LocalStorage.GetDefaultQuotas | main.py:285-304 | the loop over the weekday names builds exactly the default table |
| Ledger.LocalStorage.constructor | main.py:268-270 | a new ledger holds exactly the three test bookings, the default quotas and the fourteen working hours, and satisfies the invariant |
| Ledger.LocalStorage.ResetData | main.py:273-283 | `reset_data` leaves exactly the test bookings, the default quotas and the working hours, and satisfies the invariant |
| Ledger.LocalStorage.AddTestData | main.py:306-320 | the loop stores the three test bookings one, two and five days ahead, each with the weekday of its date, and changes nothing else |
| Ledger.SeedKeepsInv | main.py:306-318 | the test bookings satisfy the ledger invariant under the default quotas |
| Ledger.SeededCanonical | main.py:316-318 | the test bookings are stored under the `strftime` texts of their dates |
| Ledger.LocalStorage.AddBookingSync | main.py:322-340 | `_add_booking_sync` returns the booking with ticket `Т-{day[:3]}-{group}-{draw}`, stores it as the user's booking on that date (creating the user's map, replacing an older entry) and changes nothing else |
| LedgerSpec.TicketShape | main.py:325 | a ticket is `Т-`, the first three letters of the weekday, `-`, the group, `-` and a four-digit number in 1000..9999 |
| LedgerSpec.TicketsMayCollide | main.py:325 | tickets depend only on weekday, group and draw, so two bookings a week apart can carry the same ticket; tickets are not unique |
| Ledger.ScanDays | main.py:358-377 | the scan over the next thirty days, stopping once `MAX_DATES_TO_SHOW` are found, collects exactly the offered days |
| Ledger.ScanStep | main.py:362-369 | one day of the scan is kept exactly when its weekday is in the table and has a positive quota |
| Ledger.LocalStorage.GetAvailableDates | main.py:353-383 | `get_available_dates` answers the entries of the offered days |
| LedgerViews.QualifyingDaysExact | main.py:358-369 | the scanned days are exactly the days of the range whose weekday has quota, each once, in increasing order |
| LedgerViews.OfferedDaysAnswer | main.py:353-383 | at most `MAX_DATES_TO_SHOW` days, all 1..30 days ahead, strictly increasing, each with quota on its weekday; no qualifying day is skipped before the last one listed; when fewer than the maximum are listed, every qualifying day of the thirty is |
| LedgerViews.AvailableDatesAnswer | main.py:370-377 | each listed entry is the rendering of its day, and its `date` text parses back to that day |
| LedgerViews.DefaultQuotasOfferConsecutiveDays | main.py:353-383 | under the default quotas the offered days are tomorrow onwards, `min(MAX_DATES_TO_SHOW, 30)` of them |
| Ledger.LocalStorage.GetFreeTimes | main.py:385-415 | `get_free_times` answers the specification: an error when the date does not parse or its weekday has no table, else the free times and the quota figures |
| Ledger.BusyList | main.py:392-397 | one busy time per booking for the group on the date, and exactly the times of those bookings |
| LedgerSpec.FreeTimesAnswer | main.py:385-415 | the free times are the working hours not busy for the group on the date, in schedule order; `quota = max(0, total - used)`, where `total` is the group's quota (0 when missing) and `used` the number of such bookings |
| LedgerSpec.BusyTimesCount | main.py:392-404 | under the invariant each busy time is held by one booking, so the number of distinct busy times is `quota_used` |
| Ledger.LocalStorage.CheckExisting | main.py:417-431 | `check_existing` answers the user's booking on that date if there is one, else "not found" |
| Ledger.LocalStorage.Register | main.py:433-487 | `register` answers and updates exactly as its specification says (with the duplicate check made without re-taking the lock), keeps the invariant and leaves quotas and hours unchanged |
| Ledger.SlotTaken | main.py:449-453 | the slot loop finds a booking exactly when some booking on the date holds that time for that group |
| Ledger.CountUsed | main.py:462-466 | the `used_quota` loop counts the users with a booking for the group on the date |
| LedgerSpec.RegisterRejects | main.py:437-469 | `register` refuses exactly when the date does not parse, the user already has a booking that day, the slot is held for the group, the weekday has no table, or the group's quota is used up (a missing group has quota 0); a refusal leaves the bookings unchanged |
| LedgerSpec.RegisterAdds | main.py:471-484 | a success stores the booking with the given date, time, group and user and the date's weekday, and reports `quota_used = used + 1`, `quota_remaining = max(0, total - used - 1)` and `quota_total = total` |
| LedgerSpec.RegisterChangesOnlyItsEntry | main.py:322-340 | a successful `register` adds the user's entry on that date and changes no other entry |
| LedgerSpec.RegisterKeepsInv | main.py:433-487 | `register` keeps the ledger invariant |
| LedgerSpec.InsertKeepsInv | main.py:449-472 | storing a booking that passed `register`'s checks keeps the invariant |
| Ledger.LocalStorage.CancelBooking | main.py:489-513 | `cancel_booking` answers and updates exactly as its specification says, keeps the invariant and leaves quotas and hours unchanged |
| Ledger.DeleteBooking | main.py:497-500 | the two `del` statements remove the entry and drop the user once their map is empty |
| LedgerSpec.CancelAnswers | main.py:489-511 | `cancel_booking` succeeds exactly when the user has a booking on the date carrying that ticket, answering with that booking; a refusal changes nothing |
| LedgerSpec.CancelRemovesOnlyItsEntry | main.py:497-500 | a successful cancel deletes only its entry, and drops the user exactly when no booking of theirs remains |
| LedgerSpec.CancelKeepsInv | main.py:489-513 | `cancel_booking` keeps the ledger invariant |
| LedgerSpec.RunKeepsInv | main.py:433-513 | any sequence of `register` and `cancel_booking` calls from a state satisfying the invariant keeps it |
| LedgerSpec.PerDayUnique | main.py:441-453 | when every key is a `strftime` text, a user holds at most one booking per calendar day and a (day, time, group) slot is held at most once |
| LedgerSpec.PerDayQuota | main.py:462-469 | when every key is a `strftime` text, the bookings of a group on a calendar day, under any spelling, are those under the day's one text, and their number stays within the weekday's quota |
| LedgerSpec.MutationKeepsCanonical | main.py:471-500 | `register` given a `strftime` date keeps every key a `strftime` text, and `cancel_booking` always does |
| LedgerSpec.RunKeepsCanonical | main.py:433-513 | a sequence of calls whose `register` dates are `strftime` texts keeps every key a `strftime` text |
| LedgerSpec.RegisterThenCheck | main.py:417-431 | after a successful `register`, `check_existing` finds the new booking with its ticket |
| LedgerSpec.CancelThenCheck | main.py:417-431 | after a successful `cancel_booking`, `check_existing` finds nothing |
| LedgerSpec.RegisterThenCancel | main.py:489-511 | registering and then cancelling with the issued ticket restores the bookings as they were |
| LedgerSpec.CancelThenReserve | main.py:449-453 | once a booking is cancelled, another user with no booking that day may take its slot |
| Ledger.LocalStorage.GetUserBookings | main.py:515-536 | `get_user_bookings` lists the user's bookings, one per booked date, each as stored, and nothing for an unknown user |
| Ledger.ListBookings | main.py:518-525 | the loop yields each booking of the user exactly once, with its key as its date |
| LedgerViews.ListedBookingsCoverAll | main.py:515-536 | the list shows every booking of the user exactly once, and nothing else |
| Ledger.LocalStorage.GetQuotas | main.py:538-574 | `get_quotas` answers, per weekday of the table, its quota sum, the bookings on dates with that weekday and their difference, and the totals over the weekdays |
| Ledger.SummarizeQuotas | main.py:543-565 | the loop over the weekdays builds the per-weekday table and the two running totals |
| Ledger.SumValues | main.py:544 | `sum(quotas.values())` of one weekday's table |
| Ledger.CountOnWeekday | main.py:548-553 | the nested `day_used` loops count the bookings whose date falls on that weekday |
| LedgerViews.QuotaSummaryCountsEachBooking | main.py:538-574 | when every stored date falls on a weekday of the table, `totalUsed` is the number of bookings, `remaining = totalQuota - totalUsed`, and each weekday row has `remaining = total - used` |
| LedgerViews.DefaultTotalQuota | main.py:285-304 | under the default quotas `totalQuota` is 5 * 53 + 2 * 41 = 347 |
| Ledger.LocalStorage.GetStats | main.py:576-607 | `get_stats` answers the number of bookings and users, both histograms of bookings (by weekday and by group), a most popular key of each (or `нет данных`), and the `get_quotas` summary |
| Ledger.TotalBookings | main.py:578 | the sum of the users' booking counts is the number of stored bookings |
| Ledger.Tally | main.py:584-592 | the nested loop builds exactly both histograms |
| Ledger.MostPopular | main.py:594-595 | `max(..., key=count)` picks a key of largest count, or `нет данных` for an empty table |
| LedgerViews.HistogramTotal | main.py:584-592 | the counts of a histogram add up to the number of bookings |
| LedgerViews.StatsConsistent | main.py:576-607 | both histograms sum to `total_bookings`; `total_users <= total_bookings`; the most popular weekday is `нет данных` exactly when nothing is booked, and otherwise a weekday |
| Remote.GoogleScriptClient.constructor | main.py:173-176 | a new client has an empty cache |
| Remote.KeyFor | main.py:216-218 | a call has a cache key exactly when it is a cacheable read without `force_refresh`; the key is the action, the user and the parameters |
| Remote.RequestBody | main.py:227-229 | the posted object has every parameter other than `user_id`, and `action` unless a parameter overrides it; it has `user_id` exactly when a non-zero user is given or a parameter names it |
| Remote.GoogleScriptClient.CallApi | main.py:209-257 | `call_api` answers, updates the cache and posts exactly what `CallApiSpec` says, and keeps every cache key on a cacheable action; freshness is judged by the clock read before the request, and a stored entry is stamped with the clock read again after the reply |
| Remote.FreshEntryAnswers | main.py:216-223 | a cacheable call with a fresh entry answers the stored data, posts nothing and leaves the cache unchanged |
| Remote.MissPosts | main.py:225-233 | a call not answered from the cache posts the request body |
| Remote.BypassStoresNothing | main.py:216-245 | with `force_refresh`, or for any other action, the cache stays unchanged |
| Remote.OnlySuccessesStored | main.py:244-250 | an error leaves the cache unchanged; a call that changes the cache stores, under its own key and stamped with the time the reply arrived, the data it answered |
| Remote.CallKeepsCacheOk | main.py:244-245 | every call keeps all cache keys on cacheable actions |
| Remote.SecondCallHitsCache | main.py:216-247 | after a successful cacheable call, the same call within the time-to-live, counted from when the reply arrived, answers the same data without posting, whatever the script would now reply |
| Remote.GoogleScriptClient.ClearCache | main.py:259-261 | `clear_cache` empties the cache |
| Remote.ClearedCacheMisses | main.py:259-261 | after clearing, every call posts to the script |
| Router.StorageAdapter.constructor | main.py:613-616 | the adapter keeps its mode, client and ledger |
| Router.UserArg | main.py:645-648 | the user sent to the script is the last positional argument when it is an integer |
| Router.ShortCallsRaise | main.py:630-641 | as written, building the action map raises `IndexError` for exactly the six operations other than `register` and `cancel_booking` |
| Router.RemoteRequest | main.py:630-648 | the intended lookup sends the method's own name as the action, the user taken from the arguments, and only parameters drawn from the arguments |
| Router.RemoteRequestAgrees | main.py:630-648 | wherever the map as written answers, it gives the same action and parameters as the intended lookup; the user is sent exactly for the five operations that carry one |
| Router.StorageAdapter.Call | main.py:618-695 | `LOCAL` answers as the ledger does and leaves the cache alone; `GOOGLE` returns the script's answer and leaves the ledger alone; `HYBRID` returns the script's answer when it succeeds and otherwise the ledger's; any other mode answers `Неизвестный режим работы` and changes nothing |
| Router.StorageAdapter.CallLocal | main.py:624-667 | the local branch answers each operation as the ledger specification says |
| Router.HybridUsesCacheFirst | main.py:650-656 | in `HYBRID` mode a fresh cached read answers successfully from the cache, so the ledger is not asked |
| Router.StorageAdapter.ClearCache | main.py:697-700 | `clear_cache` empties the script cache in `GOOGLE` and `HYBRID` modes and leaves it unchanged in `LOCAL` mode |
| Limits.RateLimiter.constructor | main.py:811-815 | a new limiter, for any limit and window, has no requests recorded |
| Limits.RateLimiter.IsAllowed | main.py:817-829 | `is_allowed` prunes the user's list to the window, then admits and appends `now` only while fewer than `max_requests` remain, keeping every list no longer than `max_requests` |
| Limits.Prune | main.py:822 | the list comprehension keeps exactly the times inside the window, in order |
| Limits.Recent | main.py:822 | the pruned list keeps exactly the times inside the window and is never longer |
| Limits.AdmitBounds | main.py:817-829 | afterwards the user's list holds at most `max_requests` times, all inside the window; the request is admitted exactly when fewer than `max_requests` remained, and a refused request appends nothing; other users are untouched |
| Limits.NonPositiveLimitRefusesAll | main.py:825-826 | with `max_requests` below one every request is refused and the user keeps no times |
| Limits.BurstAdmitsExactlyMax | main.py:817-829 | from no recent requests, exactly `max_requests` requests at one instant are admitted and the next is refused |
| Limits.RateLimiter.GetWaitTime | main.py:831-843 | `get_wait_time` is 0 without requests or once the oldest left the window, else the rest of its window; reading an unknown user creates an empty list |
| Limits.Minimum | main.py:839 | `min(requests)` is an element no larger than any other |
| Limits.RefusalMeansWait | main.py:817-843 | right after a refusal the wait is positive, and it ends exactly when the oldest kept request leaves the window |
| Limits.SessionTimeout.constructor | main.py:711-713 | a new session table is empty |
| Limits.SessionTimeout.UpdateActivity | main.py:715-717 | `update_activity` records `now` for the user |
| Limits.SessionTimeout.IsSessionExpired | main.py:719-727 | a session has expired exactly when the user is known and more than the timeout has passed since their last activity |
| Limits.SessionTimeout.ClearSession | main.py:729-732 | `clear_session` forgets the user |
| Limits.ActivityResetsExpiry | main.py:715-732 | a user just seen expires only once the timeout has passed; a cleared or unknown user never expires; updating or clearing one user leaves others' expiry as it was |
| Locking.RegisterAsWrittenBlocks | main.py:417-445 | as written, `register` never finishes for a date that parses, because it takes the non-reentrant lock again inside `check_existing`; it finishes for a date that does not parse |
| Locking.RegisterAsWrittenBlocksOnEveryOfferedDate | main.py:435-445 | every date `strftime` writes, such as those the date buttons carry, makes `register` as written block |
| Locking.IntendedStepsComplete | main.py:417-513 | with the duplicate check inline, `register`, `check_existing` and `cancel_booking` each complete and leave the lock free, so they also complete one after another |
| Callback.SelectedBlood | main.py:1112-1116 | the blood handler accepts exactly data with the `blood_` prefix and yields the text after it |
| Callback.SelectedDate | main.py:1187-1191 | the date handler accepts exactly data with the `date_` prefix and yields the text after it |
| Callback.AfterFirstUnderscore | main.py:1361 | `split("_", 1)[1]` has a value exactly when the data holds `_` |
| Callback.PrefixesExclusive | main.py:116-141 | no data passes two of the prefix tests, and `cancel_no` passes neither cancel test |
| Callback.BloodRoundTrip | main.py:1112-1116 | every blood button the keyboard builds (lines 859-866) decodes to its group |
| Callback.DateRoundTrip | main.py:1187-1191 | every date button (line 897) decodes to its date |
| Callback.TimeRoundTrip | main.py:1357-1361 | every time button (line 922) decodes to its time, even one holding `_` |
| Callback.SelectedTimeIsSuffix | main.py:1357-1361 | the time handler accepts exactly data with the `time_` prefix, and splitting at the first `_` is the same as cutting the prefix |
| Callback.CancelAskRoundTrip | main.py:1947-1951 | a cancel button (line 1565) for a date without `_` passes `is_cancel_ask` and decodes to its date and ticket, whatever the ticket holds |
| Callback.CancelYesRoundTrip | main.py:1907-1911 | a confirming button (line 952) for a date without `_` passes `is_cancel_yes` and decodes to its date and ticket |
| Callback.CancelYesDecodesOnlyButtons | main.py:1907-1911 | whatever confirming data the handler decodes is the button for the decoded date and ticket, and that date holds no `_` |
| Callback.CancelFlowKeepsBooking | main.py:1907-1951 | the ask button's decoded fields build a confirming button that decodes to the same date and ticket |
| Callback.ShortCancelRefused | main.py:1909 | `cancel_yes_` followed by a text without `_` has fewer than four parts and is refused |
| Text.JoinSplit | main.py:1908-1911 | `"_".join(s.split("_"))` gives back `s` |

## Left out

- HTTP and SSL: `session.post`, `test_connection` and the JSON decoding. The script's reply (a timeout, another failure, or a status code with an optional JSON body) is a parameter.
- `str(e)` exception texts. Error messages keep their fixed prefix only. The text of a failed remote call is an input.
- Clocks and randomness. `datetime.now()`, `time.time()` and `random.randint(1000, 9999)` are parameters: the date ordinal, integer seconds (not floats) and the drawn number.
- `created_at` and the Unix `timestamp` of the date entries are not modelled.
- `asyncio.Lock` and concurrency. Each locked method is one atomic method. The lock appears only as the take/release steps of `Locking`, and interleavings between tasks are not modelled.
- `_add_booking`, the locked wrapper of `_add_booking_sync`. Nothing calls it, and its body is `AddBookingSync`.
- Telegram handlers, menus, keyboards and text formatting. Only the `callback_data` strings and the slices that decode them are modelled.
- The timeout middleware and `Config` environment parsing. The mode, the cache time-to-live, `MAX_DATES_TO_SHOW` and the rate limits are parameters of the constructors.
- `get_progress_bar`, which is floating-point display code.
- Router.StorageAdapter.Call: the unknown-method error of `_call_with_fallback` is not reachable. Operations form a closed datatype, and each public method passes its own name.
- Router.StorageAdapter.Call: the argument forwarding of the `HYBRID` fallback is modelled per operation, not by `getattr`.
- Router.StorageAdapter.Call: models the corrected action map (see "## Findings"). As written, six operations raise `IndexError` in `GOOGLE` and `HYBRID` modes.
- Ledger.LocalStorage.Register: models the corrected duplicate check (see "## Findings"). As written, a date that parses makes `register` block.
- Ledger.LocalStorage.GetUserBookings: the list order, which is the dictionary's insertion order, is left open. The contract fixes the list's contents, one entry per booked date.
- Ledger.MostPopular: when several keys share the largest count, which one `max` picks (the first inserted) is left open.
- Ledger.LocalStorage.GetQuotas: a stored date that does not parse would make `strptime` raise. The ledger invariant rules such dates out. Without the invariant, the model counts such a date under an empty weekday name. The same holds for Ledger.LocalStorage.GetStats.
- The buttons' `f"{CallbackData.X}..."` texts are taken to hold the member's value, as `str`-mixin enums format up to Python 3.11. Later versions format the member's name instead. Nothing in the program pins the version.
- Ledger.LocalStorage.GetAvailableDates: requires the thirty days ahead to be representable dates (today + 30 no later than 9999-12-31). Near the end of the calendar the program either answers, when it finds `MAX_DATES_TO_SHOW` dates first, or raises `OverflowError`; neither is modelled. The same bound applies to Router.StorageAdapter.Call and Router.StorageAdapter.CallLocal, for `get_available_dates` only.
- Ledger.LocalStorage.constructor: requires the five days ahead of the test bookings to be representable. Beyond that `timedelta` raises `OverflowError` in `reset_data`, which is not modelled. The same holds for Ledger.LocalStorage.ResetData and Ledger.LocalStorage.AddTestData.
- Calendar.ParseDate: accepts only ASCII digits. Python's `_strptime` matches the fields with `\d`, which also matches other Unicode decimal digits.
- The cache key records the action, the user and the parameters. It does not record the exact `json.dumps(..., sort_keys=True)` text, which depends on nothing else.

## Findings

| source | as written | input that shows it | evidently intended | confidence | as-written member | corrected member |
|---|---|---|---|---|---|---|
| main.py:630-641 | `api_action_map` is a dictionary display built in full before the lookup, and its entries read `args[0]`, `args[1]` and `args[2]` | `storage.get_quotas()` in `GOOGLE` or `HYBRID` mode: `args` is empty, so `args[0]` raises `IndexError` before the script is asked or the ledger falls back; likewise every operation except `register` and `cancel_booking` | look up only the called method's entry, so each operation posts its own parameters | high (not executed) | Router.ActionMapAsWritten, Router.ShortCallsRaise | Router.RemoteRequest, Router.RemoteRequestAgrees |
| main.py:417-445 | `register` holds `self._lock` and then awaits `self.check_existing`, which takes the same `asyncio.Lock`; that lock is not reentrant | `register("2030-01-02", "A+", "09:00", 1)` in `LOCAL` mode: the date parses, so the task waits for itself for ever, holding the lock against every later `register`, `check_existing` and `cancel_booking` | do the duplicate check as a direct lookup inside the one locked block | high (not executed) | Locking.RegisterStepsAsWritten, Locking.RegisterAsWrittenBlocks | Locking.RegisterSteps, Locking.IntendedStepsComplete, Ledger.LocalStorage.Register |
