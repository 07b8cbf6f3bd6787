/** `LocalStorage`: the in-memory ledger of bookings, the quota table and the
    working hours, with the operations the bot calls. Each method is proved to
    compute what the functions of `LedgerSpec` and `LedgerViews` say, and the
    state-changing ones to keep the ledger invariant. The clock and the random
    ticket numbers are parameters: `today` is the ordinal of the current date,
    `draw` the number `random.randint(1000, 9999)` returned. */
module Ledger {
  import opened Wrappers
  import opened Text
  import opened Calendar
  import opened Api
  import opened Sets
  import opened LedgerSpec
  import opened LedgerViews

  /** The three bookings `_add_test_data` stores: user, days from today, time, group. */
  const TestData: seq<(int, int, string, string)> :=
    [(111111, 1, "09:00", "A+"), (222222, 2, "10:30", "B-"), (333333, 5, "11:00", "O+")]

  /** The clock reading `today` leaves room for the test bookings, the
      furthest of which lies five days ahead. */
  predicate SeedToday(today: int) {
    1 <= today && today + 5 <= MaxOrdinal
  }

  /** One drawn ticket number per test booking. */
  predicate SeedDraws(draws: seq<int>) {
    |draws| == 3 && forall i :: 0 <= i < 3 ==> 1000 <= draws[i] <= 9999
  }

  /** The `i`-th test booking as `_add_booking_sync` builds it. */
  function SeedBooking(today: int, i: int, draw: int): Booking
    requires SeedToday(today) && 0 <= i < 3 && 1000 <= draw <= 9999
  {
    var (user, ahead, time, group) := TestData[i];
    var day := DayName(today + ahead);
    Booking(Ticket(day, group, draw), FormatDate(today + ahead), time, group, day, user)
  }

  /** The bookings after the first `k` test bookings are stored. */
  function Seeded(today: int, draws: seq<int>, k: nat): Bookings
    requires SeedToday(today) && SeedDraws(draws) && k <= 3
  {
    if k == 0 then map[] else Insert(Seeded(today, draws, k - 1), SeedBooking(today, k - 1, draws[k - 1]))
  }

  /** How many days ahead the first `k` test bookings lie. */
  function SeedOffsets(k: nat): set<int>
    requires k <= 3
  {
    if k == 0 then {} else SeedOffsets(k - 1) + {TestData[k - 1].1}
  }

  /** A booking on a date nobody holds yet, for a group with places on its
      weekday, can be stored without breaking the invariant. */
  lemma InsertOnFreeDate(b: Bookings, q: QuotaTable, bk: Booking)
    requires Inv(b, q) && EntryOk(bk, bk.userId, bk.date)
    requires forall u :: u in b ==> bk.date !in b[u]
    requires QuotaOf(q, bk.day, bk.bloodGroup) > 0
    ensures Inv(Insert(b, bk), q)
  {
    assert forall u :: u !in UsersOn(b, bk.date, bk.bloodGroup);
    InsertKeepsInv(b, q, bk);
  }

  /** The `k`-th test booking is well formed, lies `TestData[k].1` days ahead
      and has places under the default table. */
  lemma SeedBookingOk(today: int, k: nat, draw: int)
    requires SeedToday(today) && k < 3 && 1000 <= draw <= 9999
    ensures var bk := SeedBooking(today, k, draw);
      EntryOk(bk, bk.userId, bk.date) && ParseDate(bk.date) == Some(today + TestData[k].1)
      && QuotaOf(DefaultQuotas(), bk.day, bk.bloodGroup) > 0
  {
    var n := today + TestData[k].1;
    ParseFormatDate(n);
    DefaultQuotasShape();
    assert DayName(n) == DayNames[Weekday(n)] && DayName(n) in DefaultQuotas();
    assert TestData[k].3 in BloodGroups;
  }

  /** The dates of the first `k` test bookings lie the first `k` offsets ahead. */
  ghost predicate SeededDates(today: int, b: Bookings, k: nat)
    requires k <= 3
  {
    forall u, d :: u in b && d in b[u] ==> ParseDate(d).Some? && ParseDate(d).value - today in SeedOffsets(k)
  }

  /** Storing the `k`-th test booking after the first `k` keeps the invariant,
      and the dates stay the test offsets from `today`. */
  lemma SeedStep(today: int, b: Bookings, k: nat, draw: int)
    requires SeedToday(today) && k < 3 && 1000 <= draw <= 9999
    requires Inv(b, DefaultQuotas()) && SeededDates(today, b, k)
    ensures Inv(Insert(b, SeedBooking(today, k, draw)), DefaultQuotas())
    ensures SeededDates(today, Insert(b, SeedBooking(today, k, draw)), k + 1)
  {
    SeedBookingOk(today, k, draw);
    SeedDateFree(today, b, k, draw);
    InsertOnFreeDate(b, DefaultQuotas(), SeedBooking(today, k, draw));
    SeedDatesStep(today, b, k, draw);
  }

  /** No earlier test booking is on the date of the `k`-th: the offsets differ. */
  lemma SeedDateFree(today: int, b: Bookings, k: nat, draw: int)
    requires SeedToday(today) && k < 3 && 1000 <= draw <= 9999
    requires SeededDates(today, b, k)
    ensures forall u :: u in b ==> SeedBooking(today, k, draw).date !in b[u]
  {
    var bk := SeedBooking(today, k, draw);
    SeedBookingOk(today, k, draw);
    if k == 1 {
      assert SeedOffsets(1) == {1};
    } else if k == 2 {
      assert SeedOffsets(2) == {1, 2};
    }
    assert TestData[k].1 !in SeedOffsets(k);
    forall u, d | u in b && d in b[u] ensures d != bk.date {
      assert ParseDate(d).value - today in SeedOffsets(k);
    }
  }

  lemma SeedDatesStep(today: int, b: Bookings, k: nat, draw: int)
    requires SeedToday(today) && k < 3 && 1000 <= draw <= 9999
    requires SeededDates(today, b, k)
    ensures SeededDates(today, Insert(b, SeedBooking(today, k, draw)), k + 1)
  {
    SeedBookingOk(today, k, draw);
    InsertDates(b, SeedBooking(today, k, draw), today, SeedOffsets(k), TestData[k].1);
  }

  /** Storing a booking `o` days ahead adds `o` to the offsets of the dates. */
  lemma InsertDates(b: Bookings, bk: Booking, today: int, offsets: set<int>, o: int)
    requires forall u, d :: u in b && d in b[u] ==> ParseDate(d).Some? && ParseDate(d).value - today in offsets
    requires ParseDate(bk.date) == Some(today + o)
    ensures forall u, d :: u in Insert(b, bk) && d in Insert(b, bk)[u] ==>
      ParseDate(d).Some? && ParseDate(d).value - today in offsets + {o}
  {
    forall u, d | u in Insert(b, bk) && d in Insert(b, bk)[u]
      ensures ParseDate(d).Some? && ParseDate(d).value - today in offsets + {o}
    {
      InsertLookup(b, bk, u, d);
      if u != bk.userId || d != bk.date {
        assert u in b && d in b[u];
      }
    }
  }

  /** Each prefix of the test data keeps the invariant, and its dates are the
      test offsets from `today`. */
  lemma {:induction false} SeededInv(today: int, draws: seq<int>, k: nat)
    requires SeedToday(today) && SeedDraws(draws) && k <= 3
    ensures Inv(Seeded(today, draws, k), DefaultQuotas())
    ensures SeededDates(today, Seeded(today, draws, k), k)
  {
    if k > 0 {
      SeededInv(today, draws, k - 1);
      SeedStep(today, Seeded(today, draws, k - 1), k - 1, draws[k - 1]);
    }
  }

  lemma SeedBookingCanonical(today: int, k: nat, draw: int)
    requires SeedToday(today) && k < 3 && 1000 <= draw <= 9999
    ensures CanonicalDate(SeedBooking(today, k, draw).date)
  {
    var n := today + TestData[k].1;
    ParseFormatDate(n);
    assert SeedBooking(today, k, draw).date == FormatDate(n);
  }

  /** The test bookings are stored under the `strftime` texts of their dates. */
  lemma {:induction false} SeededCanonical(today: int, draws: seq<int>, k: nat)
    requires SeedToday(today) && SeedDraws(draws) && k <= 3
    ensures CanonicalKeys(Seeded(today, draws, k))
  {
    if k > 0 {
      var b := Seeded(today, draws, k - 1);
      var bk := SeedBooking(today, k - 1, draws[k - 1]);
      SeededCanonical(today, draws, k - 1);
      SeedBookingCanonical(today, k - 1, draws[k - 1]);
      InsertKeepsCanonical(b, bk);
    }
  }

  /** The test data satisfies the ledger invariant under the default quotas. */
  lemma SeedKeepsInv(today: int, draws: seq<int>)
    requires SeedToday(today) && SeedDraws(draws)
    ensures Inv(Seeded(today, draws, 3), DefaultQuotas())
  {
    SeededInv(today, draws, 3);
  }

  /** The users of `among` holding a booking for `group` on `date`. */
  function UsersOnAmong(b: Bookings, among: set<int>, date: string, group: string): set<int> {
    set u | u in among && u in b && date in b[u] && b[u][date].bloodGroup == group
  }

  /** Looking at one more user adds that user exactly when they hold such a booking. */
  lemma UsersOnAmongAdd(b: Bookings, among: set<int>, u: int, date: string, group: string)
    requires u !in among && u in b
    ensures UsersOnAmong(b, among + {u}, date, group) ==
      UsersOnAmong(b, among, date, group) + (if date in b[u] && b[u][date].bloodGroup == group then {u} else {})
  {
    var before, after := UsersOnAmong(b, among, date, group), UsersOnAmong(b, among + {u}, date, group);
    var extra: set<int> := if date in b[u] && b[u][date].bloodGroup == group then {u} else {};
    forall v | v in after ensures v in before + extra {
      if v != u { assert v in among; }
    }
    assert before + extra <= after;
    assert u !in before;
  }

  lemma UsersOnAmongCount(b: Bookings, among: set<int>, u: int, date: string, group: string)
    requires u !in among && u in b
    ensures |UsersOnAmong(b, among + {u}, date, group)| ==
      |UsersOnAmong(b, among, date, group)| + (if date in b[u] && b[u][date].bloodGroup == group then 1 else 0)
  {
    UsersOnAmongAdd(b, among, u, date, group);
    assert u !in UsersOnAmong(b, among, date, group);
  }

  /** The times booked for `group` on `date` by users of `among`. */
  function TimesAmong(b: Bookings, among: set<int>, date: string, group: string): set<string> {
    set u | u in UsersOnAmong(b, among, date, group) :: b[u][date].time
  }

  lemma TimesAmongAdd(b: Bookings, among: set<int>, u: int, date: string, group: string)
    requires u !in among && u in b
    ensures TimesAmong(b, among + {u}, date, group) ==
      TimesAmong(b, among, date, group) + (if date in b[u] && b[u][date].bloodGroup == group then {b[u][date].time} else {})
  {
    UsersOnAmongAdd(b, among, u, date, group);
  }

  lemma UsersOnAmongAll(b: Bookings, date: string, group: string)
    ensures UsersOnAmong(b, b.Keys, date, group) == UsersOn(b, date, group)
  {
  }

  /** The scan of `get_available_dates`: the next thirty days in turn, each
      kept when its weekday has quota, stopping once `maxShow` are kept. */
  method ScanDays(q: QuotaTable, today: int, maxShow: int) returns (days: seq<int>)
    ensures days == OfferedDays(q, today, maxShow)
  {
    days := [];
    var i := 1;
    while i < 31
      invariant 1 <= i <= 31
      invariant days == QualifyingDays(q, today + 1, today + i)
      invariant |days| <= Max0(maxShow)
    {
      if |days| >= maxShow {
        break;
      }
      QualifyingStep(q, today + 1, today + i);
      days := ScanStep(q, today + i, days);
      i := i + 1;
    }
    ScanFindsOfferedDays(q, today, maxShow, i, days);
  }

  /** One day of the scan: `checkDate` is kept when its weekday has quota. */
  method ScanStep(q: QuotaTable, checkDate: int, days: seq<int>) returns (days': seq<int>)
    ensures days' == days + (if HasQuota(q, DayName(checkDate)) then [checkDate] else [])
  {
    days' := days;
    var dayOfWeek := DayName(checkDate);
    if dayOfWeek in q {
      var dayQuotas := q[dayOfWeek];
      if exists g :: g in dayQuotas && dayQuotas[g] > 0 {
        days' := days + [checkDate];
      }
    }
  }

  class LocalStorage {
    var bookings: Bookings
    var quotas: QuotaTable
    var workingHours: seq<string>
    /** `Config.MAX_DATES_TO_SHOW`. */
    const maxDatesToShow: int

    ghost predicate Valid()
      reads this
    {
      Inv(bookings, quotas)
    }

    /** `__init__`: the ledger starts from `reset_data`. */
    constructor (maxDatesToShow: int, today: int, draws: seq<int>)
      requires SeedToday(today) && SeedDraws(draws)
      ensures this.maxDatesToShow == maxDatesToShow
      ensures bookings == Seeded(today, draws, 3) && quotas == DefaultQuotas() && workingHours == WorkingHours
      ensures Valid()
    {
      this.maxDatesToShow := maxDatesToShow;
      bookings := map[];
      quotas := map[];
      workingHours := [];
      new;
      ResetData(today, draws);
    }

    /** `reset_data`: no bookings, the default quotas and hours, then the test data. */
    method ResetData(today: int, draws: seq<int>)
      modifies this
      requires SeedToday(today) && SeedDraws(draws)
      ensures bookings == Seeded(today, draws, 3) && quotas == DefaultQuotas() && workingHours == WorkingHours
      ensures Valid()
    {
      bookings := map[];
      quotas := GetDefaultQuotas();
      workingHours := WorkingHours;
      AddTestData(today, draws);
      SeedKeepsInv(today, draws);
    }

    /** `_get_default_quotas`. */
    method GetDefaultQuotas() returns (q: QuotaTable)
      ensures q == DefaultQuotas()
    {
      q := map[];
      var i := 0;
      while i < |DayNames|
        invariant 0 <= i <= |DayNames|
        invariant forall day :: day in q <==> day in DayNames[..i]
        invariant forall day :: day in q ==> q[day] == DayTable(day)
      {
        var day := DayNames[i];
        if IsWeekend(day) {
          q := q[day := WeekendQuotas()];
        } else {
          q := q[day := BaseQuotas()];
        }
        assert DayNames[..i + 1] == DayNames[..i] + [day];
        i := i + 1;
      }
      assert DayNames[..|DayNames|] == DayNames;
    }

    /** `_add_test_data`. */
    method AddTestData(today: int, draws: seq<int>)
      modifies this
      requires SeedToday(today) && SeedDraws(draws) && bookings == map[]
      ensures bookings == Seeded(today, draws, 3)
      ensures quotas == old(quotas) && workingHours == old(workingHours)
    {
      assert |TestData| == 3 && Seeded(today, draws, 0) == map[];
      var i := 0;
      while i < |TestData|
        invariant 0 <= i <= 3
        invariant bookings == Seeded(today, draws, i)
        invariant quotas == old(quotas) && workingHours == old(workingHours)
      {
        AddTestBooking(today, draws, i);
        i := i + 1;
      }
    }

    /** One pass of the `_add_test_data` loop: the `i`-th test booking. */
    method AddTestBooking(today: int, draws: seq<int>, i: nat)
      modifies this
      requires SeedToday(today) && SeedDraws(draws) && i < 3 && bookings == Seeded(today, draws, i)
      ensures bookings == Seeded(today, draws, i + 1)
      ensures quotas == old(quotas) && workingHours == old(workingHours)
    {
      var (user, ahead, time, group) := TestData[i];
      var dateStr := FormatDate(today + ahead);
      var day := DayName(today + ahead);
      assert SeedBooking(today, i, draws[i]) == Booking(Ticket(day, group, draws[i]), dateStr, time, group, day, user);
      var bk := AddBookingSync(user, dateStr, time, group, day, draws[i]);
    }

    /** `_add_booking_sync`: store a booking with a fresh ticket, replacing any
        booking of the user on that date. */
    method AddBookingSync(user: int, date: string, time: string, group: string, day: string, draw: int)
      returns (bk: Booking)
      modifies this
      requires 1000 <= draw <= 9999
      ensures bk == Booking(Ticket(day, group, draw), date, time, group, day, user)
      ensures bookings == Insert(old(bookings), bk)
      ensures quotas == old(quotas) && workingHours == old(workingHours)
    {
      bk := Booking(Ticket(day, group, draw), date, time, group, day, user);
      if user !in bookings {
        bookings := bookings[user := map[]];
      }
      bookings := bookings[user := bookings[user][date := bk]];
    }

    /** `get_available_dates`: scan the next thirty days, stopping once
        `maxDatesToShow` dates are found. The loop collects the qualifying
        days; their entries are rendered from them afterwards. */
    method GetAvailableDates(today: int) returns (r: ApiResponse)
      requires ValidToday(today)
      ensures r == Success(Dates(AvailableDatesSpec(quotas, today, maxDatesToShow)))
    {
      var days := ScanDays(quotas, today, maxDatesToShow);
      OfferedDaysInRange(quotas, today, maxDatesToShow);
      r := Success(Dates(DateInfos(days)));
    }

    /** `get_free_times`. */
    method GetFreeTimes(date: string, group: string) returns (r: ApiResponse)
      ensures r == FreeTimesSpec(bookings, quotas, workingHours, date, group)
    {
      var parsed := ParseDate(date);
      if parsed.None? {
        return Error(SlotsUnavailable(date));
      }
      var dayOfWeek := DayName(parsed.value);
      var busy := BusyList(bookings, date, group);
      var busySet := set t | t in busy;
      assert busySet == BusyTimes(bookings, date, group);
      var freeTimes := Without(workingHours, busySet);
      if dayOfWeek !in quotas {
        return Error(SlotsUnavailable(date));
      }
      var total := if group in quotas[dayOfWeek] then quotas[dayOfWeek][group] else 0;
      var used := |busy|;
      r := Success(Slots(freeTimes, Max0(total - used), total, used));
    }

    /** `check_existing`. */
    method CheckExisting(date: string, user: int) returns (r: ApiResponse)
      ensures r == CheckExistingSpec(bookings, date, user)
    {
      if user in bookings && date in bookings[user] {
        r := Success(Existing(Some(bookings[user][date])));
      } else {
        r := Success(Existing(None));
      }
    }

    /** `register`, with the duplicate check made without re-taking the lock. */
    method Register(date: string, group: string, time: string, user: int, draw: int) returns (r: ApiResponse)
      modifies this
      requires Valid() && 1000 <= draw <= 9999
      ensures (r, bookings) == RegisterSpec(old(bookings), quotas, date, group, time, user, draw)
      ensures quotas == old(quotas) && workingHours == old(workingHours)
      ensures Valid()
    {
      var parsed := ParseDate(date);
      if parsed.None? {
        return Error(BadDateFormat(date));
      }
      var dayOfWeek := DayName(parsed.value);
      var existing := CheckExisting(date, user);
      if existing.data.found.Some? {
        return Error(AlreadyBooked(date));
      }
      var taken := SlotTaken(bookings, date, time, group);
      if taken {
        return Error(TimeTaken(time));
      }
      if dayOfWeek !in quotas {
        return Error(NoQuotasFor(dayOfWeek));
      }
      var total := if group in quotas[dayOfWeek] then quotas[dayOfWeek][group] else 0;
      var used := CountUsed(bookings, date, group);
      if used >= total {
        return Error(QuotaExhausted(date));
      }
      var bk := AddBookingSync(user, date, time, group, dayOfWeek, draw);
      RegisterKeepsInv(old(bookings), quotas, date, group, time, user, draw);
      r := Success(Registered(bk, Max0(total - used - 1), total, used + 1));
    }

    /** `cancel_booking`: delete the entry, then the user once nothing is left. */
    method CancelBooking(date: string, ticket: string, user: int) returns (r: ApiResponse)
      modifies this
      requires Valid()
      ensures (r, bookings) == CancelSpec(old(bookings), date, ticket, user)
      ensures quotas == old(quotas) && workingHours == old(workingHours)
      ensures Valid()
    {
      if user in bookings && date in bookings[user] {
        var bk := bookings[user][date];
        if bk.ticket == ticket {
          CancelKeepsInv(bookings, quotas, date, ticket, user);
          bookings := DeleteBooking(bookings, user, date);
          return Success(Cancelled(bk));
        }
      }
      r := Error(BookingNotFound);
    }

    /** `get_user_bookings`. */
    method GetUserBookings(user: int) returns (r: ApiResponse)
      requires Valid()
      ensures r.Success? && r.data.BookingList? && ListsBookingsOf(bookings, user, r.data.bookings)
    {
      if user !in bookings {
        return Success(BookingList([]));
      }
      DatesMatchKeys(bookings, user);
      var list := ListBookings(bookings[user]);
      r := Success(BookingList(list));
    }

    /** `get_quotas`. */
    method GetQuotas() returns (r: ApiResponse)
      ensures r == Success(Quotas(QuotaSummaryOf(bookings, quotas)))
    {
      DayMapsAgree(bookings, quotas);
      var summary := SummarizeQuotas(bookings, quotas, DayTotals(quotas), DayUsedMap(bookings, quotas));
      SummaryFromDays(bookings, quotas, summary.totalQuota, summary.totalUsed, summary.byDay);
      r := Success(Quotas(summary));
    }

    /** `get_stats`. */
    method GetStats() returns (r: ApiResponse)
      ensures r.Success? && StatsOk(bookings, quotas, r.data)
    {
      var totalBookings := TotalBookings(bookings);
      var totalUsers := |bookings|;
      var dayStats, groupStats := Tally(bookings);
      var popularDay := MostPopular(dayStats);
      var popularGroup := MostPopular(groupStats);
      var quotaResponse := GetQuotas();
      r := Success(Stats(totalBookings, totalUsers, dayStats, groupStats, popularDay, popularGroup,
                         quotaResponse.data.summary));
    }
  }

  /** The two `del` statements of `cancel_booking`. */
  method DeleteBooking(b: Bookings, user: int, date: string) returns (nb: Bookings)
    requires user in b
    ensures nb == Remove(b, user, date)
  {
    var inner := b[user] - {date};
    nb := b[user := inner];
    if inner == map[] {
      nb := nb - {user};
      assert nb == b - {user};
    }
  }

  /** The `busy_times` loop of `get_free_times`: the time of every booking
      for the group on the date, one per booking. */
  method BusyList(b: Bookings, date: string, group: string) returns (busy: seq<string>)
    ensures |busy| == UsedQuota(b, date, group)
    ensures forall t :: t in busy <==> t in BusyTimes(b, date, group)
  {
    busy := [];
    var todo := b.Keys;
    ghost var seen: set<int> := {};
    while todo != {}
      invariant todo + seen == b.Keys && todo !! seen
      invariant |busy| == |UsersOnAmong(b, seen, date, group)|
      invariant forall t :: t in busy <==> t in TimesAmong(b, seen, date, group)
      decreases todo
    {
      ghost var w := Pick(todo);
      var u :| u in todo;
      busy := BusyStep(b, date, group, u, seen, busy);
      todo := todo - {u};
      seen := seen + {u};
    }
    UsersOnAmongAll(b, date, group);
    assert TimesAmong(b, b.Keys, date, group) == BusyTimes(b, date, group);
  }

  /** One user of the `busy_times` loop. */
  method BusyStep(b: Bookings, date: string, group: string, u: int, ghost seen: set<int>, busy: seq<string>)
    returns (busy': seq<string>)
    requires u in b && u !in seen
    requires |busy| == |UsersOnAmong(b, seen, date, group)|
    requires forall t :: t in busy <==> t in TimesAmong(b, seen, date, group)
    ensures |busy'| == |UsersOnAmong(b, seen + {u}, date, group)|
    ensures forall t :: t in busy' <==> t in TimesAmong(b, seen + {u}, date, group)
  {
    UsersOnAmongCount(b, seen, u, date, group);
    TimesAmongAdd(b, seen, u, date, group);
    busy' := busy;
    if date in b[u] {
      var bk := b[u][date];
      if bk.bloodGroup == group {
        busy' := busy + [bk.time];
      }
    }
  }

  /** The slot loop of `register`: whether some booking on the date already
      holds the time for the group. */
  method SlotTaken(b: Bookings, date: string, time: string, group: string) returns (taken: bool)
    ensures taken == SlotHeld(b, date, time, group)
  {
    var todo := b.Keys;
    while todo != {}
      invariant todo <= b.Keys
      invariant forall u :: u in b && u !in todo && date in b[u] ==>
        !(b[u][date].time == time && b[u][date].bloodGroup == group)
      decreases todo
    {
      ghost var w := Pick(todo);
      var u :| u in todo;
      if date in b[u] {
        var bk := b[u][date];
        if bk.time == time && bk.bloodGroup == group {
          return true;
        }
      }
      todo := todo - {u};
    }
    taken := false;
  }

  /** The `used_quota` loop of `register`. */
  method CountUsed(b: Bookings, date: string, group: string) returns (used: int)
    ensures used == UsedQuota(b, date, group)
  {
    used := 0;
    var todo := b.Keys;
    ghost var seen: set<int> := {};
    while todo != {}
      invariant todo + seen == b.Keys && todo !! seen
      invariant used == |UsersOnAmong(b, seen, date, group)|
      decreases todo
    {
      ghost var w := Pick(todo);
      var u :| u in todo;
      UsersOnAmongCount(b, seen, u, date, group);
      if date in b[u] && b[u][date].bloodGroup == group {
        used := used + 1;
      }
      todo := todo - {u};
      seen := seen + {u};
    }
    UsersOnAmongAll(b, date, group);
  }

  /** `sum(quotas.values())` for one weekday's table. */
  method SumValues(m: map<string, int>) returns (total: int)
    ensures total == SumOver(m, m.Keys)
  {
    total := 0;
    var todo := m.Keys;
    ghost var seen: set<string> := {};
    while todo != {}
      invariant todo + seen == m.Keys && todo !! seen
      invariant total == SumOver(m, seen)
      decreases todo
    {
      var g :| g in todo;
      SumOverRemove(m, seen + {g}, g);
      assert seen + {g} - {g} == seen;
      total := total + m[g];
      todo := todo - {g};
      seen := seen + {g};
    }
  }

  /** The `day_used` loops of `get_quotas`: the bookings on dates whose weekday is `day`. */
  method CountOnWeekday(b: Bookings, day: string) returns (used: int)
    ensures used == DayUsed(b, day)
  {
    used := 0;
    ghost var done: set<int> := {};
    var users := b.Keys;
    while users != {}
      invariant users + done == b.Keys && users !! done
      invariant used == Count(b, ByWeekday, EntriesOf(b, done), day)
      decreases users
    {
      ghost var w := Pick(users);
      var u :| u in users;
      used := CountDayStep(b, u, day, done, used);
      users := users - {u};
      done := done + {u};
    }
  }

  /** One user of the outer loop of `day_used`. */
  method CountDayStep(b: Bookings, u: int, day: string, ghost done: set<int>, used: int) returns (used': int)
    requires u in b && u !in done
    requires used == Count(b, ByWeekday, EntriesOf(b, done), day)
    ensures used' == Count(b, ByWeekday, EntriesOf(b, done + {u}), day)
  {
    EntriesOfAddUser(b, done, u);
    var n := CountUserOnWeekday(b, u, day, EntriesOf(b, done));
    used' := used + n;
  }

  /** The inner loop of `day_used`: one user's bookings on dates whose weekday is `day`. */
  method CountUserOnWeekday(b: Bookings, u: int, day: string, ghost base: set<Entry>) returns (n: int)
    requires u in b && base !! Pairs(u, b[u].Keys)
    ensures Count(b, ByWeekday, base + Pairs(u, b[u].Keys), day) == Count(b, ByWeekday, base, day) + n
  {
    n := 0;
    var dates := b[u].Keys;
    ghost var seen: set<string> := {};
    assert base + Pairs(u, seen) == base;
    while dates != {}
      invariant dates + seen == b[u].Keys && dates !! seen
      invariant Count(b, ByWeekday, base + Pairs(u, seen), day) == Count(b, ByWeekday, base, day) + n
      decreases dates
    {
      var d :| d in dates;
      assert (u, d) in Pairs(u, b[u].Keys) && (u, d) !in Pairs(u, seen);
      CountAdd(b, ByWeekday, base + Pairs(u, seen), (u, d), day);
      PairsAdd(u, seen, d);
      assert base + Pairs(u, seen + {d}) == base + Pairs(u, seen) + {(u, d)};
      if KeyDay(d) == day {
        n := n + 1;
      }
      dates := dates - {d};
      seen := seen + {d};
    }
  }

  /** The loop of `get_user_bookings`: the bookings of one user, each once, in
      the order the dictionary is walked, which is left open. The entry's
      `"date"` is the key it is stored under, which every stored booking also
      records. */
  method ListBookings(mine: map<string, Booking>) returns (list: seq<Booking>)
    requires forall d :: d in mine ==> mine[d].date == d
    ensures |list| == |mine|
    ensures forall i :: 0 <= i < |list| ==> list[i].date in mine && list[i] == mine[list[i].date]
    ensures forall i, j :: 0 <= i < j < |list| ==> list[i].date != list[j].date
  {
    list := [];
    var todo := mine.Keys;
    while todo != {}
      invariant todo <= mine.Keys
      invariant |list| + |todo| == |mine|
      invariant forall i :: 0 <= i < |list| ==> list[i].date in mine && list[i].date !in todo && list[i] == mine[list[i].date]
      invariant forall i, j :: 0 <= i < j < |list| ==> list[i].date != list[j].date
      decreases todo
    {
      var d :| d in todo;
      list := list + [mine[d]];
      todo := todo - {d};
    }
  }

  /** Every stored booking records the date it is stored under. */
  lemma DatesMatchKeys(b: Bookings, user: int)
    requires WellFormed(b) && user in b
    ensures forall d :: d in b[user] ==> b[user][d].date == d
  {
  }

  /** The loop of `get_quotas` over the weekdays of the quota table. */
  method SummarizeQuotas(b: Bookings, q: QuotaTable, ghost totals: map<string, int>, ghost used: map<string, int>)
    returns (s: QuotaSummary)
    requires forall d :: d in q ==> d in totals && totals[d] == SumOver(q[d], q[d].Keys)
    requires q.Keys <= used.Keys
    requires forall d {:trigger DayUsed(b, d)} :: d in q ==> used[d] == DayUsed(b, d)
    ensures SummarizedSoFar(q, totals, used, q.Keys, s.totalQuota, s.totalUsed, s.byDay)
    ensures s.remaining == s.totalQuota - s.totalUsed
  {
    var totalQuota := 0;
    var totalUsed := 0;
    var byDay: map<string, DayQuota> := map[];
    var todo := q.Keys;
    ghost var seen: set<string> := {};
    while todo != {}
      invariant todo + seen == q.Keys && todo !! seen
      invariant SummarizedSoFar(q, totals, used, seen, totalQuota, totalUsed, byDay)
      decreases todo
    {
      ghost var w := Pick(todo);
      var day :| day in todo;
      var dayTotal, dayUsed := DayFigures(b, q, day, totals, used);
      totalQuota, totalUsed, byDay := SummarizeDay(q, day, dayTotal, dayUsed, totals, used, seen,
                                                   totalQuota, totalUsed, byDay);
      todo := todo - {day};
      seen := seen + {day};
    }
    s := QuotaSummary(totalQuota, totalUsed, totalQuota - totalUsed, byDay);
  }

  /** The two sums `get_quotas` takes for one weekday of the table. */
  method DayFigures(b: Bookings, q: QuotaTable, day: string, ghost totals: map<string, int>,
                    ghost used: map<string, int>) returns (dayTotal: int, dayUsed: int)
    requires day in q && day in totals && totals[day] == SumOver(q[day], q[day].Keys)
    requires day in used && used[day] == DayUsed(b, day)
    ensures dayTotal == totals[day] && dayUsed == used[day]
  {
    dayTotal := SumValues(q[day]);
    dayUsed := CountOnWeekday(b, day);
  }

  /** One iteration of the `get_quotas` loop: weekday `day` gets its entry and
      its sums are added to the totals. */
  method SummarizeDay(q: QuotaTable, day: string, dayTotal: int, dayUsed: int, ghost totals: map<string, int>,
                      ghost used: map<string, int>, ghost seen: set<string>,
                      totalQuota: int, totalUsed: int, byDay: map<string, DayQuota>)
    returns (totalQuota': int, totalUsed': int, byDay': map<string, DayQuota>)
    requires day in q && day !in seen
    requires day in totals && totals[day] == dayTotal
    requires day in used && used[day] == dayUsed
    requires SummarizedSoFar(q, totals, used, seen, totalQuota, totalUsed, byDay)
    ensures SummarizedSoFar(q, totals, used, seen + {day}, totalQuota', totalUsed', byDay')
  {
    totalQuota' := totalQuota + dayTotal;
    totalUsed' := totalUsed + dayUsed;
    byDay' := byDay[day := DayQuota(dayTotal, dayUsed, dayTotal - dayUsed, q[day])];
    SummarizedStep(q, totals, used, day, seen, totalQuota, totalUsed, byDay);
  }

  /** `sum(len(user_bookings) for user_bookings in self.bookings.values())`. */
  method TotalBookings(b: Bookings) returns (n: int)
    ensures n == |Entries(b)|
  {
    n := 0;
    var todo := b.Keys;
    ghost var done: set<int> := {};
    while todo != {}
      invariant todo + done == b.Keys && todo !! done
      invariant n == |EntriesOf(b, done)|
      decreases todo
    {
      ghost var w := Pick(todo);
      var u :| u in todo;
      EntriesCountStep(b, done, u);
      n := n + |b[u]|;
      todo := todo - {u};
      done := done + {u};
    }
  }

  /** The `day_stats` and `blood_group_stats` loop of `get_stats`. */
  method Tally(b: Bookings) returns (dayStats: map<string, int>, groupStats: map<string, int>)
    ensures dayStats == Histogram(b, ByWeekday, Entries(b))
    ensures groupStats == Histogram(b, ByBloodGroup, Entries(b))
  {
    dayStats, groupStats := map[], map[];
    ghost var done: set<int> := {};
    var users := b.Keys;
    while users != {}
      invariant users + done == b.Keys && users !! done
      invariant dayStats == Histogram(b, ByWeekday, EntriesOf(b, done))
      invariant groupStats == Histogram(b, ByBloodGroup, EntriesOf(b, done))
      decreases users
    {
      ghost var w := Pick(users);
      var u :| u in users;
      dayStats, groupStats := TallyStep(b, u, done, dayStats, groupStats);
      users := users - {u};
      done := done + {u};
    }
  }

  /** One user of the outer loop of `get_stats`. */
  method TallyStep(b: Bookings, u: int, ghost done: set<int>, dayStats: map<string, int>, groupStats: map<string, int>)
    returns (dayStats': map<string, int>, groupStats': map<string, int>)
    requires u in b && u !in done
    requires dayStats == Histogram(b, ByWeekday, EntriesOf(b, done))
    requires groupStats == Histogram(b, ByBloodGroup, EntriesOf(b, done))
    ensures dayStats' == Histogram(b, ByWeekday, EntriesOf(b, done + {u}))
    ensures groupStats' == Histogram(b, ByBloodGroup, EntriesOf(b, done + {u}))
  {
    EntriesOfAddUser(b, done, u);
    dayStats', groupStats' := TallyUser(b, u, EntriesOf(b, done), dayStats, groupStats);
  }

  /** The inner loop of `get_stats`: count one user's bookings into both tables. */
  method TallyUser(b: Bookings, u: int, ghost base: set<Entry>, dayStats: map<string, int>, groupStats: map<string, int>)
    returns (dayStats': map<string, int>, groupStats': map<string, int>)
    requires u in b && base !! Pairs(u, b[u].Keys)
    requires dayStats == Histogram(b, ByWeekday, base) && groupStats == Histogram(b, ByBloodGroup, base)
    ensures dayStats' == Histogram(b, ByWeekday, base + Pairs(u, b[u].Keys))
    ensures groupStats' == Histogram(b, ByBloodGroup, base + Pairs(u, b[u].Keys))
  {
    dayStats', groupStats' := dayStats, groupStats;
    var dates := b[u].Keys;
    ghost var seen: set<string> := {};
    assert base + Pairs(u, seen) == base;
    while dates != {}
      invariant dates + seen == b[u].Keys && dates !! seen
      invariant dayStats' == Histogram(b, ByWeekday, base + Pairs(u, seen))
      invariant groupStats' == Histogram(b, ByBloodGroup, base + Pairs(u, seen))
      decreases dates
    {
      var d :| d in dates;
      assert (u, d) in Pairs(u, b[u].Keys);
      dayStats', groupStats' := TallyBooking(b, u, d, base, seen, dayStats', groupStats');
      dates := dates - {d};
      seen := seen + {d};
    }
  }

  /** One iteration of the `get_stats` loop: the booking's weekday and blood
      group are each counted once more. */
  method TallyBooking(b: Bookings, u: int, d: string, ghost base: set<Entry>, ghost seen: set<string>,
                      dayStats: map<string, int>, groupStats: map<string, int>)
    returns (dayStats': map<string, int>, groupStats': map<string, int>)
    requires u in b && d in b[u] && (u, d) !in base && d !in seen
    requires dayStats == Histogram(b, ByWeekday, base + Pairs(u, seen))
    requires groupStats == Histogram(b, ByBloodGroup, base + Pairs(u, seen))
    ensures dayStats' == Histogram(b, ByWeekday, base + Pairs(u, seen + {d}))
    ensures groupStats' == Histogram(b, ByBloodGroup, base + Pairs(u, seen + {d}))
  {
    HistogramStep(b, ByWeekday, base, u, seen, d);
    HistogramStep(b, ByBloodGroup, base, u, seen, d);
    assert FacetOf(b, ByWeekday, (u, d)) == KeyDay(d);
    assert FacetOf(b, ByBloodGroup, (u, d)) == b[u][d].bloodGroup;
    var day := KeyDay(d);
    dayStats' := dayStats[day := (if day in dayStats then dayStats[day] else 0) + 1];
    assert dayStats' == Bump(dayStats, day);
    var group := b[u][d].bloodGroup;
    groupStats' := groupStats[group := (if group in groupStats then groupStats[group] else 0) + 1];
    assert groupStats' == Bump(groupStats, group);
  }

  /** `max(stats.items(), key=lambda x: x[1])[0] if stats else "нет данных"`. */
  method MostPopular(h: map<string, int>) returns (k: string)
    ensures IsMostPopular(h, k)
  {
    if h == map[] {
      return "нет данных";
    }
    var todo := h.Keys;
    k :| k in todo;
    todo := todo - {k};
    while todo != {}
      invariant todo <= h.Keys && k in h
      invariant forall k2 :: k2 in h && k2 !in todo ==> h[k2] <= h[k]
      decreases todo
    {
      var k2 :| k2 in todo;
      if h[k2] > h[k] {
        k := k2;
      }
      todo := todo - {k2};
    }
  }
}
