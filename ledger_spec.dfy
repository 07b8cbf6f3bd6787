/** What the local ledger (`LocalStorage`) computes, as functions of its state:
    the bookings map `user_id -> (date -> Booking)`, the quota table
    `weekday -> (blood group -> places)` and the working-hours schedule. The
    class in module `Ledger` is proved to compute exactly these; the lemmas
    here prove what the program promises about them. */
module LedgerSpec {
  import opened Wrappers
  import opened Text
  import opened Calendar
  import opened Api
  import opened Sets

  type Bookings = map<int, map<string, Booking>>
  type QuotaTable = map<string, map<string, int>>

  const BloodGroups: seq<string> := ["A+", "A-", "B+", "B-", "AB+", "AB-", "O+", "O-"]

  /** The fourteen half-hour slots from 07:30 to 14:00. */
  const WorkingHours: seq<string> :=
    ["07:30", "08:00", "08:30", "09:00", "09:30", "10:00", "10:30",
     "11:00", "11:30", "12:00", "12:30", "13:00", "13:30", "14:00"]

  function BaseQuotas(): map<string, int> {
    map["A+" := 10, "A-" := 5, "B+" := 10, "B-" := 5, "AB+" := 5, "AB-" := 3, "O+" := 10, "O-" := 5]
  }

  function WeekendQuotas(): map<string, int> {
    map["A+" := 8, "A-" := 4, "B+" := 8, "B-" := 4, "AB+" := 3, "AB-" := 2, "O+" := 8, "O-" := 4]
  }

  predicate IsWeekend(day: string) {
    day == "суббота" || day == "воскресенье"
  }

  /** `_get_default_quotas`: every weekday gets a table for the eight groups;
      Saturday and Sunday get the smaller weekend table. */
  function DefaultQuotas(): QuotaTable {
    map day | day in DayNames :: DayTable(day)
  }

  /** The default table covers the seven weekdays and, for each, exactly the
      eight blood groups with a positive quota; weekdays take the base table,
      Saturday and Sunday the weekend one, which is never larger. */
  lemma DefaultQuotasShape()
    ensures forall i :: 0 <= i < 7 ==> DayNames[i] in DefaultQuotas()
    ensures forall day :: day in DefaultQuotas() ==> day in DayNames
    ensures forall day, g :: day in DefaultQuotas() && g in BloodGroups ==> g in DefaultQuotas()[day] && DefaultQuotas()[day][g] > 0
    ensures forall day, g :: day in DefaultQuotas() && g in DefaultQuotas()[day] ==> g in BloodGroups
    ensures forall day, g :: day in DefaultQuotas() && g in DefaultQuotas()[day] && !IsWeekend(day) ==>
      g in BaseQuotas() && DefaultQuotas()[day][g] == BaseQuotas()[g]
    ensures forall day, g :: day in DefaultQuotas() && g in DefaultQuotas()[day] && IsWeekend(day) ==>
      g in WeekendQuotas() && g in BaseQuotas() && DefaultQuotas()[day][g] == WeekendQuotas()[g] <= BaseQuotas()[g]
  {
  }

  /** The table `_get_default_quotas` copies for one weekday. */
  function DayTable(day: string): map<string, int> {
    if IsWeekend(day) then WeekendQuotas() else BaseQuotas()
  }

  /** `self.quotas[day].get(group, 0)`, with an absent weekday also counting as 0. */
  function QuotaOf(q: QuotaTable, day: string, group: string): int {
    if day in q && group in q[day] then q[day][group] else 0
  }

  /** `s[:3]`. */
  function Prefix3(s: string): string {
    if |s| <= 3 then s else s[..3]
  }

  /** The ticket `f"Т-{day[:3]}-{blood_group}-{n}"` for the random draw `n`. */
  function Ticket(day: string, group: string, draw: int): string
    requires 1000 <= draw <= 9999
  {
    "Т-" + Prefix3(day) + "-" + group + "-" + NatToString(draw)
  }

  /** `_add_booking_sync`: store `bk` as the booking of its user on its date,
      creating the user's inner map when needed and replacing what was there. */
  function Insert(b: Bookings, bk: Booking): Bookings {
    b[bk.userId := (if bk.userId in b then b[bk.userId] else map[])[bk.date := bk]]
  }

  /** The deletion of `cancel_booking`: drop the entry and, when the user's
      inner map becomes empty, the user. */
  function Remove(b: Bookings, user: int, date: string): Bookings
    requires user in b
  {
    var inner := b[user] - {date};
    if inner == map[] then b - {user} else b[user := inner]
  }

  /** The users holding a booking for `group` on `date`. */
  function UsersOn(b: Bookings, date: string, group: string): set<int> {
    set u | u in b && date in b[u] && b[u][date].bloodGroup == group
  }

  /** The `used_quota` count of `register` and `get_free_times`. */
  function UsedQuota(b: Bookings, date: string, group: string): nat {
    |UsersOn(b, date, group)|
  }

  /** The `busy_times` of `get_free_times`, as a set. */
  function BusyTimes(b: Bookings, date: string, group: string): set<string> {
    set u | u in UsersOn(b, date, group) :: b[u][date].time
  }

  /** Some booking on `date` already holds `time` for `group`. */
  predicate SlotHeld(b: Bookings, date: string, time: string, group: string) {
    exists u :: u in b && date in b[u] && b[u][date].time == time && b[u][date].bloodGroup == group
  }

  /** `[t for t in hours if t not in busy]`. */
  function Without(hours: seq<string>, busy: set<string>): seq<string> {
    if hours == [] then []
    else Without(hours[..|hours| - 1], busy) + (if hours[|hours| - 1] in busy then [] else [hours[|hours| - 1]])
  }

  function Max0(x: int): int {
    if x < 0 then 0 else x
  }

  // ---------------------------------------------------------------- invariants

  /** A stored entry describes itself: it records its own user and date, its
      date parses, and its weekday is the parsed date's. */
  predicate EntryOk(bk: Booking, user: int, date: string) {
    bk.userId == user && bk.date == date && ParseDate(date).Some? && bk.day == DayName(ParseDate(date).value)
  }

  ghost predicate WellFormed(b: Bookings) {
    (forall u :: u in b ==> b[u] != map[])
    && (forall u, d :: u in b && d in b[u] ==> EntryOk(b[u][d], u, d))
  }

  /** At most one booking per (date, time, group). */
  ghost predicate NoDoubleSlot(b: Bookings) {
    forall u1, u2, d ::
      (u1 in b && u2 in b && d in b[u1] && d in b[u2]
       && b[u1][d].time == b[u2][d].time && b[u1][d].bloodGroup == b[u2][d].bloodGroup)
      ==> u1 == u2
  }

  /** The number of bookings of a (date, group) never exceeds the quota of the date's weekday. */
  ghost predicate WithinQuota(b: Bookings, q: QuotaTable) {
    forall u, d :: u in b && d in b[u] ==>
      UsedQuota(b, d, b[u][d].bloodGroup) <= QuotaOf(q, b[u][d].day, b[u][d].bloodGroup)
  }

  /** The ledger invariant. One booking per (user, date) holds by the shape of the map. */
  ghost predicate Inv(b: Bookings, q: QuotaTable) {
    WellFormed(b) && NoDoubleSlot(b) && WithinQuota(b, q)
  }

  // ---------------------------------------------------------------- operations

  /** `check_existing`: the user's booking on `date`, if any. */
  function CheckExistingSpec(b: Bookings, date: string, user: int): ApiResponse {
    Success(Existing(if user in b && date in b[user] then Some(b[user][date]) else None))
  }

  /** `get_free_times`: the working hours not taken for the group on that date,
      with the group's quota; an error when the date does not parse or its
      weekday has no quota table. */
  function FreeTimesSpec(b: Bookings, q: QuotaTable, hours: seq<string>, date: string, group: string): ApiResponse {
    match ParseDate(date)
    case None => Error(SlotsUnavailable(date))
    case Some(n) =>
      if DayName(n) !in q then Error(SlotsUnavailable(date))
      else
        var total := QuotaOf(q, DayName(n), group);
        var used := UsedQuota(b, date, group);
        Success(Slots(Without(hours, BusyTimes(b, date, group)), Max0(total - used), total, used))
  }

  /** `register` with the duplicate check done as a direct lookup: the answer
      and the new bookings. */
  function RegisterSpec(b: Bookings, q: QuotaTable, date: string, group: string, time: string,
                        user: int, draw: int): (ApiResponse, Bookings)
    requires 1000 <= draw <= 9999
  {
    match ParseDate(date)
    case None => (Error(BadDateFormat(date)), b)
    case Some(n) =>
      var day := DayName(n);
      if user in b && date in b[user] then (Error(AlreadyBooked(date)), b)
      else if SlotHeld(b, date, time, group) then (Error(TimeTaken(time)), b)
      else if day !in q then (Error(NoQuotasFor(day)), b)
      else
        var total := QuotaOf(q, day, group);
        var used := UsedQuota(b, date, group);
        if used >= total then (Error(QuotaExhausted(date)), b)
        else
          var bk := Booking(Ticket(day, group, draw), date, time, group, day, user);
          (Success(Registered(bk, Max0(total - used - 1), total, used + 1)), Insert(b, bk))
  }

  /** `cancel_booking`: succeeds only for the user's booking on `date` with that ticket. */
  function CancelSpec(b: Bookings, date: string, ticket: string, user: int): (ApiResponse, Bookings) {
    if user in b && date in b[user] && b[user][date].ticket == ticket then
      (Success(Cancelled(b[user][date])), Remove(b, user, date))
    else
      (Error(BookingNotFound), b)
  }

  // ---------------------------------------------------------------- invariant preservation

  lemma InsertLookup(b: Bookings, bk: Booking, u: int, d: string)
    ensures var nb := Insert(b, bk);
      (u in nb && d in nb[u]) <==> ((u == bk.userId && d == bk.date) || (u in b && d in b[u]))
    ensures var nb := Insert(b, bk);
      u in nb && d in nb[u] ==> nb[u][d] == if u == bk.userId && d == bk.date then bk else b[u][d]
  {
  }

  lemma RemoveLookup(b: Bookings, user: int, date: string, u: int, d: string)
    requires user in b
    ensures var nb := Remove(b, user, date);
      (u in nb && d in nb[u]) <==> (u in b && d in b[u] && (u != user || d != date))
    ensures var nb := Remove(b, user, date);
      u in nb && d in nb[u] ==> nb[u][d] == b[u][d]
  {
    var inner := b[user] - {date};
    assert d in b[user] && d != date ==> d in inner;
  }

  lemma UsersOnInsert(b: Bookings, bk: Booking, date: string, group: string)
    requires !(bk.userId in b && bk.date in b[bk.userId])
    ensures UsersOn(Insert(b, bk), date, group) ==
      if date == bk.date && group == bk.bloodGroup then UsersOn(b, date, group) + {bk.userId}
      else UsersOn(b, date, group)
  {
    forall u ensures (u in UsersOn(Insert(b, bk), date, group)) <==>
      (u in (if date == bk.date && group == bk.bloodGroup then UsersOn(b, date, group) + {bk.userId}
             else UsersOn(b, date, group)))
    {
      InsertLookup(b, bk, u, date);
    }
  }

  lemma UsersOnRemove(b: Bookings, user: int, date: string, d: string, g: string)
    requires user in b
    ensures UsersOn(Remove(b, user, date), d, g) ==
      if d == date then UsersOn(b, d, g) - {user} else UsersOn(b, d, g)
  {
    forall u ensures (u in UsersOn(Remove(b, user, date), d, g)) <==>
      (u in (if d == date then UsersOn(b, d, g) - {user} else UsersOn(b, d, g)))
    {
      RemoveLookup(b, user, date, u, d);
    }
  }

  /** Storing a booking that passed the checks of `register` keeps the invariant. */
  lemma InsertKeepsInv(b: Bookings, q: QuotaTable, bk: Booking)
    requires Inv(b, q)
    requires EntryOk(bk, bk.userId, bk.date)
    requires !(bk.userId in b && bk.date in b[bk.userId])
    requires !SlotHeld(b, bk.date, bk.time, bk.bloodGroup)
    requires UsedQuota(b, bk.date, bk.bloodGroup) < QuotaOf(q, bk.day, bk.bloodGroup)
    ensures Inv(Insert(b, bk), q)
  {
    var nb := Insert(b, bk);
    forall u, d | u in nb && d in nb[u] ensures EntryOk(nb[u][d], u, d) {
      InsertLookup(b, bk, u, d);
    }
    forall u | u in nb ensures nb[u] != map[] {
      if u == bk.userId {
        assert bk.date in nb[u];
      }
    }
    assert WellFormed(nb);
    forall u1, u2, d | u1 in nb && u2 in nb && d in nb[u1] && d in nb[u2]
      && nb[u1][d].time == nb[u2][d].time && nb[u1][d].bloodGroup == nb[u2][d].bloodGroup
      ensures u1 == u2
    {
      InsertLookup(b, bk, u1, d);
      InsertLookup(b, bk, u2, d);
    }
    assert NoDoubleSlot(nb);
    forall u, d | u in nb && d in nb[u]
      ensures UsedQuota(nb, d, nb[u][d].bloodGroup) <= QuotaOf(q, nb[u][d].day, nb[u][d].bloodGroup)
    {
      InsertLookup(b, bk, u, d);
      var g := nb[u][d].bloodGroup;
      UsersOnInsert(b, bk, d, g);
      if d == bk.date && g == bk.bloodGroup {
        assert nb[u][d].day == bk.day;
      }
    }
  }

  /** Deleting a booking keeps the invariant. */
  lemma RemoveKeepsInv(b: Bookings, q: QuotaTable, user: int, date: string)
    requires Inv(b, q) && user in b
    ensures Inv(Remove(b, user, date), q)
  {
    var nb := Remove(b, user, date);
    forall u, d | u in nb && d in nb[u] ensures EntryOk(nb[u][d], u, d) {
      RemoveLookup(b, user, date, u, d);
    }
    forall u | u in nb ensures nb[u] != map[] {
      if u == user {
        assert nb[u] == b[u] - {date};
      }
    }
    assert WellFormed(nb);
    forall u1, u2, d | u1 in nb && u2 in nb && d in nb[u1] && d in nb[u2]
      && nb[u1][d].time == nb[u2][d].time && nb[u1][d].bloodGroup == nb[u2][d].bloodGroup
      ensures u1 == u2
    {
      RemoveLookup(b, user, date, u1, d);
      RemoveLookup(b, user, date, u2, d);
    }
    assert NoDoubleSlot(nb);
    forall u, d | u in nb && d in nb[u]
      ensures UsedQuota(nb, d, nb[u][d].bloodGroup) <= QuotaOf(q, nb[u][d].day, nb[u][d].bloodGroup)
    {
      RemoveLookup(b, user, date, u, d);
      var g := nb[u][d].bloodGroup;
      UsersOnRemove(b, user, date, d, g);
      SubsetCard(UsersOn(nb, d, g), UsersOn(b, d, g));
    }
  }

  /** `register` keeps the invariant. */
  lemma RegisterKeepsInv(b: Bookings, q: QuotaTable, date: string, group: string, time: string,
                         user: int, draw: int)
    requires Inv(b, q) && 1000 <= draw <= 9999
    ensures Inv(RegisterSpec(b, q, date, group, time, user, draw).1, q)
  {
    if RegisterSpec(b, q, date, group, time, user, draw).0.Success? {
      var day := DayName(ParseDate(date).value);
      InsertKeepsInv(b, q, Booking(Ticket(day, group, draw), date, time, group, day, user));
    }
  }

  /** `cancel_booking` keeps the invariant. */
  lemma CancelKeepsInv(b: Bookings, q: QuotaTable, date: string, ticket: string, user: int)
    requires Inv(b, q)
    ensures Inv(CancelSpec(b, date, ticket, user).1, q)
  {
    if user in b && date in b[user] && b[user][date].ticket == ticket {
      RemoveKeepsInv(b, q, user, date);
    }
  }

  /** A call that changes the bookings. */
  datatype Mutation =
    | Reserve(date: string, group: string, time: string, user: int, draw: int)
    | Cancel(date: string, ticket: string, user: int)

  predicate DrawOk(m: Mutation) {
    m.Reserve? ==> 1000 <= m.draw <= 9999
  }

  function Apply(b: Bookings, q: QuotaTable, m: Mutation): Bookings
    requires DrawOk(m)
  {
    match m
    case Reserve(date, group, time, user, draw) => RegisterSpec(b, q, date, group, time, user, draw).1
    case Cancel(date, ticket, user) => CancelSpec(b, date, ticket, user).1
  }

  /** The bookings after a sequence of calls, in order. */
  function Run(b: Bookings, q: QuotaTable, ms: seq<Mutation>): Bookings
    requires forall i :: 0 <= i < |ms| ==> DrawOk(ms[i])
  {
    if ms == [] then b else Apply(Run(b, q, ms[..|ms| - 1]), q, ms[|ms| - 1])
  }

  /** Any sequence of `register`/`cancel_booking` calls keeps the invariant. */
  lemma {:induction false} RunKeepsInv(b: Bookings, q: QuotaTable, ms: seq<Mutation>)
    requires Inv(b, q)
    requires forall i :: 0 <= i < |ms| ==> DrawOk(ms[i])
    ensures Inv(Run(b, q, ms), q)
  {
    if ms != [] {
      var prefix := ms[..|ms| - 1];
      RunKeepsInv(b, q, prefix);
      match ms[|ms| - 1]
      case Reserve(date, group, time, user, draw) =>
        RegisterKeepsInv(Run(b, q, prefix), q, date, group, time, user, draw);
      case Cancel(date, ticket, user) =>
        CancelKeepsInv(Run(b, q, prefix), q, date, ticket, user);
    }
  }

  // ---------------------------------------------------------------- register and cancel

  /** `register` refuses exactly when the date does not parse, the user already
      has a booking that day, the slot is held for the group, the weekday has
      no quota table, or the group's quota for the date is used up (a group
      missing from the table has quota 0); a refusal changes nothing. */
  lemma RegisterRejects(b: Bookings, q: QuotaTable, date: string, group: string, time: string,
                        user: int, draw: int)
    requires 1000 <= draw <= 9999
    ensures RegisterSpec(b, q, date, group, time, user, draw).0.Error? <==>
        (ParseDate(date).None?
         || (user in b && date in b[user])
         || SlotHeld(b, date, time, group)
         || DayName(ParseDate(date).value) !in q
         || UsedQuota(b, date, group) >= QuotaOf(q, DayName(ParseDate(date).value), group))
    ensures RegisterSpec(b, q, date, group, time, user, draw).0.Error? ==>
      RegisterSpec(b, q, date, group, time, user, draw).1 == b
    ensures ParseDate(date).Some? && user in b && date in b[user] ==>
      RegisterSpec(b, q, date, group, time, user, draw).0 == Error(AlreadyBooked(date))
  {
  }

  /** A successful `register` stores the new booking, with the given date,
      time, group and user and the date's weekday, and reports the quota as it
      stands after the booking. */
  lemma RegisterAdds(b: Bookings, q: QuotaTable, date: string, group: string, time: string,
                     user: int, draw: int)
    requires 1000 <= draw <= 9999
    requires RegisterSpec(b, q, date, group, time, user, draw).0.Success?
    ensures var (r, nb) := RegisterSpec(b, q, date, group, time, user, draw);
      var day := DayName(ParseDate(date).value);
      var total := QuotaOf(q, day, group);
      var used := UsedQuota(b, date, group);
      && r.data.Registered?
      && r.data.booking == Booking(Ticket(day, group, draw), date, time, group, day, user)
      && r.data.quotaUsed == used + 1 == UsedQuota(nb, date, group)
      && r.data.quotaTotal == total
      && r.data.quotaRemaining == total - (used + 1) >= 0
      && nb == Insert(b, r.data.booking)
  {
    var (r, nb) := RegisterSpec(b, q, date, group, time, user, draw);
    UsersOnInsert(b, r.data.booking, date, group);
  }

  /** A successful `register` adds one entry and changes no other. */
  lemma RegisterChangesOnlyItsEntry(b: Bookings, q: QuotaTable, date: string, group: string,
                                    time: string, user: int, draw: int, u: int, d: string)
    requires 1000 <= draw <= 9999
    requires RegisterSpec(b, q, date, group, time, user, draw).0.Success?
    requires u != user || d != date
    ensures var nb := RegisterSpec(b, q, date, group, time, user, draw).1;
      && ((u in nb && d in nb[u]) <==> (u in b && d in b[u]))
      && (u in b && d in b[u] ==> nb[u][d] == b[u][d])
      && (u in nb <==> u in b || u == user)
  {
    var (r, nb) := RegisterSpec(b, q, date, group, time, user, draw);
    InsertLookup(b, r.data.booking, u, d);
  }

  lemma NatToStringFourDigits(n: nat)
    requires 1000 <= n <= 9999
    ensures |NatToString(n)| == 4
  {
    var c := n / 10 / 10 / 10;
    assert 1 <= c < 10;
    assert |NatToString(c)| == 1;
    assert |NatToString(n / 10 / 10)| == 2;
    assert |NatToString(n / 10)| == 3;
  }

  /** The ticket is `Т-`, the first three letters of the weekday, the group and
      a four-digit number in 1000..9999, each separated by `-`. */
  lemma TicketShape(day: string, group: string, draw: int)
    requires 1000 <= draw <= 9999
    ensures var t := Ticket(day, group, draw);
      var head := "Т-" + Prefix3(day) + "-" + group + "-";
      && |t| == |head| + 4
      && t[..|head|] == head
      && (forall i :: |head| <= i < |t| ==> IsDigit(t[i]))
      && DigitsValue(t[|head|..]) == draw
  {
    NatToStringFourDigits(draw);
    var head := "Т-" + Prefix3(day) + "-" + group + "-";
    assert Ticket(day, group, draw) == head + NatToString(draw);
    assert Ticket(day, group, draw)[|head|..] == NatToString(draw);
  }

  /** Tickets depend only on the weekday, the group and the drawn number, so
      bookings a week apart can carry the same ticket: tickets are not unique. */
  lemma TicketsMayCollide(n: int, group: string, draw: int)
    requires 1000 <= draw <= 9999
    ensures Ticket(DayName(n), group, draw) == Ticket(DayName(n + 7), group, draw)
  {
    assert Weekday(n + 7) == Weekday(n);
  }

  /** After a successful `register`, `check_existing` finds the new booking. */
  lemma RegisterThenCheck(b: Bookings, q: QuotaTable, date: string, group: string, time: string,
                          user: int, draw: int)
    requires 1000 <= draw <= 9999
    requires RegisterSpec(b, q, date, group, time, user, draw).0.Success?
    ensures var (r, nb) := RegisterSpec(b, q, date, group, time, user, draw);
      CheckExistingSpec(nb, date, user) == Success(Existing(Some(r.data.booking)))
  {
  }

  /** After a successful `cancel_booking`, `check_existing` finds nothing. */
  lemma CancelThenCheck(b: Bookings, date: string, ticket: string, user: int)
    requires CancelSpec(b, date, ticket, user).0.Success?
    ensures CheckExistingSpec(CancelSpec(b, date, ticket, user).1, date, user) == Success(Existing(None))
  {
    RemoveLookup(b, user, date, user, date);
  }

  lemma InsertThenRemove(b: Bookings, bk: Booking)
    requires WellFormed(b) && !(bk.userId in b && bk.date in b[bk.userId])
    ensures Remove(Insert(b, bk), bk.userId, bk.date) == b
  {
    var u := bk.userId;
    var inner := (if u in b then b[u] else map[])[bk.date := bk];
    var nb := b[u := inner];
    assert Insert(b, bk) == nb;
    if u in b {
      assert inner - {bk.date} == b[u];
      assert Remove(nb, u, bk.date) == nb[u := b[u]];
      assert nb[u := b[u]] == b;
    } else {
      assert inner - {bk.date} == map[];
      assert Remove(nb, u, bk.date) == nb - {u};
      assert nb - {u} == b;
    }
  }

  /** Registering and then cancelling with the issued ticket gives back the
      bookings as they were. */
  lemma RegisterThenCancel(b: Bookings, q: QuotaTable, date: string, group: string, time: string,
                           user: int, draw: int)
    requires 1000 <= draw <= 9999 && WellFormed(b)
    requires RegisterSpec(b, q, date, group, time, user, draw).0.Success?
    ensures var (r, nb) := RegisterSpec(b, q, date, group, time, user, draw);
      CancelSpec(nb, date, r.data.booking.ticket, user) == (Success(Cancelled(r.data.booking)), b)
  {
    var (r, nb) := RegisterSpec(b, q, date, group, time, user, draw);
    RegisterAdds(b, q, date, group, time, user, draw);
    InsertThenRemove(b, r.data.booking);
  }

  /** `cancel_booking` succeeds exactly when the user has a booking on `date`
      carrying `ticket`, answering with that booking; a refusal changes nothing. */
  lemma CancelAnswers(b: Bookings, date: string, ticket: string, user: int)
    ensures CancelSpec(b, date, ticket, user).0.Success? <==>
      (user in b && date in b[user] && b[user][date].ticket == ticket)
    ensures CancelSpec(b, date, ticket, user).0.Success? ==>
      CancelSpec(b, date, ticket, user).0.data == Cancelled(b[user][date])
    ensures CancelSpec(b, date, ticket, user).0.Error? ==>
      CancelSpec(b, date, ticket, user) == (Error(BookingNotFound), b)
  {
  }

  /** A successful `cancel_booking` deletes only its entry, and drops the user
      exactly when no booking of theirs is left. */
  lemma CancelRemovesOnlyItsEntry(b: Bookings, date: string, ticket: string, user: int, u: int, d: string)
    requires CancelSpec(b, date, ticket, user).0.Success?
    ensures var nb := CancelSpec(b, date, ticket, user).1;
      && ((u in nb && d in nb[u]) <==> (u in b && d in b[u] && (u != user || d != date)))
      && (u in nb && d in nb[u] ==> nb[u][d] == b[u][d])
      && (user !in nb <==> b[user].Keys == {date})
  {
    RemoveLookup(b, user, date, u, d);
    var inner := b[user] - {date};
    if inner == map[] {
      forall k | k in b[user] ensures k == date {
        assert k != date ==> k in inner;
      }
    } else {
      var k :| k in inner;
      assert k in b[user].Keys && k != date;
    }
  }

  /** Once a booking is cancelled, its slot can be booked again by another user
      who has no booking that day. */
  lemma CancelThenReserve(b: Bookings, q: QuotaTable, date: string, ticket: string, user: int,
                          other: int, draw: int)
    requires Inv(b, q) && 1000 <= draw <= 9999
    requires CancelSpec(b, date, ticket, user).0.Success?
    requires other != user && !(other in b && date in b[other])
    ensures var bk := b[user][date];
      RegisterSpec(CancelSpec(b, date, ticket, user).1, q, date, bk.bloodGroup, bk.time, other, draw).0.Success?
  {
    var bk := b[user][date];
    var nb := Remove(b, user, date);
    var g := bk.bloodGroup;
    UsersOnRemove(b, user, date, date, g);
    assert user in UsersOn(b, date, g);
    assert UsersOn(nb, date, g) < UsersOn(b, date, g);
    assert UsedQuota(nb, date, g) < UsedQuota(b, date, g);
    RemoveLookup(b, user, date, other, date);
    if SlotHeld(nb, date, bk.time, g) {
      var u :| u in nb && date in nb[u] && nb[u][date].time == bk.time && nb[u][date].bloodGroup == g;
      RemoveLookup(b, user, date, u, date);
      assert false;
    }
  }

  // ---------------------------------------------------------------- free times

  /** `a` is `b` with some elements left out, the rest in their order. */
  predicate IsSubsequence(a: seq<string>, b: seq<string>)
    decreases |b|
  {
    if a == [] then true
    else if b == [] then false
    else if a[|a| - 1] == b[|b| - 1] then IsSubsequence(a[..|a| - 1], b[..|b| - 1])
    else IsSubsequence(a, b[..|b| - 1])
  }

  lemma {:induction false} SubsequenceWeaken(a: seq<string>, b: seq<string>, x: string)
    requires IsSubsequence(a, b)
    ensures IsSubsequence(a, b + [x])
    decreases |b|, 1
  {
    assert (b + [x])[..|b|] == b;
    if a != [] && a[|a| - 1] == x {
      SubsequenceDropLast(a, b);
    }
  }

  lemma {:induction false} SubsequenceDropLast(a: seq<string>, b: seq<string>)
    requires a != [] && IsSubsequence(a, b)
    ensures IsSubsequence(a[..|a| - 1], b)
    decreases |b|, 0
  {
    var init := b[..|b| - 1];
    assert b == init + [b[|b| - 1]];
    if a[|a| - 1] == b[|b| - 1] {
      SubsequenceWeaken(a[..|a| - 1], init, b[|b| - 1]);
    } else {
      SubsequenceDropLast(a, init);
      SubsequenceWeaken(a[..|a| - 1], init, b[|b| - 1]);
    }
  }

  /** The free times are the working hours that are not busy, in schedule order. */
  lemma {:induction false} WithoutMembers(hours: seq<string>, busy: set<string>)
    ensures forall t :: t in Without(hours, busy) <==> t in hours && t !in busy
    ensures IsSubsequence(Without(hours, busy), hours)
  {
    if hours != [] {
      var init := hours[..|hours| - 1];
      var x := hours[|hours| - 1];
      var w := Without(init, busy);
      WithoutMembers(init, busy);
      assert hours == init + [x];
      if x in busy {
        assert Without(hours, busy) == w;
        SubsequenceWeaken(w, init, x);
      } else {
        assert Without(hours, busy) == w + [x];
        assert (w + [x])[..|w|] == w;
      }
    }
  }

  /** `get_free_times` answers, for a parsable date whose weekday has a quota
      table, the hours not busy for the group, in schedule order, with
      `quota = max(0, total - used)`; otherwise it is an error. */
  lemma FreeTimesAnswer(b: Bookings, q: QuotaTable, hours: seq<string>, date: string, group: string)
    ensures FreeTimesSpec(b, q, hours, date, group).Success? <==>
      ParseDate(date).Some? && DayName(ParseDate(date).value) in q
    ensures FreeTimesSpec(b, q, hours, date, group).Error? ==>
      FreeTimesSpec(b, q, hours, date, group).failure == SlotsUnavailable(date)
    ensures var r := FreeTimesSpec(b, q, hours, date, group);
      r.Success? ==>
        var total := QuotaOf(q, DayName(ParseDate(date).value), group);
        && r.data.Slots?
        && (forall t :: t in r.data.times <==> t in hours && t !in BusyTimes(b, date, group))
        && IsSubsequence(r.data.times, hours)
        && r.data.quotaTotal == total
        && r.data.quotaUsed == UsedQuota(b, date, group)
        && r.data.quota == Max0(total - UsedQuota(b, date, group))
  {
    WithoutMembers(hours, BusyTimes(b, date, group));
  }

  lemma {:induction false} InjectiveImageCard(b: Bookings, date: string, users: set<int>)
    requires forall u :: u in users ==> u in b && date in b[u]
    requires forall u1, u2 :: u1 in users && u2 in users && b[u1][date].time == b[u2][date].time ==> u1 == u2
    ensures |set u | u in users :: b[u][date].time| == |users|
  {
    if users != {} {
      var x := Pick(users);
      var rest := users - {x};
      InjectiveImageCard(b, date, rest);
      var img := set u | u in users :: b[u][date].time;
      var imgRest := set u | u in rest :: b[u][date].time;
      assert img == imgRest + {b[x][date].time};
      assert b[x][date].time !in imgRest;
    }
  }

  /** Under the invariant each busy time is held by one booking, so the number
      of busy times is the used quota. */
  lemma BusyTimesCount(b: Bookings, q: QuotaTable, date: string, group: string)
    requires Inv(b, q)
    ensures |BusyTimes(b, date, group)| == UsedQuota(b, date, group)
  {
    InjectiveImageCard(b, date, UsersOn(b, date, group));
  }

  // ---------------------------------------------------------------- dates as days

  /* The ledger keys its entries on the date text it was given. `strptime`
     reads several spellings of one day (`2030-01-02`, `2030-1-2`,
     `2030-01- 2`), so the invariant above is a statement about texts; read
     per day, it holds when every key is the `%Y-%m-%d` text `strftime`
     writes, which is the form of every date the bot offers. */

  ghost predicate CanonicalKeys(b: Bookings) {
    forall u, d :: u in b && d in b[u] ==> CanonicalDate(d)
  }

  /** The users holding a booking for `group` on day `n`, under any spelling. */
  ghost function UsersOnDay(b: Bookings, n: int, group: string): set<int> {
    set u, d | u in b && d in b[u] && ParseDate(d) == Some(n) && b[u][d].bloodGroup == group :: u
  }

  /** With canonical keys the invariant holds per calendar day: a user holds
      at most one booking a day, and a (day, time, group) slot is held at
      most once. */
  lemma PerDayUnique(b: Bookings, q: QuotaTable)
    requires Inv(b, q) && CanonicalKeys(b)
    ensures forall u, d1, d2 :: u in b && d1 in b[u] && d2 in b[u] && ParseDate(d1) == ParseDate(d2) ==> d1 == d2
    ensures forall u1, u2, d1, d2 ::
      (u1 in b && u2 in b && d1 in b[u1] && d2 in b[u2] && ParseDate(d1) == ParseDate(d2)
       && b[u1][d1].time == b[u2][d2].time && b[u1][d1].bloodGroup == b[u2][d2].bloodGroup)
      ==> u1 == u2 && d1 == d2
  {
    forall u, d1, d2 | u in b && d1 in b[u] && d2 in b[u] && ParseDate(d1) == ParseDate(d2) ensures d1 == d2 {
      CanonicalSameDay(d1, d2);
    }
    forall u1, u2, d1, d2 |
      u1 in b && u2 in b && d1 in b[u1] && d2 in b[u2] && ParseDate(d1) == ParseDate(d2)
      && b[u1][d1].time == b[u2][d2].time && b[u1][d1].bloodGroup == b[u2][d2].bloodGroup
      ensures u1 == u2 && d1 == d2
    {
      CanonicalSameDay(d1, d2);
    }
  }

  /** With canonical keys the bookings of a group on a day are those under
      the day's one text, so they stay within the day's quota. */
  lemma PerDayQuota(b: Bookings, q: QuotaTable)
    requires Inv(b, q) && CanonicalKeys(b)
    ensures forall n, g :: 1 <= n <= MaxOrdinal ==> UsersOnDay(b, n, g) == UsersOn(b, FormatDate(n), g)
    ensures forall u, d :: u in b && d in b[u] ==>
      |UsersOnDay(b, ParseDate(d).value, b[u][d].bloodGroup)| <= QuotaOf(q, b[u][d].day, b[u][d].bloodGroup)
  {
    forall n, g | 1 <= n <= MaxOrdinal ensures UsersOnDay(b, n, g) == UsersOn(b, FormatDate(n), g) {
      UsersOnDayIsOneText(b, n, g);
    }
    forall u, d | u in b && d in b[u]
      ensures |UsersOnDay(b, ParseDate(d).value, b[u][d].bloodGroup)| <= QuotaOf(q, b[u][d].day, b[u][d].bloodGroup)
    {
      assert CanonicalDate(d);
      UsersOnDayIsOneText(b, ParseDate(d).value, b[u][d].bloodGroup);
    }
  }

  lemma UsersOnDayIsOneText(b: Bookings, n: int, g: string)
    requires CanonicalKeys(b) && 1 <= n <= MaxOrdinal
    ensures UsersOnDay(b, n, g) == UsersOn(b, FormatDate(n), g)
  {
    forall u | u in UsersOnDay(b, n, g) ensures u in UsersOn(b, FormatDate(n), g) {
      var d :| d in b[u] && ParseDate(d) == Some(n) && b[u][d].bloodGroup == g;
      assert CanonicalDate(d);
    }
    forall u | u in UsersOn(b, FormatDate(n), g) ensures u in UsersOnDay(b, n, g) {
      ParseFormatDate(n);
      assert FormatDate(n) in b[u];
    }
  }

  lemma InsertKeepsCanonical(b: Bookings, bk: Booking)
    requires CanonicalKeys(b) && CanonicalDate(bk.date)
    ensures CanonicalKeys(Insert(b, bk))
  {
    forall u, d | u in Insert(b, bk) && d in Insert(b, bk)[u] ensures CanonicalDate(d) {
      InsertLookup(b, bk, u, d);
    }
  }

  /** `register` keeps the keys canonical when it is given a canonical date,
      and `cancel_booking` always does. */
  lemma MutationKeepsCanonical(b: Bookings, q: QuotaTable, m: Mutation)
    requires CanonicalKeys(b) && DrawOk(m)
    requires m.Reserve? ==> CanonicalDate(m.date)
    ensures CanonicalKeys(Apply(b, q, m))
  {
    var nb := Apply(b, q, m);
    forall u, d | u in nb && d in nb[u] ensures CanonicalDate(d) {
      match m
      case Reserve(date, group, time, user, draw) =>
        var r := RegisterSpec(b, q, date, group, time, user, draw);
        if r.1 != b {
          var bk :| r.1 == Insert(b, bk) && bk.date == date;
          InsertKeepsCanonical(b, bk);
        }
      case Cancel(date, ticket, user) =>
        if nb != b {
          RemoveLookup(b, user, date, u, d);
        }
    }
  }

  /** A sequence of calls whose `register` dates are all canonical keeps the
      keys canonical. */
  lemma {:induction false} RunKeepsCanonical(b: Bookings, q: QuotaTable, ms: seq<Mutation>)
    requires CanonicalKeys(b)
    requires forall i :: 0 <= i < |ms| ==> DrawOk(ms[i]) && (ms[i].Reserve? ==> CanonicalDate(ms[i].date))
    ensures CanonicalKeys(Run(b, q, ms))
  {
    if ms != [] {
      RunKeepsCanonical(b, q, ms[..|ms| - 1]);
      MutationKeepsCanonical(Run(b, q, ms[..|ms| - 1]), q, ms[|ms| - 1]);
    }
  }
}
