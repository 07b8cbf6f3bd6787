/** The values that cross the storage interface: bookings, the JSON the remote
    script exchanges, typed failures with the texts the program shows, and the
    uniform success/error envelope `ApiResponse`. */
module Api {
  import opened Wrappers
  import opened Text

  /** A JSON value as the remote script sends it (numbers are integers here). */
  datatype Json =
    | JNull
    | JBool(b: bool)
    | JNum(n: int)
    | JStr(s: string)
    | JArr(items: seq<Json>)
    | JObj(fields: map<string, Json>)

  /** One reservation; `created_at` is not modelled. */
  datatype Booking = Booking(
    ticket: string,
    date: string,
    time: string,
    bloodGroup: string,
    day: string,
    userId: int)

  /** One entry of `get_available_dates` (the Unix `timestamp` field is not modelled). */
  datatype DateInfo = DateInfo(
    ordinal: int,
    date: string,
    dayOfWeek: string,
    displayDate: string,
    dayOfWeekShort: string)

  /** One weekday's entry of the `byDay` table of `get_quotas`. */
  datatype DayQuota = DayQuota(total: int, used: int, remaining: int, quotas: map<string, int>)

  /** The `quotas` object of `get_quotas`. */
  datatype QuotaSummary = QuotaSummary(
    totalQuota: int,
    totalUsed: int,
    remaining: int,
    byDay: map<string, DayQuota>)

  /** The data of a successful answer. Local answers carry the fields the
      ledger fills in; a remote answer carries the script's own JSON. */
  datatype Payload =
    | Dates(dates: seq<DateInfo>)
    | Slots(times: seq<string>, quota: int, quotaTotal: int, quotaUsed: int)
    | Existing(found: Option<Booking>)
    | Registered(booking: Booking, quotaRemaining: int, quotaTotal: int, quotaUsed: int)
    | Cancelled(booking: Booking)
    | BookingList(bookings: seq<Booking>)
    | Quotas(summary: QuotaSummary)
    | Stats(totalBookings: int, totalUsers: int,
            dayStats: map<string, int>, bloodGroupStats: map<string, int>,
            mostPopularDay: string, mostPopularBloodGroup: string,
            quotaStats: QuotaSummary)
    | RemoteData(json: Json)

  /** Why a call failed. Each kind is rendered by `ErrorData` as the program
      renders it. */
  datatype Failure =
    | BadDateFormat(date: string)        // register: the date does not parse
    | SlotsUnavailable(date: string)     // get_free_times: strptime or the quota lookup raised
    | AlreadyBooked(date: string)        // register: the user has a booking that day
    | TimeTaken(time: string)            // register: the slot is held for that group
    | NoQuotasFor(day: string)           // register: the weekday has no quota table
    | QuotaExhausted(date: string)       // register: the group's quota is used up
    | BookingNotFound                    // cancel_booking: nothing to cancel
    | RemoteTimeout                      // the HTTP request timed out
    | RemoteHttpStatus(code: int)        // the script answered with a status other than 200
    | RemoteBadFormat                    // the body is not JSON
    | RemoteCallFailed(detail: string)   // any other exception while calling the script
    | RemoteNotObject                    // the body is JSON but not an object, so `.get` raises
    | RemoteReported(data: Json)         // the script's own error payload
    | UnknownMethod(name: string)        // the router has no remote action for the method
    | UnknownMode(mode: string)          // the router's mode is none of the three

  /** `ApiResponse`: `status` is "success" or "error", `data` the payload. */
  datatype ApiResponse = Success(data: Payload) | Error(failure: Failure)

  /** Whether a failure is raised by the local ledger or the router, not by the remote side. */
  predicate IsLocalFailure(f: Failure) {
    f.BadDateFormat? || f.SlotsUnavailable? || f.AlreadyBooked? || f.TimeTaken?
    || f.NoQuotasFor? || f.QuotaExhausted? || f.BookingNotFound? || f.UnknownMethod? || f.UnknownMode?
  }

  /** The `data` field of an error answer as the program builds it. Where the
      program appends a Python exception's own text (`str(e)`), only the fixed
      prefix is given, except for remote call failures whose text is an input. */
  function ErrorData(f: Failure): (j: Json)
    ensures IsLocalFailure(f) ==> j.JStr?
  {
    match f
    case BadDateFormat(date) => JStr("Неверный формат даты: " + date)
    case SlotsUnavailable(_) => JStr("Ошибка получения времени: ")
    case AlreadyBooked(date) => JStr("У вас уже есть запись на " + date)
    case TimeTaken(time) => JStr("Время " + time + " уже занято")
    case NoQuotasFor(day) => JStr("Нет квот для " + day)
    case QuotaExhausted(date) => JStr("На " + date + " все квоты заняты")
    case BookingNotFound => JStr("Запись не найдена")
    case RemoteTimeout => JStr("Таймаут подключения к Google Script")
    case RemoteHttpStatus(code) => JStr("HTTP ошибка: " + IntToString(code))
    case RemoteBadFormat => JStr("Неверный формат ответа от Google Script")
    case RemoteCallFailed(detail) => JStr("Ошибка вызова API: " + detail)
    case RemoteNotObject => JStr("Ошибка вызова API: ")
    case RemoteReported(data) => data
    case UnknownMethod(name) => JStr("Неизвестный метод: " + name)
    case UnknownMode(mode) => JStr("Неизвестный режим работы: " + mode)
  }
}
