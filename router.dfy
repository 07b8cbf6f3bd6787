/** `StorageAdapter`: the single entry point the handlers call. In `LOCAL` mode
    it asks the in-memory ledger, in `GOOGLE` mode the remote script, and in
    `HYBRID` mode the script first and the ledger when the script fails. */
module Router {
  import opened Wrappers
  import opened Api
  import opened LedgerSpec
  import opened LedgerViews
  import opened Ledger
  import opened Remote

  const LocalMode: string := "LOCAL"
  const GoogleMode: string := "GOOGLE"
  const HybridMode: string := "HYBRID"

  /** The eight operations of the adapter, with their arguments. */
  datatype Operation =
    | GetAvailableDates(user: int, forceRefresh: bool)
    | GetFreeTimes(date: string, group: string)
    | CheckExisting(date: string, user: int)
    | Register(date: string, group: string, time: string, user: int)
    | CancelBooking(date: string, ticket: string, user: int)
    | GetUserBookings(user: int)
    | GetQuotas
    | GetStats

  /** A positional argument of `_call_with_fallback`. */
  datatype Arg = IntArg(i: int) | StrArg(s: string)

  /** The method name each public method passes on. */
  function NameOf(op: Operation): string {
    match op
    case GetAvailableDates(_, _) => "get_available_dates"
    case GetFreeTimes(_, _) => "get_free_times"
    case CheckExisting(_, _) => "check_existing"
    case Register(_, _, _, _) => "register"
    case CancelBooking(_, _, _) => "cancel_booking"
    case GetUserBookings(_) => "get_user_bookings"
    case GetQuotas => "get_quotas"
    case GetStats => "get_stats"
  }

  /** The positional `*args` each public method passes on; `force_refresh`
      goes as a keyword and is popped before any use of `args`. */
  function ArgsOf(op: Operation): seq<Arg> {
    match op
    case GetAvailableDates(user, _) => [IntArg(user)]
    case GetFreeTimes(date, group) => [StrArg(date), StrArg(group)]
    case CheckExisting(date, user) => [StrArg(date), IntArg(user)]
    case Register(date, group, time, user) => [StrArg(date), StrArg(group), StrArg(time), IntArg(user)]
    case CancelBooking(date, ticket, user) => [StrArg(date), StrArg(ticket), IntArg(user)]
    case GetUserBookings(user) => [IntArg(user)]
    case GetQuotas => []
    case GetStats => []
  }

  function ForceRefreshOf(op: Operation): bool {
    op.GetAvailableDates? && op.forceRefresh
  }

  /** The keys of `api_action_map`. */
  const ActionNames: set<string> :=
    {"get_available_dates", "get_free_times", "check_existing", "register",
     "cancel_booking", "get_user_bookings", "get_quotas", "get_stats"}

  /** The user sent to the script: no caller passes `user_id` as a keyword, so
      it is the last positional argument when that is an integer. */
  function UserArg(args: seq<Arg>): (u: Option<int>)
    ensures u.Some? <==> args != [] && args[|args| - 1].IntArg?
    ensures u.Some? ==> IntArg(u.value) == args[|args| - 1]
  {
    if args != [] && args[|args| - 1].IntArg? then Some(args[|args| - 1].i) else None
  }

  // ---------------------------------------------------------------- the action map as written

  /** What looking a method up in `api_action_map` gives as the program
      evaluates it: the whole dictionary display is built first, and its
      `register` entry reads `args[2]`. */
  datatype ActionLookup =
    | RaisesIndexError
    | UnknownName
    | Action(action: string, params: map<string, Arg>)

  function ActionMapAsWritten(name: string, args: seq<Arg>): ActionLookup {
    if |args| < 3 then RaisesIndexError
    else if name !in ActionNames then UnknownName
    else Action(name, ActionParams(name, args))
  }

  /** The parameter dictionaries of the entries. */
  function ActionParams(name: string, args: seq<Arg>): map<string, Arg>
    requires |args| >= 3
  {
    if name == "get_free_times" then map["date" := args[0], "blood_group" := args[1]]
    else if name == "check_existing" then map["date" := args[0]]
    else if name == "register" then map["date" := args[0], "blood_group" := args[1], "time" := args[2]]
    else if name == "cancel_booking" then map["date" := args[0], "ticket" := args[1]]
    else map[]
  }

  /** As written, six of the eight operations raise `IndexError` before the
      script is asked, in `GOOGLE` and `HYBRID` mode alike; only `register`
      and `cancel_booking` pass enough arguments. */
  lemma ShortCallsRaise(op: Operation)
    ensures ActionMapAsWritten(NameOf(op), ArgsOf(op)).RaisesIndexError?
      <==> !(op.Register? || op.CancelBooking?)
  {
  }

  // ---------------------------------------------------------------- the action map as intended

  /** What the adapter posts for an operation: the action, its parameters and
      the user. */
  datatype RemoteCall = RemoteCall(action: string, params: map<string, string>, user: Option<int>)

  /** The entry of `api_action_map` for the operation, looked up without
      building the others. */
  function RemoteRequest(op: Operation): (c: RemoteCall)
    ensures c.action == NameOf(op) && c.action in ActionNames
    ensures c.user == UserArg(ArgsOf(op))
    ensures forall k :: k in c.params ==> StrArg(c.params[k]) in ArgsOf(op)
  {
    var user := UserArg(ArgsOf(op));
    match op
    case GetFreeTimes(date, group) => RemoteCall(NameOf(op), map["date" := date, "blood_group" := group], user)
    case CheckExisting(date, _) => RemoteCall(NameOf(op), map["date" := date], user)
    case Register(date, group, time, _) =>
      RemoteCall(NameOf(op), map["date" := date, "blood_group" := group, "time" := time], user)
    case CancelBooking(date, ticket, _) => RemoteCall(NameOf(op), map["date" := date, "ticket" := ticket], user)
    case _ => RemoteCall(NameOf(op), map[], user)
  }

  /** Where the dictionary as written does answer, it gives the same action
      and parameters as the intended lookup; and every operation that carries
      a user sends that user, the others none. */
  lemma RemoteRequestAgrees(op: Operation)
    ensures var l := ActionMapAsWritten(NameOf(op), ArgsOf(op));
      var c := RemoteRequest(op);
      l.Action? ==> && l.action == c.action && l.params.Keys == c.params.Keys
                    && forall k :: k in c.params ==> l.params[k] == StrArg(c.params[k])
    ensures RemoteRequest(op).user.Some? <==>
      op.GetAvailableDates? || op.CheckExisting? || op.Register? || op.CancelBooking? || op.GetUserBookings?
    ensures RemoteRequest(op).user.Some? ==> RemoteRequest(op).user.value == op.user
  {
    match op
    case Register(date, group, time, user) => RegisterEntryAgrees(date, group, time, user);
    case CancelBooking(date, ticket, user) => CancelEntryAgrees(date, ticket, user);
    case _ =>
  }

  lemma RegisterEntryAgrees(date: string, group: string, time: string, user: int)
    ensures var op := Register(date, group, time, user);
      var l := ActionMapAsWritten(NameOf(op), ArgsOf(op));
      var c := RemoteRequest(op);
      && l == Action("register", map["date" := StrArg(date), "blood_group" := StrArg(group), "time" := StrArg(time)])
      && c.params == map["date" := date, "blood_group" := group, "time" := time]
  {
  }

  lemma CancelEntryAgrees(date: string, ticket: string, user: int)
    ensures var op := CancelBooking(date, ticket, user);
      var l := ActionMapAsWritten(NameOf(op), ArgsOf(op));
      var c := RemoteRequest(op);
      && l == Action("cancel_booking", map["date" := StrArg(date), "ticket" := StrArg(ticket)])
      && c.params == map["date" := date, "ticket" := ticket]
  {
  }

  // ---------------------------------------------------------------- the local answer

  /** What the ledger answers for `op` on bookings `b`, quotas `q` and hours
      `hours`, and the bookings `b2` afterwards; only `register` and
      `cancel_booking` change them. */
  ghost predicate LocalAnswer(op: Operation, b: Bookings, q: QuotaTable, hours: seq<string>, maxShow: int,
                              today: int, draw: int, r: ApiResponse, b2: Bookings)
    requires (op.GetAvailableDates? ==> ValidToday(today)) && 1000 <= draw <= 9999
  {
    match op
    case GetAvailableDates(_, _) => r == Success(Dates(AvailableDatesSpec(q, today, maxShow))) && b2 == b
    case GetFreeTimes(date, group) => r == FreeTimesSpec(b, q, hours, date, group) && b2 == b
    case CheckExisting(date, user) => r == CheckExistingSpec(b, date, user) && b2 == b
    case Register(date, group, time, user) => (r, b2) == RegisterSpec(b, q, date, group, time, user, draw)
    case CancelBooking(date, ticket, user) => (r, b2) == CancelSpec(b, date, ticket, user)
    case GetUserBookings(user) => r.Success? && r.data.BookingList? && ListsBookingsOf(b, user, r.data.bookings) && b2 == b
    case GetQuotas => r == Success(Quotas(QuotaSummaryOf(b, q))) && b2 == b
    case GetStats => r.Success? && StatsOk(b, q, r.data) && b2 == b
  }

  class StorageAdapter {
    /** `Config.MODE`. */
    const mode: string
    const google: GoogleScriptClient
    const local: LocalStorage

    ghost predicate Valid()
      reads this, google, local
    {
      google.Valid() && local.Valid()
    }

    constructor (mode: string, google: GoogleScriptClient, local: LocalStorage)
      ensures this.mode == mode && this.google == google && this.local == local
    {
      this.mode := mode;
      this.google := google;
      this.local := local;
    }

    /** `_call_with_fallback` for one of the public methods. The clock reading
        (`now` for the cache, `today` for the ledger), the script's reply and
        the ticket's random number are parameters. */
    method Call(op: Operation, now: int, reply: HttpReply, replyAt: int, today: int, draw: int) returns (r: ApiResponse)
      requires Valid() && (op.GetAvailableDates? ==> ValidToday(today)) && 1000 <= draw <= 9999
      modifies google, local
      ensures Valid()
      ensures local.quotas == old(local.quotas) && local.workingHours == old(local.workingHours)
      ensures var c := RemoteRequest(op);
        var o := CallApiSpec(old(google.cache), google.ttl, c.action, c.params, c.user, ForceRefreshOf(op), now, reply, replyAt);
        var answered := LocalAnswer(op, old(local.bookings), local.quotas, local.workingHours,
                                    local.maxDatesToShow, today, draw, r, local.bookings);
        if mode == LocalMode then
          answered && google.cache == old(google.cache)
        else if mode == GoogleMode then
          r == o.response && google.cache == o.cache && local.bookings == old(local.bookings)
        else if mode == HybridMode then
          google.cache == o.cache
          && (if o.response.Success? then r == o.response && local.bookings == old(local.bookings) else answered)
        else
          r == Error(UnknownMode(mode)) && google.cache == old(google.cache) && local.bookings == old(local.bookings)
    {
      if mode == LocalMode {
        r := CallLocal(op, today, draw);
        return;
      }
      if mode == GoogleMode || mode == HybridMode {
        var c := RemoteRequest(op);
        var result, _ := google.CallApi(c.action, c.params, c.user, ForceRefreshOf(op), now, reply, replyAt);
        if result.Success? || mode == GoogleMode {
          return result;
        }
        r := CallLocal(op, today, draw);
        return;
      }
      r := Error(UnknownMode(mode));
    }

    /** The `getattr(self.local, method_name)(*args)` branch. */
    method CallLocal(op: Operation, today: int, draw: int) returns (r: ApiResponse)
      requires Valid() && (op.GetAvailableDates? ==> ValidToday(today)) && 1000 <= draw <= 9999
      modifies local
      ensures Valid()
      ensures local.quotas == old(local.quotas) && local.workingHours == old(local.workingHours)
      ensures LocalAnswer(op, old(local.bookings), local.quotas, local.workingHours, local.maxDatesToShow,
                          today, draw, r, local.bookings)
    {
      match op {
        case GetAvailableDates(_, _) => r := local.GetAvailableDates(today);
        case GetFreeTimes(date, group) => r := local.GetFreeTimes(date, group);
        case CheckExisting(date, user) => r := local.CheckExisting(date, user);
        case Register(date, group, time, user) => r := local.Register(date, group, time, user, draw);
        case CancelBooking(date, ticket, user) => r := local.CancelBooking(date, ticket, user);
        case GetUserBookings(user) => r := local.GetUserBookings(user);
        case GetQuotas => r := local.GetQuotas();
        case GetStats => r := local.GetStats();
      }
    }

    /** `clear_cache`: only the modes that use the script have a cache to clear. */
    method ClearCache()
      requires Valid()
      modifies google
      ensures Valid()
      ensures if mode == GoogleMode || mode == HybridMode then google.cache == map[] else google.cache == old(google.cache)
    {
      if mode == GoogleMode || mode == HybridMode {
        google.ClearCache();
      }
    }
  }

  /** In `HYBRID` mode the ledger stands in for the script exactly when the
      script's answer is an error; a fresh cached answer to a cacheable read
      therefore always comes from the cache. */
  lemma HybridUsesCacheFirst(cache: Cache, ttl: int, op: Operation, now: int, reply: HttpReply, replyAt: int)
    requires op.GetQuotas? || op.GetStats? || (op.GetAvailableDates? && !op.forceRefresh)
    requires var c := RemoteRequest(op); Fresh(cache, CacheKey(c.action, c.user, c.params), now, ttl)
    ensures var c := RemoteRequest(op);
      var o := CallApiSpec(cache, ttl, c.action, c.params, c.user, ForceRefreshOf(op), now, reply, replyAt);
      o.response.Success? && o.sent == None && o.cache == cache
  {
    var c := RemoteRequest(op);
    FreshEntryAnswers(cache, ttl, c.action, c.params, c.user, now, reply, replyAt);
  }
}
