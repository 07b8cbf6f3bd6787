/** The two per-user clocks of the bot: `RateLimiter`, which keeps each user's
    recent request times, and `SessionTimeout`, which keeps each user's last
    activity. Times are whole seconds passed in by the caller. */
module Limits {

  /** `[t for t in ts if now - t < window]`, order kept. */
  function Recent(ts: seq<int>, now: int, window: int): (r: seq<int>)
    ensures |r| <= |ts|
    ensures forall t :: t in r <==> t in ts && now - t < window
  {
    if ts == [] then []
    else
      var rest := Recent(ts[..|ts| - 1], now, window);
      var last := ts[|ts| - 1];
      assert forall t :: t in ts <==> t in ts[..|ts| - 1] || t == last;
      if now - last < window then rest + [last] else rest
  }

  /** `min(ts)`. */
  function Oldest(ts: seq<int>): (m: int)
    requires ts != []
    ensures m in ts && forall t :: t in ts ==> m <= t
  {
    if |ts| == 1 then ts[0]
    else
      var m := Oldest(ts[1..]);
      assert forall t :: t in ts ==> t == ts[0] || t in ts[1..];
      if ts[0] <= m then ts[0] else m
  }

  /** `get_wait_time` on a user's list: nothing to wait for without requests
      or once the oldest has left the window, else the rest of its window. */
  function WaitFor(ts: seq<int>, now: int, window: int): int {
    if ts == [] then 0
    else if now - Oldest(ts) >= window then 0
    else window - (now - Oldest(ts))
  }

  /** `is_allowed` on the map of lists: the user's list is pruned, then a
      request is admitted, and its time appended, while fewer than
      `maxRequests` remain. */
  function AdmitSpec(requests: map<int, seq<int>>, maxRequests: int, window: int, user: int, now: int)
    : (bool, map<int, seq<int>>)
  {
    var kept := Recent(if user in requests then requests[user] else [], now, window);
    if |kept| >= maxRequests then (false, requests[user := kept])
    else (true, requests[user := kept + [now]])
  }

  class RateLimiter {
    /** `Config.RATE_LIMIT_REQUESTS`. */
    const maxRequests: int
    /** `Config.RATE_LIMIT_WINDOW`, in seconds. */
    const timeWindow: int
    /** The `defaultdict(list)`; a user without an entry has no requests. */
    var userRequests: map<int, seq<int>>

    /** No user holds more than `maxRequests` times; with a limit below one,
        which refuses every request, no user holds any. */
    ghost predicate Valid()
      reads this
    {
      forall u :: u in userRequests ==> userRequests[u] == [] || |userRequests[u]| <= maxRequests
    }

    constructor (maxRequests: int, timeWindow: int)
      ensures this.maxRequests == maxRequests && this.timeWindow == timeWindow
      ensures userRequests == map[] && Valid()
    {
      this.maxRequests := maxRequests;
      this.timeWindow := timeWindow;
      userRequests := map[];
    }

    /** `is_allowed`. */
    method IsAllowed(user: int, now: int) returns (allowed: bool)
      modifies this
      ensures (allowed, userRequests) == AdmitSpec(old(userRequests), maxRequests, timeWindow, user, now)
      ensures old(Valid()) ==> Valid()
    {
      var requests := if user in userRequests then userRequests[user] else [];
      var kept := Prune(requests, now, timeWindow);
      if |kept| >= maxRequests {
        userRequests := userRequests[user := kept];
        return false;
      }
      userRequests := userRequests[user := kept + [now]];
      allowed := true;
    }

    /** `get_wait_time`; reading the `defaultdict` gives an unknown user an
        empty list. */
    method GetWaitTime(user: int, now: int) returns (wait: int)
      modifies this
      ensures userRequests == old(userRequests)[user := if user in old(userRequests) then old(userRequests)[user] else []]
      ensures wait == WaitFor(userRequests[user], now, timeWindow)
      ensures old(Valid()) ==> Valid()
    {
      if user !in userRequests {
        userRequests := userRequests[user := []];
      }
      var requests := userRequests[user];
      if requests == [] {
        return 0;
      }
      var oldest := Minimum(requests);
      if now - oldest >= timeWindow {
        return 0;
      }
      wait := timeWindow - (now - oldest);
    }
  }

  /** The list comprehension of `is_allowed`. */
  method Prune(ts: seq<int>, now: int, window: int) returns (kept: seq<int>)
    ensures kept == Recent(ts, now, window)
  {
    kept := [];
    var i := 0;
    while i < |ts|
      invariant 0 <= i <= |ts|
      invariant kept == Recent(ts[..i], now, window)
    {
      assert ts[..i + 1][..i] == ts[..i];
      if now - ts[i] < window {
        kept := kept + [ts[i]];
      }
      i := i + 1;
    }
    assert ts[..i] == ts;
  }

  /** `min(requests)`. */
  method Minimum(ts: seq<int>) returns (m: int)
    requires ts != []
    ensures m in ts && forall t :: t in ts ==> m <= t
  {
    m := ts[0];
    var i := 1;
    while i < |ts|
      invariant 1 <= i <= |ts|
      invariant m in ts[..i] && forall j :: 0 <= j < i ==> m <= ts[j]
    {
      if ts[i] < m {
        m := ts[i];
      }
      i := i + 1;
    }
    assert forall t :: t in ts ==> exists j :: 0 <= j < |ts| && ts[j] == t;
  }

  /** What `is_allowed` leaves for the user: at most `maxRequests` times, all
      inside the window, and the new time only when the request is admitted;
      a refused request leaves exactly the pruned list. */
  lemma AdmitBounds(requests: map<int, seq<int>>, maxRequests: int, window: int, user: int, now: int)
    requires window > 0
    requires user in requests ==> requests[user] == [] || |requests[user]| <= maxRequests
    ensures var (allowed, after) := AdmitSpec(requests, maxRequests, window, user, now);
      var kept := Recent(if user in requests then requests[user] else [], now, window);
      && user in after && (after[user] == [] || |after[user]| <= maxRequests)
      && (forall t :: t in after[user] ==> now - t < window)
      && (allowed <==> |kept| < maxRequests)
      && (allowed ==> after[user] == kept + [now])
      && (!allowed ==> after[user] == kept)
      && (forall u :: u != user ==> (u in after <==> u in requests) && (u in requests ==> after[u] == requests[u]))
  {
  }

  /** A limit below one refuses every request and leaves the user no times. */
  lemma NonPositiveLimitRefusesAll(requests: map<int, seq<int>>, maxRequests: int, window: int, user: int, now: int)
    requires maxRequests <= 0
    requires user in requests ==> requests[user] == []
    ensures !AdmitSpec(requests, maxRequests, window, user, now).0
    ensures AdmitSpec(requests, maxRequests, window, user, now).1 == requests[user := []]
  {
  }

  /** A burst at one instant: starting from no recent requests, exactly
      `maxRequests` of them are admitted, one by one, and the next is refused. */
  lemma {:induction false} BurstAdmitsExactlyMax(requests: map<int, seq<int>>, maxRequests: nat, window: int,
                                                  user: int, now: int, k: nat)
    requires window > 0 && k <= maxRequests
    requires user !in requests
    ensures var after := Admitted(requests, maxRequests, window, user, now, k);
      (if user in after then after[user] else []) == Repeat(now, k)
      && (k < maxRequests ==> AdmitSpec(after, maxRequests, window, user, now).0)
      && (k == maxRequests ==> !AdmitSpec(after, maxRequests, window, user, now).0)
  {
    if k > 0 {
      BurstAdmitsExactlyMax(requests, maxRequests, window, user, now, k - 1);
      AdmitOnRepeat(Admitted(requests, maxRequests, window, user, now, k - 1), maxRequests, window, user, now, k - 1);
    }
    AdmitOnRepeat(Admitted(requests, maxRequests, window, user, now, k), maxRequests, window, user, now, k);
  }

  /** A user holding `k` times all equal to `now` is admitted exactly when `k`
      is below the limit, and then holds `k + 1` of them. */
  lemma AdmitOnRepeat(m: map<int, seq<int>>, maxRequests: int, window: int, user: int, now: int, k: nat)
    requires window > 0
    requires (if user in m then m[user] else []) == Repeat(now, k)
    ensures AdmitSpec(m, maxRequests, window, user, now).0 <==> k < maxRequests
    ensures k < maxRequests ==> AdmitSpec(m, maxRequests, window, user, now).1[user] == Repeat(now, k + 1)
  {
    RecentOfRepeat(now, k, window);
    assert Repeat(now, k) + [now] == Repeat(now, k + 1);
  }

  /** The state after `k` requests at the same instant, from `requests`. */
  function Admitted(requests: map<int, seq<int>>, maxRequests: int, window: int, user: int, now: int, k: nat)
    : map<int, seq<int>>
  {
    if k == 0 then requests else AdmitSpec(Admitted(requests, maxRequests, window, user, now, k - 1),
                                           maxRequests, window, user, now).1
  }

  function Repeat(t: int, k: nat): (r: seq<int>)
    ensures |r| == k && forall i :: 0 <= i < k ==> r[i] == t
  {
    if k == 0 then [] else Repeat(t, k - 1) + [t]
  }

  lemma {:induction false} RecentOfRepeat(now: int, k: nat, window: int)
    requires window > 0
    ensures Recent(Repeat(now, k), now, window) == Repeat(now, k)
  {
    if k > 0 {
      RecentOfRepeat(now, k - 1, window);
      assert Repeat(now, k)[..k - 1] == Repeat(now, k - 1);
    }
  }

  /** A refused request always has something to wait for: right after a
      refusal at `now`, `get_wait_time` is positive, no longer than the window,
      and ends exactly when the oldest kept request leaves the window. */
  lemma RefusalMeansWait(requests: map<int, seq<int>>, maxRequests: int, window: int, user: int, now: int)
    requires maxRequests >= 1
    requires !AdmitSpec(requests, maxRequests, window, user, now).0
    ensures var after := AdmitSpec(requests, maxRequests, window, user, now).1;
      var wait := WaitFor(after[user], now, window);
      0 < wait && (now > Oldest(after[user]) ==> wait < window)
      && now + wait - Oldest(after[user]) == window
  {
    var after := AdmitSpec(requests, maxRequests, window, user, now).1;
    assert after[user] != [];
    var m := Oldest(after[user]);
    assert m in after[user];
  }

  /** `SessionTimeout.is_session_expired`: a known user whose last activity is
      more than the timeout ago. */
  predicate Expired(lastActivity: map<int, int>, timeout: int, user: int, now: int) {
    user in lastActivity && now - lastActivity[user] > timeout
  }

  class SessionTimeout {
    /** `Config.SESSION_TIMEOUT`, in seconds. */
    const timeoutSeconds: int
    var userLastActivity: map<int, int>

    constructor (timeoutSeconds: int)
      ensures this.timeoutSeconds == timeoutSeconds && userLastActivity == map[]
    {
      this.timeoutSeconds := timeoutSeconds;
      userLastActivity := map[];
    }

    /** `update_activity`. */
    method UpdateActivity(user: int, now: int)
      modifies this
      ensures userLastActivity == old(userLastActivity)[user := now]
    {
      userLastActivity := userLastActivity[user := now];
    }

    /** `is_session_expired`. */
    method IsSessionExpired(user: int, now: int) returns (expired: bool)
      ensures expired == Expired(userLastActivity, timeoutSeconds, user, now)
    {
      if user !in userLastActivity {
        return false;
      }
      var lastActivity := userLastActivity[user];
      expired := now - lastActivity > timeoutSeconds;
    }

    /** `clear_session`. */
    method ClearSession(user: int)
      modifies this
      ensures userLastActivity == old(userLastActivity) - {user}
    {
      if user in userLastActivity {
        userLastActivity := userLastActivity - {user};
      }
    }
  }

  /** Activity and expiry: a user just seen is not expired until the timeout
      has passed, after which they are; a cleared or never-seen user is never
      expired; and updating or clearing one user leaves the others' expiry as
      it was. */
  lemma ActivityResetsExpiry(m: map<int, int>, timeout: int, user: int, at: int, now: int, other: int)
    requires other != user
    ensures Expired(m[user := at], timeout, user, now) <==> now - at > timeout
    ensures !Expired(m - {user}, timeout, user, now)
    ensures user !in m ==> !Expired(m, timeout, user, now)
    ensures Expired(m[user := at], timeout, other, now) == Expired(m, timeout, other, now)
    ensures Expired(m - {user}, timeout, other, now) == Expired(m, timeout, other, now)
  {
  }
}
