/** `GoogleScriptClient.call_api` and `clear_cache`: the read cache in front of
    the remote script. The clock reading and the answer the script would give
    are parameters; the HTTP exchange itself is not modelled. */
module Remote {
  import opened Wrappers
  import opened Text
  import opened Api

  /** The three read actions whose answers are cached. */
  const Cacheable: set<string> := {"get_available_dates", "get_stats", "get_quotas"}

  /** `f"{action}_{user_id}_{json.dumps(data, sort_keys=True)}"`: with sorted
      keys the text depends only on the action, the user (or `None`) and the
      parameters as a dictionary, which is what the key records. */
  datatype CacheKey = CacheKey(action: string, user: Option<int>, params: map<string, string>)

  /** A cached answer: the script's `data` and the time it was stored. */
  type Entry = (Json, int)

  type Cache = map<CacheKey, Entry>

  /** What the script answers when asked: the request timed out, failed in
      some other way, or came back with a status code and a body that is
      JSON (`Some`) or not (`None`). */
  datatype HttpReply =
    | TimedOut
    | Failed(detail: string)
    | Answer(code: int, body: Option<Json>)

  /** The key of a call, or `None` when the call bypasses the cache. */
  function KeyFor(action: string, params: map<string, string>, user: Option<int>, forceRefresh: bool): (k: Option<CacheKey>)
    ensures k.Some? <==> !forceRefresh && action in Cacheable
    ensures k.Some? ==> k.value == CacheKey(action, user, params)
  {
    if !forceRefresh && action in Cacheable then Some(CacheKey(action, user, params)) else None
  }

  /** `time.time() - timestamp < CACHE_TTL`. */
  predicate Fresh(cache: Cache, key: CacheKey, now: int, ttl: int) {
    key in cache && now - cache[key].1 < ttl
  }

  /** The JSON object posted: `{"action": action, **data}`, a parameter named
      `action` overriding the action, and `user_id` as text when the user is
      given and not zero. */
  function RequestBody(action: string, params: map<string, string>, user: Option<int>): (body: map<string, Json>)
    ensures forall k :: k in params && k != "user_id" ==> k in body && body[k] == JStr(params[k])
    ensures "action" in body && ("action" !in params ==> body["action"] == JStr(action))
    ensures "user_id" in body <==> (user.Some? && user.value != 0) || "user_id" in params
  {
    var base := map["action" := JStr(action)] + map k | k in params :: JStr(params[k]);
    if user.Some? && user.value != 0 then base["user_id" := JStr(IntToString(user.value))] else base
  }

  /** The result of one `call_api`: the answer, the cache afterwards and the
      body posted to the script (`None` when the cache answered). */
  datatype Outcome = Outcome(response: ApiResponse, cache: Cache, sent: Option<map<string, Json>>)

  /** `result.get("status") == "success"`. */
  predicate Succeeded(fields: map<string, Json>) {
    "status" in fields && fields["status"] == JStr("success")
  }

  /** `result.get("data", default)`. */
  function DataOr(fields: map<string, Json>, default: Json): Json {
    if "data" in fields then fields["data"] else default
  }

  /** `call_api`: a fresh cache entry answers a cacheable call; otherwise the
      script is asked, and a successful answer to a cacheable call is stored
      with `replyAt`, the clock read again once the reply has arrived; `now`,
      read before the request, decides freshness. */
  function CallApiSpec(cache: Cache, ttl: int, action: string, params: map<string, string>, user: Option<int>,
                       forceRefresh: bool, now: int, reply: HttpReply, replyAt: int): Outcome
  {
    var key := KeyFor(action, params, user, forceRefresh);
    if key.Some? && Fresh(cache, key.value, now, ttl) then
      Outcome(Success(RemoteData(cache[key.value].0)), cache, None)
    else
      var sent := Some(RequestBody(action, params, user));
      match reply
      case TimedOut => Outcome(Error(RemoteTimeout), cache, sent)
      case Failed(detail) => Outcome(Error(RemoteCallFailed(detail)), cache, sent)
      case Answer(code, body) =>
        if code != 200 then Outcome(Error(RemoteHttpStatus(code)), cache, sent)
        else if body.None? then Outcome(Error(RemoteBadFormat), cache, sent)
        else if !body.value.JObj? then Outcome(Error(RemoteNotObject), cache, sent)
        else
          var fields := body.value.fields;
          if Succeeded(fields) then
            var data := DataOr(fields, JObj(map[]));
            var cache' := if key.Some? then cache[key.value := (data, replyAt)] else cache;
            Outcome(Success(RemoteData(data)), cache', sent)
          else
            Outcome(Error(RemoteReported(DataOr(fields, JStr("Неизвестная ошибка")))), cache, sent)
  }

  /** Every key in the cache belongs to a cacheable action. */
  predicate CacheOk(cache: Cache) {
    forall k :: k in cache ==> k.action in Cacheable
  }

  class GoogleScriptClient {
    var cache: Cache
    /** `Config.CACHE_TTL`, in seconds. */
    const ttl: int

    ghost predicate Valid()
      reads this
    {
      CacheOk(cache)
    }

    constructor (ttl: int)
      ensures this.ttl == ttl && cache == map[] && Valid()
    {
      this.ttl := ttl;
      cache := map[];
    }

    /** `call_api`, returning the answer and the body posted, if any. */
    method CallApi(action: string, params: map<string, string>, user: Option<int>, forceRefresh: bool,
                   now: int, reply: HttpReply, replyAt: int) returns (r: ApiResponse, sent: Option<map<string, Json>>)
      modifies this
      ensures var o := CallApiSpec(old(cache), ttl, action, params, user, forceRefresh, now, reply, replyAt);
        r == o.response && sent == o.sent && cache == o.cache
      ensures old(Valid()) ==> Valid()
    {
      var key: Option<CacheKey> := None;
      if !forceRefresh && action in Cacheable {
        key := Some(CacheKey(action, user, params));
        if key.value in cache {
          var (cached, timestamp) := cache[key.value];
          if now - timestamp < ttl {
            return Success(RemoteData(cached)), None;
          }
        }
      }
      var body := RequestBody(action, params, user);
      sent := Some(body);
      match reply {
        case TimedOut =>
          return Error(RemoteTimeout), sent;
        case Failed(detail) =>
          return Error(RemoteCallFailed(detail)), sent;
        case Answer(code, answer) =>
          if code != 200 {
            return Error(RemoteHttpStatus(code)), sent;
          }
          if answer.None? {
            return Error(RemoteBadFormat), sent;
          }
          if !answer.value.JObj? {
            return Error(RemoteNotObject), sent;
          }
          var fields := answer.value.fields;
          var ok := "status" in fields && fields["status"] == JStr("success");
          if key.Some? && ok {
            cache := cache[key.value := (DataOr(fields, JObj(map[])), replyAt)];
          }
          if ok {
            r := Success(RemoteData(DataOr(fields, JObj(map[]))));
          } else {
            r := Error(RemoteReported(DataOr(fields, JStr("Неизвестная ошибка"))));
          }
      }
    }

    /** `clear_cache`. */
    method ClearCache()
      modifies this
      ensures cache == map[] && Valid()
    {
      cache := map[];
    }
  }

  /** A cacheable call without `force_refresh` that finds a fresh entry
      answers with the stored data and posts nothing. */
  lemma FreshEntryAnswers(cache: Cache, ttl: int, action: string, params: map<string, string>, user: Option<int>,
                          now: int, reply: HttpReply, replyAt: int)
    requires action in Cacheable && Fresh(cache, CacheKey(action, user, params), now, ttl)
    ensures var o := CallApiSpec(cache, ttl, action, params, user, false, now, reply, replyAt);
      o.sent == None && o.cache == cache
      && o.response == Success(RemoteData(cache[CacheKey(action, user, params)].0))
  {
  }

  /** A call that is not answered from the cache always posts to the script. */
  lemma MissPosts(cache: Cache, ttl: int, action: string, params: map<string, string>, user: Option<int>,
                  forceRefresh: bool, now: int, reply: HttpReply, replyAt: int)
    requires forceRefresh || action !in Cacheable || !Fresh(cache, CacheKey(action, user, params), now, ttl)
    ensures CallApiSpec(cache, ttl, action, params, user, forceRefresh, now, reply, replyAt).sent
      == Some(RequestBody(action, params, user))
  {
  }

  /** With `force_refresh`, or for an action that is not cacheable, the cache
      is left as it was. */
  lemma BypassStoresNothing(cache: Cache, ttl: int, action: string, params: map<string, string>, user: Option<int>,
                            forceRefresh: bool, now: int, reply: HttpReply, replyAt: int)
    requires forceRefresh || action !in Cacheable
    ensures CallApiSpec(cache, ttl, action, params, user, forceRefresh, now, reply, replyAt).cache == cache
  {
  }

  /** Only successes are stored: a failed call leaves the cache as it was, and
      a call that changes the cache stores exactly the data it answered with,
      under its own key, stamped with the time the reply arrived. */
  lemma OnlySuccessesStored(cache: Cache, ttl: int, action: string, params: map<string, string>, user: Option<int>,
                            forceRefresh: bool, now: int, reply: HttpReply, replyAt: int)
    ensures var o := CallApiSpec(cache, ttl, action, params, user, forceRefresh, now, reply, replyAt);
      (o.response.Error? ==> o.cache == cache)
      && (o.cache != cache ==>
            var k := CacheKey(action, user, params);
            !forceRefresh && action in Cacheable && o.sent.Some?
            && o.cache == cache[k := (o.response.data.json, replyAt)]
            && o.response.Success? && o.response.data.RemoteData?)
  {
  }

  /** Every call keeps every cache key on a cacheable action. */
  lemma CallKeepsCacheOk(cache: Cache, ttl: int, action: string, params: map<string, string>, user: Option<int>,
                         forceRefresh: bool, now: int, reply: HttpReply, replyAt: int)
    requires CacheOk(cache)
    ensures CacheOk(CallApiSpec(cache, ttl, action, params, user, forceRefresh, now, reply, replyAt).cache)
  {
  }

  /** The cache at work: once a cacheable call has been answered successfully
      by the script, the same call within the time-to-live, counted from the
      moment the reply arrived, gets the same data
      again without a request, whatever the script would now say. */
  lemma SecondCallHitsCache(cache: Cache, ttl: int, action: string, params: map<string, string>, user: Option<int>,
                            now: int, reply: HttpReply, replyAt: int, later: int, reply2: HttpReply, reply2At: int)
    requires action in Cacheable && replyAt <= later < replyAt + ttl
    requires var o := CallApiSpec(cache, ttl, action, params, user, false, now, reply, replyAt);
      o.sent.Some? && o.response.Success?
    ensures var o := CallApiSpec(cache, ttl, action, params, user, false, now, reply, replyAt);
      var o2 := CallApiSpec(o.cache, ttl, action, params, user, false, later, reply2, reply2At);
      o2.sent == None && o2.response == o.response && o2.cache == o.cache
  {
  }

  /** After `clear_cache` every call goes to the script. */
  lemma ClearedCacheMisses(ttl: int, action: string, params: map<string, string>, user: Option<int>,
                           forceRefresh: bool, now: int, reply: HttpReply, replyAt: int)
    ensures CallApiSpec(map[], ttl, action, params, user, forceRefresh, now, reply, replyAt).sent.Some?
  {
  }
}
