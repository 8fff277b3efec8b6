/** The Tomestone API client (src/tomestone/tomestone.js): its settings, the
    sliding-window rate limiter, the cooldown that HTTP 429 and 403 replies
    arm, one API request, the concurrency-limited FIFO dispatcher in front
    of the requests and the aggregation of paginated activity. HTTP replies
    are inputs; so are the clock and the jitter draws. */
module Tomestone {
  import opened Common
  import opened Durations

  // ---------------------------------------------------------------------
  // Settings
  // ---------------------------------------------------------------------

  /** The constructor's configuration object. `decodedToken` is what
      decodeBase64 makes of apiTokenBase64 (already trimmed, '' on failure). */
  datatype Settings = Settings(
    apiToken: string, decodedToken: string, baseUrl: string,
    timeoutMs: Setting, refreshInterval: Setting, refreshIntervalMs: Setting,
    refreshAhead: Setting, refreshAheadMs: Setting, refreshBatchSize: Setting,
    rateLimit: Setting, rateLimitWindowMs: Setting,
    profileCacheTtl: Setting, activityCacheTtl: Setting, cacheTtl: Setting,
    maxActivityPages: Setting, requestSpacingMs: Setting, requestJitterMs: Setting,
    maxConcurrentRequests: Setting, cooldown429Ms: Setting, cooldown403Ms: Setting,
    cooldownMs: Setting)

  /** The client's derived constants. */
  datatype Config = Config(
    token: string, enabled: bool, baseUrl: string,
    timeoutMs: int, refreshIntervalMs: int, refreshAheadMs: int, refreshBatchSize: int,
    rateLimit: int, rateLimitWindowMs: int,
    profileCacheTtlMs: int, activityCacheTtlMs: int,
    maxActivityPages: int, requestSpacingMs: int, requestJitterMs: int,
    maxConcurrentRequests: int, cooldown429Ms: int, cooldown403Ms: int)

  function ConfigOf(s: Settings): Config
  {
    var raw := Trim(s.apiToken);
    var token := if raw != "" then raw else s.decodedToken;
    var base := Trim(if s.baseUrl != "" then s.baseUrl else "https://tomestone.gg");
    Config(
      token, token != "", base,
      TomestoneDuration(s.timeoutMs, 30000),
      TomestoneDuration(Or(s.refreshInterval, s.refreshIntervalMs), 30 * 60 * 1000),
      TomestoneDuration(Or(s.refreshAhead, s.refreshAheadMs), 15 * 60 * 1000),
      PositiveIntOr(s.refreshBatchSize, 25),
      PositiveIntOr(s.rateLimit, 36000),
      PositiveIntOr(s.rateLimitWindowMs, 3600000),
      TomestoneDuration(Or(s.profileCacheTtl, s.cacheTtl), 6 * 60 * 60 * 1000),
      TomestoneDuration(Or(s.activityCacheTtl, s.cacheTtl), 30 * 60 * 1000),
      PositiveIntOr(s.maxActivityPages, 10),
      TomestoneDuration(s.requestSpacingMs, 500),
      TomestoneDuration(s.requestJitterMs, 250),
      PositiveIntOr(s.maxConcurrentRequests, 1),
      TomestoneDuration(Or(s.cooldown429Ms, s.cooldownMs), 5 * 60 * 1000),
      TomestoneDuration(Or(s.cooldown403Ms, s.cooldownMs), 10 * 60 * 1000))
  }

  /** Every limit, count and duration the constructor derives is positive,
      and the client is enabled exactly when it has a token. */
  predicate PositiveLimits(c: Config)
  {
    c.rateLimit > 0 && c.rateLimitWindowMs > 0 && c.maxActivityPages > 0 &&
    c.maxConcurrentRequests > 0 && c.refreshBatchSize > 0 &&
    c.timeoutMs > 0 && c.requestSpacingMs > 0 && c.requestJitterMs > 0 &&
    c.cooldown429Ms > 0 && c.cooldown403Ms > 0 &&
    c.profileCacheTtlMs > 0 && c.activityCacheTtlMs > 0 &&
    c.refreshIntervalMs > 0 && c.refreshAheadMs > 0
  }

  lemma ConfigPositive(s: Settings)
    ensures PositiveLimits(ConfigOf(s))
    ensures ConfigOf(s).enabled <==> ConfigOf(s).token != ""
  {
    DurationPositiveOrFallback(s.timeoutMs, 30000);
    DurationPositiveOrFallback(Or(s.refreshInterval, s.refreshIntervalMs), 30 * 60 * 1000);
    DurationPositiveOrFallback(Or(s.refreshAhead, s.refreshAheadMs), 15 * 60 * 1000);
    PositiveIntOrPositive(s.refreshBatchSize, 25);
    PositiveIntOrPositive(s.rateLimit, 36000);
    PositiveIntOrPositive(s.rateLimitWindowMs, 3600000);
    DurationPositiveOrFallback(Or(s.profileCacheTtl, s.cacheTtl), 6 * 60 * 60 * 1000);
    DurationPositiveOrFallback(Or(s.activityCacheTtl, s.cacheTtl), 30 * 60 * 1000);
    PositiveIntOrPositive(s.maxActivityPages, 10);
    DurationPositiveOrFallback(s.requestSpacingMs, 500);
    DurationPositiveOrFallback(s.requestJitterMs, 250);
    PositiveIntOrPositive(s.maxConcurrentRequests, 1);
    DurationPositiveOrFallback(Or(s.cooldown429Ms, s.cooldownMs), 5 * 60 * 1000);
    DurationPositiveOrFallback(Or(s.cooldown403Ms, s.cooldownMs), 10 * 60 * 1000);
  }

  /** With nothing configured the documented defaults apply: 36000 requests
      an hour, 10 activity pages, one request at a time 500 ms apart. */
  lemma DefaultConfig(token: string)
    ensures var c := ConfigOf(Settings(token, "", "", Unset, Unset, Unset, Unset, Unset, Unset,
                                       Unset, Unset, Unset, Unset, Unset, Unset, Unset, Unset,
                                       Unset, Unset, Unset, Unset));
      c.rateLimit == 36000 && c.rateLimitWindowMs == 3600000 && c.maxActivityPages == 10 &&
      c.maxConcurrentRequests == 1 && c.requestSpacingMs == 500 && c.requestJitterMs == 250 &&
      c.cooldown429Ms == 300000 && c.cooldown403Ms == 600000 && c.timeoutMs == 30000 &&
      c.baseUrl == "https://tomestone.gg"
  {
    var b := "https://tomestone.gg";
    assert b[0] == 'h' && b[|b| - 1] == 'g';
    TrimOfTrimmed(b);
  }

  // ---------------------------------------------------------------------
  // Rate limiter and cooldown
  // ---------------------------------------------------------------------

  /** requestTimestamps, cooldownUntil and cooldownReason. */
  datatype Limits = Limits(timestamps: seq<int>, cooldownUntil: int, cooldownReason: string)

  /** `timestamps.filter(t => t > cutoff)`. */
  function KeptAfter(ts: seq<int>, cutoff: int): seq<int>
  {
    if ts == [] then []
    else (if ts[0] > cutoff then [ts[0]] else []) + KeptAfter(ts[1..], cutoff)
  }

  /** The filter keeps exactly the later timestamps and never grows. */
  lemma {:induction false} KeptAfterSpec(ts: seq<int>, cutoff: int)
    ensures |KeptAfter(ts, cutoff)| <= |ts|
    ensures forall x :: x in KeptAfter(ts, cutoff) <==> x in ts && x > cutoff
  {
    if ts != [] {
      KeptAfterSpec(ts[1..], cutoff);
      assert ts == [ts[0]] + ts[1..];
    }
  }

  /** The filter distributes over concatenation, so it keeps the order. */
  lemma {:induction false} KeptAfterConcat(a: seq<int>, b: seq<int>, cutoff: int)
    ensures KeptAfter(a + b, cutoff) == KeptAfter(a, cutoff) + KeptAfter(b, cutoff)
  {
    if a != [] {
      assert (a + b)[1..] == a[1..] + b;
      KeptAfterConcat(a[1..], b, cutoff);
    } else {
      assert a + b == b;
    }
  }

  /** Pruning twice prunes at the later cutoff; pruning what is already
      recent changes nothing. */
  lemma {:induction false} KeptAfterTwice(ts: seq<int>, c1: int, c2: int)
    requires c1 <= c2
    ensures KeptAfter(KeptAfter(ts, c1), c2) == KeptAfter(ts, c2)
  {
    if ts != [] {
      KeptAfterTwice(ts[1..], c1, c2);
      var head := if ts[0] > c1 then [ts[0]] else [];
      KeptAfterConcat(head, KeptAfter(ts[1..], c1), c2);
      if ts[0] > c1 {
        assert head[1..] == [];
      }
    }
  }

  /** canMakeRequest: prune the timestamps at or before now - window, then
      admit iff fewer than rateLimit remain. */
  function Admit(st: Limits, c: Config, now: int): (Limits, bool)
  {
    var kept := KeptAfter(st.timestamps, now - c.rateLimitWindowMs);
    (st.(timestamps := kept), |kept| < c.rateLimit)
  }

  /** Admitting and then tracking never puts more than rateLimit requests
      into the window ending at now. */
  lemma AdmitThenTrack(st: Limits, c: Config, now: int)
    requires c.rateLimitWindowMs > 0
    ensures var (pruned, ok) := Admit(st, c, now);
      ok ==> |pruned.timestamps + [now]| <= c.rateLimit &&
             forall x :: x in pruned.timestamps + [now] ==> x > now - c.rateLimitWindowMs
    ensures !Admit(st, c, now).1 ==> |Admit(st, c, now).0.timestamps| >= c.rateLimit
  {
    KeptAfterSpec(st.timestamps, now - c.rateLimitWindowMs);
  }

  /** isCooldownActive: `cooldownUntil && now < cooldownUntil`. */
  predicate CooldownActive(st: Limits, now: int)
  {
    st.cooldownUntil != 0 && now < st.cooldownUntil
  }

  /** setCooldown: the deadline moves only later, and the reason with it. */
  function Cooled(st: Limits, now: int, durationMs: int, reason: string): Limits
  {
    var until := now + durationMs;
    if until > st.cooldownUntil then st.(cooldownUntil := until, cooldownReason := reason) else st
  }

  lemma CooledMonotone(st: Limits, now: int, durationMs: int, reason: string)
    ensures var r := Cooled(st, now, durationMs, reason);
      r.cooldownUntil == Max(st.cooldownUntil, now + durationMs) &&
      r.timestamps == st.timestamps &&
      (r.cooldownReason != st.cooldownReason ==> r.cooldownUntil > st.cooldownUntil && r.cooldownReason == reason) &&
      (r.cooldownUntil == st.cooldownUntil ==> r == st)
    ensures durationMs > 0 && now + durationMs > 0 ==> CooldownActive(Cooled(st, now, durationMs, reason), now)
  {
  }

  /** A reply to one API request. `retryAfter` is the Retry-After header
      ('' when absent); a Success with no payload is a body that is not
      JSON. */
  datatype Reply = NetworkError | Failure(status: int, retryAfter: string) | Success(json: Option<Payload>)

  /** The 429 back-off: Retry-After seconds when that parses to a positive
      integer, the configured 429 cooldown otherwise. */
  function Backoff(c: Config, retryAfter: string): int
  {
    match ParseInt(retryAfter)
    case Some(n) => if n > 0 then n * 1000 else c.cooldown429Ms
    case None => c.cooldown429Ms
  }

  /** A failed status: 429 and 403 arm the client-wide cooldown. */
  function AfterFailure(st: Limits, c: Config, now: int, status: int, retryAfter: string): Limits
  {
    if status == 429 then Cooled(st, now, Backoff(c, retryAfter), "rate_limit")
    else if status == 403 then Cooled(st, now, c.cooldown403Ms, "forbidden")
    else st
  }

  lemma FailureCooldowns(st: Limits, c: Config, now: int, status: int, retryAfter: string)
    ensures status == 429 ==> AfterFailure(st, c, now, status, retryAfter) == Cooled(st, now, Backoff(c, retryAfter), "rate_limit")
    ensures status == 403 ==> AfterFailure(st, c, now, status, retryAfter) == Cooled(st, now, c.cooldown403Ms, "forbidden")
    ensures status != 429 && status != 403 ==> AfterFailure(st, c, now, status, retryAfter) == st
    ensures Backoff(c, "") == c.cooldown429Ms
    ensures Backoff(c, "0") == c.cooldown429Ms
  {
    assert LeadingDigits("0") == "0";
  }

  /** A Retry-After of n seconds backs off for n * 1000 ms. */
  lemma RetryAfterSeconds(c: Config, n: nat)
    requires n > 0
    ensures Backoff(c, NatToString(n)) == n * 1000
  {
    ParseIntOfIntToString(n);
  }

  /** The body of a scheduled API request (fetchProfileById and
      fetchActivityPageById alike): refused by the rate limiter, or tracked
      and sent; a failed status may arm the cooldown; every failure is
      None. */
  function RequestStep(st: Limits, c: Config, now: int, reply: Reply): (Limits, Option<Payload>)
  {
    var (pruned, ok) := Admit(st, c, now);
    if !ok then (pruned, None)
    else
      var tracked := pruned.(timestamps := pruned.timestamps + [now]);
      match reply
      case NetworkError => (tracked, None)
      case Failure(status, retryAfter) => (AfterFailure(tracked, c, now, status, retryAfter), None)
      case Success(json) => (tracked, json)
  }

  /** A refused request sends nothing and changes no cooldown; a sent one
      is tracked; only a 429 or 403 reply touches the cooldown. */
  lemma RequestEffects(st: Limits, c: Config, now: int, reply: Reply)
    ensures var (r, out) := RequestStep(st, c, now, reply);
      var kept := KeptAfter(st.timestamps, now - c.rateLimitWindowMs);
      (|kept| >= c.rateLimit ==> r == st.(timestamps := kept) && out.None?) &&
      (|kept| < c.rateLimit ==> r.timestamps == kept + [now]) &&
      (out.Some? ==> reply.Success? && out == reply.json && r.cooldownUntil == st.cooldownUntil) &&
      (!(reply.Failure? && (reply.status == 429 || reply.status == 403)) ==>
         r.cooldownUntil == st.cooldownUntil && r.cooldownReason == st.cooldownReason)
  {
  }

  // ---------------------------------------------------------------------
  // Payloads, avatars and pagination
  // ---------------------------------------------------------------------

  /** One entry of an activity page, kept as it came. */
  datatype Activity = Activity(raw: string)

  /** `activity.activities.activities.paginator`: `data` is None when it is
      not an array; `nextPageUrl` is '' for null. */
  datatype Paginator = Paginator(data: Option<seq<Activity>>, nextPageUrl: string)

  /** The fields of a profile or activity payload the client reads ('' for
      a missing string). */
  datatype Payload = Payload(customAvatar: string, avatar: string, name: string, server: string,
                             portrait: string, paginator: Option<Paginator>)

  /** getPreferredAvatar: the custom avatar image if any, else the avatar,
      trimmed. */
  function PreferredAvatar(profile: Option<Payload>): string
  {
    match profile
    case None => ""
    case Some(p) => Trim(if p.customAvatar != "" then p.customAvatar else p.avatar)
  }

  /** The custom image wins as soon as it is non-empty, even when it is all
      white space; the result never has surrounding white space. */
  lemma PreferredAvatarChoice(p: Payload)
    ensures Trimmed(PreferredAvatar(Some(p)))
    ensures p.customAvatar != "" ==> PreferredAvatar(Some(p)) == Trim(p.customAvatar)
    ensures p.customAvatar == "" ==> PreferredAvatar(Some(p)) == Trim(p.avatar)
    ensures PreferredAvatar(None) == ""
  {
    TrimSpec(if p.customAvatar != "" then p.customAvatar else p.avatar);
  }

  /** extractActivities: a copy of the page's items, [] without an array. */
  function Extract(p: Payload): seq<Activity>
  {
    if p.paginator.Some? && p.paginator.value.data.Some? then p.paginator.value.data.value else []
  }

  /** getNextPageUrl. */
  function NextUrl(p: Payload): string
  {
    if p.paginator.Some? then p.paginator.value.nextPageUrl else ""
  }

  /** replaceActivities: the aggregated items and no next page, on a payload
      that has a paginator. */
  function Replaced(p: Payload, aggregated: seq<Activity>): Payload
  {
    if p.paginator.Some? then p.(paginator := Some(Paginator(Some(aggregated), ""))) else p
  }

  /** The URL of the first activity page. */
  function ActivityUrl(c: Config, id: string): string
  {
    c.baseUrl + "/api/character/activity/" + id + "?page=1"
  }

  /** The pagination loop from page number `count` on: follow next-page
      URLs while there is one and fewer than maxActivityPages pages were
      fetched, stop at the first failed page. Yields the limits, the items
      gathered after `acc`, and the number of requests made after `made`. */
  function Follow(st: Limits, c: Config, now: int, replies: string -> Reply, url: string,
                  count: int, acc: seq<Activity>, made: nat): (Limits, seq<Activity>, nat)
    decreases c.maxActivityPages - count
  {
    if url == "" || count >= c.maxActivityPages then (st, acc, made)
    else
      var (st', page) := RequestStep(st, c, now, replies(url));
      if page.None? then (st', acc, made + 1)
      else Follow(st', c, now, replies, NextUrl(page.value), count + 1, acc + Extract(page.value), made + 1)
  }

  /** fetchActivityAllById: the first page, then the loop; the first page
      carries all items and no next page. */
  function ActivityAll(st: Limits, c: Config, now: int, replies: string -> Reply, id: string): (Limits, Option<Payload>, nat)
  {
    var (st1, first) := RequestStep(st, c, now, replies(ActivityUrl(c, id)));
    if first.None? then (st1, None, 1)
    else
      var r := Follow(st1, c, now, replies, NextUrl(first.value), 1, Extract(first.value), 1);
      (r.0, Some(Replaced(first.value, r.1)), r.2)
  }

  /** Each page starting at page number `count` costs one request, and no
      request is made once maxActivityPages pages are in. */
  lemma {:induction false} FollowBound(st: Limits, c: Config, now: int, replies: string -> Reply, url: string,
                                       count: int, acc: seq<Activity>, made: nat)
    ensures var r := Follow(st, c, now, replies, url, count, acc, made);
      made <= r.2 <= made + Max(0, c.maxActivityPages - count) && acc <= r.1
    decreases c.maxActivityPages - count
  {
    if url != "" && count < c.maxActivityPages {
      var (st', page) := RequestStep(st, c, now, replies(url));
      if page.Some? {
        var acc' := acc + Extract(page.value);
        FollowBound(st', c, now, replies, NextUrl(page.value), count + 1, acc', made + 1);
        assert acc <= acc';
      }
    }
  }

  /** The accumulator only prefixes: the items are those of the first page
      followed by those of the later pages, in page order. */
  lemma {:induction false} FollowAppends(st: Limits, c: Config, now: int, replies: string -> Reply, url: string,
                                         count: int, acc: seq<Activity>, made: nat)
    ensures var r := Follow(st, c, now, replies, url, count, acc, made);
      var e := Follow(st, c, now, replies, url, count, [], 0);
      r == (e.0, acc + e.1, made + e.2)
    decreases c.maxActivityPages - count
  {
    if url != "" && count < c.maxActivityPages {
      var (st', page) := RequestStep(st, c, now, replies(url));
      if page.Some? {
        var items := Extract(page.value);
        FollowAppends(st', c, now, replies, NextUrl(page.value), count + 1, acc + items, made + 1);
        FollowAppends(st', c, now, replies, NextUrl(page.value), count + 1, items, 1);
        assert [] + items == items;
        assert acc + items + Follow(st', c, now, replies, NextUrl(page.value), count + 1, [], 0).1
            == acc + (items + Follow(st', c, now, replies, NextUrl(page.value), count + 1, [], 0).1);
      } else {
        assert acc + [] == acc;
      }
    } else {
      assert acc + [] == acc;
    }
  }

  /** At most maxActivityPages requests (one at least), a failed first page
      gives None, and a payload with a paginator comes back with the first
      page's items in front and no next page. */
  lemma ActivityAllShape(st: Limits, c: Config, now: int, replies: string -> Reply, id: string)
    ensures var r := ActivityAll(st, c, now, replies, id);
      var first := RequestStep(st, c, now, replies(ActivityUrl(c, id))).1;
      1 <= r.2 <= Max(1, c.maxActivityPages) &&
      (first.None? <==> r.1.None?) &&
      (first.Some? && first.value.paginator.Some? ==>
         r.1.value.paginator.Some? && r.1.value.paginator.value.nextPageUrl == "" &&
         r.1.value.paginator.value.data.Some? && Extract(first.value) <= r.1.value.paginator.value.data.value) &&
      (first.Some? && first.value.paginator.None? ==> r.1 == first)
  {
    var (st1, first) := RequestStep(st, c, now, replies(ActivityUrl(c, id)));
    if first.Some? {
      FollowBound(st1, c, now, replies, NextUrl(first.value), 1, Extract(first.value), 1);
    }
  }

  // ---------------------------------------------------------------------
  // The request dispatcher (scheduleRequest / processQueue)
  // ---------------------------------------------------------------------

  /** A scheduled request, by ticket. */
  type Job = nat

  /** A dispatch waiting on setTimeout until `dueAt`. */
  datatype Timer = Timer(job: Job, dueAt: int)

  /** requestQueue, activeRequests and lastRequestAt, together with the
      dispatches whose timer is pending and the requests running. */
  datatype Dispatcher = Dispatcher(queue: seq<Job>, active: nat, lastRequestAt: int,
                                   timers: seq<Timer>, running: seq<Job>)

  function RemoveAt<T>(s: seq<T>, k: nat): seq<T>
    requires k < |s|
  {
    s[..k] + s[k + 1..]
  }

  /** `Math.floor(Math.random() * requestJitterMs)`, with the draw given; a
      run draws from [0, requestJitterMs). */
  function Jitter(c: Config, draw: nat): int
  {
    if c.requestJitterMs > 0 then draw else 0
  }

  /** The wait before a dispatch: what is left of the spacing since the
      last request started, never negative, plus the jitter. */
  function WaitMs(c: Config, lastRequestAt: int, now: int, draw: nat): int
  {
    Max(0, c.requestSpacingMs - (now - lastRequestAt)) + Jitter(c, draw)
  }

  /** A run starting: activeRequests += 1 and lastRequestAt := now, as
      written in the run closure. */
  function RunAsWritten(d: Dispatcher, job: Job, now: int): Dispatcher
  {
    d.(active := d.active + 1, lastRequestAt := now, running := d.running + [job])
  }

  /** processQueue as written: the slot is taken only when the run starts,
      after the timer. */
  function ProcessAsWritten(d: Dispatcher, c: Config, now: int, draw: nat): Dispatcher
  {
    if d.active >= c.maxConcurrentRequests || d.queue == [] then d
    else
      var next := d.queue[0];
      var wait := WaitMs(c, d.lastRequestAt, now, draw);
      var rest := d.(queue := d.queue[1..]);
      if wait > 0 then rest.(timers := d.timers + [Timer(next, now + wait)])
      else RunAsWritten(rest, next, now)
  }

  function ScheduleAsWritten(d: Dispatcher, c: Config, job: Job, now: int, draw: nat): Dispatcher
  {
    ProcessAsWritten(d.(queue := d.queue + [job]), c, now, draw)
  }

  function FireAsWritten(d: Dispatcher, k: nat, now: int): Dispatcher
    requires k < |d.timers|
  {
    RunAsWritten(d.(timers := RemoveAt(d.timers, k)), d.timers[k].job, now)
  }

  /** As written, two requests scheduled back to back both pass the
      activeRequests check while the first waits for its timer, so with
      maxConcurrentRequests = 1 two requests run at once. */
  lemma AsWrittenExceedsConcurrency(c: Config, now: int, draw: nat)
    requires c.maxConcurrentRequests == 1 && 0 < draw < c.requestJitterMs
    ensures var d0 := Dispatcher([], 0, 0, [], []);
      var d2 := ScheduleAsWritten(ScheduleAsWritten(d0, c, 1, now, draw), c, 2, now, draw);
      var d4 := FireAsWritten(FireAsWritten(d2, 0, now + draw), 0, now + draw);
      |d2.timers| == 2 && d4.active == 2 && |d4.running| == 2 && d4.active > c.maxConcurrentRequests
  {
    var d0 := Dispatcher([], 0, 0, [], []);
    var d1 := ScheduleAsWritten(d0, c, 1, now, draw);
    assert d1.active == 0 && |d1.timers| == 1 && d1.queue == [];
    var d2 := ScheduleAsWritten(d1, c, 2, now, draw);
    assert d2.active == 0 && |d2.timers| == 2;
  }

  /** processQueue with the slot taken at dispatch time: activeRequests
      counts pending timers as well as running requests. */
  function Process(d: Dispatcher, c: Config, now: int, draw: nat): Dispatcher
  {
    if d.active >= c.maxConcurrentRequests || d.queue == [] then d
    else
      var next := d.queue[0];
      var wait := WaitMs(c, d.lastRequestAt, now, draw);
      var taken := d.(queue := d.queue[1..], active := d.active + 1);
      if wait > 0 then taken.(timers := d.timers + [Timer(next, now + wait)])
      else taken.(lastRequestAt := now, running := d.running + [next])
  }

  /** scheduleRequest: enqueue, then try to dispatch. */
  function Schedule(d: Dispatcher, c: Config, job: Job, now: int, draw: nat): Dispatcher
  {
    Process(d.(queue := d.queue + [job]), c, now, draw)
  }

  /** A pending timer fires: its request starts. */
  function Fire(d: Dispatcher, k: nat, now: int): Dispatcher
    requires k < |d.timers|
  {
    d.(timers := RemoveAt(d.timers, k), lastRequestAt := now, running := d.running + [d.timers[k].job])
  }

  /** A running request settles: the finally block frees its slot and
      processes the queue. */
  function Complete(d: Dispatcher, c: Config, k: nat, now: int, draw: nat): Dispatcher
    requires k < |d.running| && d.active > 0
  {
    Process(d.(running := RemoveAt(d.running, k), active := d.active - 1), c, now, draw)
  }

  /** Every taken slot is a pending timer or a running request, and no more
      slots are taken than maxConcurrentRequests. */
  predicate DispatchValid(d: Dispatcher, c: Config)
  {
    d.active == |d.timers| + |d.running| && d.active <= c.maxConcurrentRequests
  }

  /** Processing keeps the invariant, dispatches nothing when the slots are
      full or the queue is empty, and otherwise dispatches the head of the
      queue, after WaitMs. */
  lemma ProcessSpec(d: Dispatcher, c: Config, now: int, draw: nat)
    requires DispatchValid(d, c)
    ensures DispatchValid(Process(d, c, now, draw), c)
    ensures d.active >= c.maxConcurrentRequests || d.queue == [] ==> Process(d, c, now, draw) == d
    ensures d.active < c.maxConcurrentRequests && d.queue != [] ==>
      var r := Process(d, c, now, draw);
      var wait := WaitMs(c, d.lastRequestAt, now, draw);
      [d.queue[0]] + r.queue == d.queue &&
      (wait > 0 ==> r.timers == d.timers + [Timer(d.queue[0], now + wait)] && r.running == d.running) &&
      (wait <= 0 ==> r.running == d.running + [d.queue[0]] && r.timers == d.timers && r.lastRequestAt == now)
  {
  }

  /** Scheduling keeps the invariant. With every slot taken the job only
      joins the queue; with a slot free and nothing queued it is dispatched
      at once, running now or behind a timer of WaitMs; with a slot free and
      a queue waiting, the head of the queue goes first. */
  lemma ScheduleSpec(d: Dispatcher, c: Config, job: Job, now: int, draw: nat)
    requires DispatchValid(d, c)
    ensures DispatchValid(Schedule(d, c, job, now, draw), c)
    ensures d.active >= c.maxConcurrentRequests ==>
      Schedule(d, c, job, now, draw) == d.(queue := d.queue + [job])
    ensures d.active < c.maxConcurrentRequests && d.queue == [] ==>
      var r := Schedule(d, c, job, now, draw);
      var wait := WaitMs(c, d.lastRequestAt, now, draw);
      r.queue == [] && r.active == d.active + 1 &&
      (wait > 0 ==> r.timers == d.timers + [Timer(job, now + wait)] && r.running == d.running) &&
      (wait <= 0 ==> r.running == d.running + [job] && r.timers == d.timers && r.lastRequestAt == now)
    ensures d.active < c.maxConcurrentRequests && d.queue != [] ==>
      var r := Schedule(d, c, job, now, draw);
      r.queue == d.queue[1..] + [job] && r.active == d.active + 1
  {
    ProcessSpec(d.(queue := d.queue + [job]), c, now, draw);
  }

  lemma FireSpec(d: Dispatcher, c: Config, k: nat, now: int)
    requires DispatchValid(d, c) && k < |d.timers|
    ensures DispatchValid(Fire(d, k, now), c)
    ensures Fire(d, k, now).queue == d.queue
  {
  }

  lemma CompleteSpec(d: Dispatcher, c: Config, k: nat, now: int, draw: nat)
    requires DispatchValid(d, c) && k < |d.running|
    ensures DispatchValid(Complete(d, c, k, now, draw), c)
  {
    ProcessSpec(d.(running := RemoveAt(d.running, k), active := d.active - 1), c, now, draw);
  }

  /** Under the invariant at most maxConcurrentRequests requests run. */
  lemma RunningBounded(d: Dispatcher, c: Config)
    requires DispatchValid(d, c)
    ensures |d.running| <= c.maxConcurrentRequests
  {
  }

  // ---------------------------------------------------------------------
  // The client
  // ---------------------------------------------------------------------

  class TomestoneClient {
    const config: Config
    var requestTimestamps: seq<int>
    var cooldownUntil: int
    var cooldownReason: string
    var requestQueue: seq<Job>
    var activeRequests: nat
    var lastRequestAt: int
    var timers: seq<Timer>
    var running: seq<Job>

    function State(): Limits
      reads this`requestTimestamps, this`cooldownUntil, this`cooldownReason
    {
      Limits(requestTimestamps, cooldownUntil, cooldownReason)
    }

    function Queue(): Dispatcher
      reads this`requestQueue, this`activeRequests, this`lastRequestAt, this`timers, this`running
    {
      Dispatcher(requestQueue, activeRequests, lastRequestAt, timers, running)
    }

    predicate Valid()
      reads this`requestQueue, this`activeRequests, this`lastRequestAt, this`timers, this`running
    {
      PositiveLimits(config) && DispatchValid(Queue(), config)
    }

    constructor(settings: Settings)
      ensures config == ConfigOf(settings) && Valid()
      ensures State() == Limits([], 0, "") && Queue() == Dispatcher([], 0, 0, [], [])
    {
      config := ConfigOf(settings);
      requestTimestamps := [];
      cooldownUntil := 0;
      cooldownReason := "";
      requestQueue := [];
      activeRequests := 0;
      lastRequestAt := 0;
      timers := [];
      running := [];
      new;
      ConfigPositive(settings);
    }

    /** cleanupOldRequests: the filter, element by element. */
    method CleanupOldRequests(now: int)
      modifies this`requestTimestamps
      ensures requestTimestamps == KeptAfter(old(requestTimestamps), now - config.rateLimitWindowMs)
    {
      var cutoff := now - config.rateLimitWindowMs;
      var kept: seq<int> := [];
      var i := |requestTimestamps|;
      while i > 0
        invariant 0 <= i <= |requestTimestamps|
        invariant kept == KeptAfter(requestTimestamps[i..], cutoff)
      {
        i := i - 1;
        assert requestTimestamps[i..][1..] == requestTimestamps[i + 1..];
        if requestTimestamps[i] > cutoff {
          kept := [requestTimestamps[i]] + kept;
        }
      }
      assert requestTimestamps[0..] == requestTimestamps;
      requestTimestamps := kept;
    }

    method CanMakeRequest(now: int) returns (ok: bool)
      modifies this`requestTimestamps
      ensures (State(), ok) == Admit(old(State()), config, now)
    {
      CleanupOldRequests(now);
      ok := |requestTimestamps| < config.rateLimit;
    }

    method TrackRequest(now: int)
      modifies this`requestTimestamps
      ensures requestTimestamps == old(requestTimestamps) + [now]
    {
      requestTimestamps := requestTimestamps + [now];
    }

    function IsCooldownActive(now: int): bool
      reads this`requestTimestamps, this`cooldownUntil, this`cooldownReason
    {
      CooldownActive(State(), now)
    }

    method SetCooldown(now: int, durationMs: int, reason: string)
      modifies this`cooldownUntil, this`cooldownReason
      ensures State() == Cooled(old(State()), now, durationMs, reason)
    {
      var until := now + durationMs;
      if until > cooldownUntil {
        cooldownUntil := until;
        cooldownReason := reason;
      }
    }

    /** The body of one scheduled API request. */
    method Request(now: int, reply: Reply) returns (payload: Option<Payload>)
      modifies this`requestTimestamps, this`cooldownUntil, this`cooldownReason
      ensures (State(), payload) == RequestStep(old(State()), config, now, reply)
    {
      var ok := CanMakeRequest(now);
      if !ok {
        payload := None;
      } else {
        TrackRequest(now);
        match reply
        case NetworkError =>
          payload := None;
        case Failure(status, retryAfter) =>
          if status == 429 {
            SetCooldown(now, Backoff(config, retryAfter), "rate_limit");
          } else if status == 403 {
            SetCooldown(now, config.cooldown403Ms, "forbidden");
          }
          payload := None;
        case Success(json) =>
          payload := json;
      }
    }

    /** fetchActivityAllById, with each URL's reply given by `replies`. */
    method FetchActivityAll(now: int, id: string, replies: string -> Reply) returns (payload: Option<Payload>, requests: nat)
      modifies this`requestTimestamps, this`cooldownUntil, this`cooldownReason
      ensures (State(), payload, requests) == ActivityAll(old(State()), config, now, replies, id)
    {
      var first := Request(now, replies(ActivityUrl(config, id)));
      requests := 1;
      if first.None? {
        payload := None;
      } else {
        var aggregated := Extract(first.value);
        var nextUrl := NextUrl(first.value);
        var pageCount := 1;
        var failed := false;
        ghost var goal := Follow(State(), config, now, replies, nextUrl, 1, aggregated, 1);
        while !failed && nextUrl != "" && pageCount < config.maxActivityPages
          invariant !failed ==> Follow(State(), config, now, replies, nextUrl, pageCount, aggregated, requests) == goal
          invariant failed ==> (State(), aggregated, requests) == goal
          decreases !failed, config.maxActivityPages - pageCount
        {
          var page := Request(now, replies(nextUrl));
          requests := requests + 1;
          if page.None? {
            failed := true;
          } else {
            aggregated := aggregated + Extract(page.value);
            nextUrl := NextUrl(page.value);
            pageCount := pageCount + 1;
          }
        }
        payload := Some(Replaced(first.value, aggregated));
      }
    }

    /** scheduleRequest. */
    method ScheduleRequest(job: Job, now: int, draw: nat)
      requires Valid()
      modifies this`requestQueue, this`activeRequests, this`lastRequestAt, this`timers, this`running
      ensures Valid()
      ensures Queue() == Schedule(old(Queue()), config, job, now, draw)
    {
      ghost var before := Queue();
      requestQueue := requestQueue + [job];
      ProcessQueue(now, draw);
      ScheduleSpec(before, config, job, now, draw);
    }

    /** processQueue, taking the slot at dispatch. */
    method ProcessQueue(now: int, draw: nat)
      requires PositiveLimits(config) && activeRequests <= config.maxConcurrentRequests
      modifies this`requestQueue, this`activeRequests, this`lastRequestAt, this`timers, this`running
      ensures Queue() == Process(old(Queue()), config, now, draw)
    {
      if activeRequests >= config.maxConcurrentRequests || requestQueue == [] {
        return;
      }
      var next := requestQueue[0];
      requestQueue := requestQueue[1..];
      var jitter := if config.requestJitterMs > 0 then draw else 0;
      var waitMs := Max(0, config.requestSpacingMs - (now - lastRequestAt)) + jitter;
      activeRequests := activeRequests + 1;
      if waitMs > 0 {
        timers := timers + [Timer(next, now + waitMs)];
      } else {
        lastRequestAt := now;
        running := running + [next];
      }
    }

    /** The k-th pending timer fires and its request starts. */
    method TimerFired(k: nat, now: int)
      requires Valid() && k < |timers|
      modifies this`lastRequestAt, this`timers, this`running
      ensures Valid()
      ensures Queue() == Fire(old(Queue()), k, now)
    {
      ghost var before := Queue();
      var job := timers[k].job;
      timers := RemoveAt(timers, k);
      lastRequestAt := now;
      running := running + [job];
      FireSpec(before, config, k, now);
    }

    /** The k-th running request settles. */
    method RequestSettled(k: nat, now: int, draw: nat)
      requires Valid() && k < |running|
      modifies this`requestQueue, this`activeRequests, this`lastRequestAt, this`timers, this`running
      ensures Valid()
      ensures Queue() == Complete(old(Queue()), config, k, now, draw)
    {
      ghost var before := Queue();
      running := RemoveAt(running, k);
      activeRequests := activeRequests - 1;
      ProcessQueue(now, draw);
      CompleteSpec(before, config, k, now, draw);
    }
  }
}
