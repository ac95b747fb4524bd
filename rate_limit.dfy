/**
 * Rate limiting of one-time-password requests (src/lib/rate-limit.ts).
 * The history that the source keeps in `localStorage` under `otp_rate_limit` is the
 * field of `HistoryStore`; every reading of the clock is the parameter `now` (milliseconds).
 * A request is refused while the newest kept request is under a minute old, and while
 * ten requests lie in the last ten minutes.
 */
module RateLimit {
  import opened Arith
  import opened Wrappers

  const MaxRequests: int := 10
  /** Ten minutes, in milliseconds. */
  const TimeWindow: int := 10 * 60 * 1000
  /** One minute between requests, in milliseconds. */
  const CooldownTime: int := 60 * 1000

  datatype Entry = Entry(email: string, timestamp: int)

  datatype Reason = Cooldown | RateLimited

  /** The result of `canSendOtpRequest`; absent optional fields are `None`. */
  datatype Decision = Decision(allowed: bool, reason: Option<Reason>, retryAfter: Option<int>, requestsLeft: Option<int>)

  /** The result of `getRateLimitInfo`. */
  datatype Info = Info(requestsMade: int, requestsLeft: int, oldestRequestAge: int)

  // ---------------------------------------------------------------------------
  // The ten-minute window

  predicate InWindow(now: int, e: Entry)
  {
    now - e.timestamp < TimeWindow
  }

  /** `history.filter(entry => now - entry.timestamp < TIME_WINDOW)`. */
  function Recent(history: seq<Entry>, now: int): (r: seq<Entry>)
    ensures |r| <= |history|
  {
    if history == [] then []
    else (if InWindow(now, history[0]) then [history[0]] else []) + Recent(history[1..], now)
  }

  /** The filter keeps exactly the entries of the window. */
  lemma {:induction false} RecentMembers(history: seq<Entry>, now: int)
    ensures forall e :: e in Recent(history, now) <==> e in history && InWindow(now, e)
  {
    if history != [] {
      RecentMembers(history[1..], now);
      assert history == [history[0]] + history[1..];
    }
  }

  /** The filter works entry by entry and keeps the order: filtering a concatenation filters each part. */
  lemma {:induction false} RecentAppend(a: seq<Entry>, b: seq<Entry>, now: int)
    ensures Recent(a + b, now) == Recent(a, now) + Recent(b, now)
  {
    if a == [] {
      assert a + b == b;
    } else {
      var head := if InWindow(now, a[0]) then [a[0]] else [];
      assert (a + b)[0] == a[0] && (a + b)[1..] == a[1..] + b;
      assert Recent(a + b, now) == head + Recent(a[1..] + b, now);
      RecentAppend(a[1..], b, now);
      assert head + (Recent(a[1..], now) + Recent(b, now)) == (head + Recent(a[1..], now)) + Recent(b, now);
    }
  }

  /** Filtering twice with the same clock changes nothing. */
  lemma {:induction false} RecentIdempotent(history: seq<Entry>, now: int)
    ensures Recent(Recent(history, now), now) == Recent(history, now)
  {
    if history != [] {
      var head := if InWindow(now, history[0]) then [history[0]] else [];
      RecentAppend(head, Recent(history[1..], now), now);
      RecentIdempotent(history[1..], now);
    }
  }

  /** Every entry of a filtered history is in the window, so filtering it again keeps it whole. */
  lemma {:induction false} RecentOfInWindow(history: seq<Entry>, now: int)
    requires forall e :: e in history ==> InWindow(now, e)
    ensures Recent(history, now) == history
  {
    if history != [] {
      assert history[0] in history;
      assert forall e :: e in history[1..] ==> e in history;
      RecentOfInWindow(history[1..], now);
    }
  }

  /** `getRequestHistory`: the stored history, pruned to the window. */
  function RequestHistory(stored: seq<Entry>, now: int): seq<Entry>
  {
    Recent(stored, now)
  }

  // ---------------------------------------------------------------------------
  // The decision

  /** The age of the newest kept request, if any. */
  function LastAge(history: seq<Entry>, now: int): Option<int>
  {
    if history == [] then None else Some(now - history[|history| - 1].timestamp)
  }

  /** `canSendOtpRequest`: the cooldown first, then the window limit. The email is not consulted. */
  function CanSendOtpRequest(stored: seq<Entry>, now: int, email: string): (d: Decision)
    ensures d.allowed <==> d.reason == None
    ensures d.allowed ==> d.retryAfter == None
    ensures !d.allowed ==> d.retryAfter != None
  {
    var history := RequestHistory(stored, now);
    var last := LastAge(history, now);
    if last.Some? && last.value < CooldownTime then
      Decision(false, Some(Cooldown), Some(CeilDiv(CooldownTime - last.value, 1000)), None)
    else
      var recentRequests := Recent(history, now);
      if |recentRequests| >= MaxRequests then
        var timeUntilOldestExpires := TimeWindow - (now - recentRequests[0].timestamp);
        Decision(false, Some(RateLimited), Some(CeilDiv(timeUntilOldestExpires, 1000)), Some(0))
      else
        Decision(true, None, None, Some(MaxRequests - |recentRequests|))
  }

  /** A request within a minute of the newest kept one is refused for the cooldown, whatever the count. The wait
      is the rest of the minute rounded up to whole seconds: 1 to 60 seconds when the newest request is not in
      the future. */
  lemma CooldownFirst(stored: seq<Entry>, now: int, email: string)
    requires var h := Recent(stored, now); h != [] && now - h[|h| - 1].timestamp < CooldownTime
    ensures var d := CanSendOtpRequest(stored, now, email);
      !d.allowed && d.reason == Some(Cooldown) && d.requestsLeft == None && d.retryAfter.Some?
      && d.retryAfter.value >= 1
    ensures var h := Recent(stored, now); var d := CanSendOtpRequest(stored, now, email);
      d.retryAfter == Some(CeilDiv(CooldownTime - (now - h[|h| - 1].timestamp), 1000))
    ensures var h := Recent(stored, now); var d := CanSendOtpRequest(stored, now, email);
      now - h[|h| - 1].timestamp >= 0 ==> d.retryAfter.value <= 60
  {
  }

  /** Past the cooldown, ten or more requests in the window refuse the request with no requests left and a
      wait of at least a second, until the oldest request leaves the window. */
  lemma {:induction false} WindowFull(stored: seq<Entry>, now: int, email: string)
    requires var h := Recent(stored, now); !(h != [] && now - h[|h| - 1].timestamp < CooldownTime)
    requires |Recent(stored, now)| >= MaxRequests
    ensures var d := CanSendOtpRequest(stored, now, email);
      !d.allowed && d.reason == Some(RateLimited) && d.requestsLeft == Some(0)
      && d.retryAfter.Some? && d.retryAfter.value >= 1
    ensures var h := Recent(stored, now); var d := CanSendOtpRequest(stored, now, email);
      d.retryAfter.value * 1000 >= TimeWindow - (now - h[0].timestamp)
  {
    var h := Recent(stored, now);
    var wait := TimeWindow - (now - h[0].timestamp);
    WindowFullDecision(stored, now, email);
    OldestInWindow(stored, now);
    WholeSeconds(wait);
  }

  /** The decision once the window is full: the wait runs until the oldest request leaves the window. */
  lemma {:induction false} WindowFullDecision(stored: seq<Entry>, now: int, email: string)
    requires var h := Recent(stored, now); !(h != [] && now - h[|h| - 1].timestamp < CooldownTime)
    requires |Recent(stored, now)| >= MaxRequests
    ensures var h := Recent(stored, now); var wait := TimeWindow - (now - h[0].timestamp);
      CanSendOtpRequest(stored, now, email) == Decision(false, Some(RateLimited), Some(CeilDiv(wait, 1000)), Some(0))
  {
    RecentIdempotent(stored, now);
  }

  /** The oldest request of the window has not yet left it, so the wait for it is positive. */
  lemma {:induction false} OldestInWindow(stored: seq<Entry>, now: int)
    requires Recent(stored, now) != []
    ensures var h := Recent(stored, now); TimeWindow - (now - h[0].timestamp) > 0
  {
    var h := Recent(stored, now);
    RecentMembers(stored, now);
    assert h[0] in h;
  }

  /** A positive wait in milliseconds rounds up to at least one whole second that covers it. */
  lemma WholeSeconds(wait: int)
    requires wait > 0
    ensures CeilDiv(wait, 1000) >= 1 && CeilDiv(wait, 1000) * 1000 >= wait
  {
  }

  /** Otherwise the request is allowed and 1 to 10 requests are left, ten less the requests in the window. */
  lemma {:induction false} AllowedLeft(stored: seq<Entry>, now: int, email: string)
    requires var h := Recent(stored, now); !(h != [] && now - h[|h| - 1].timestamp < CooldownTime)
    requires |Recent(stored, now)| < MaxRequests
    ensures var d := CanSendOtpRequest(stored, now, email);
      d.allowed && d.requestsLeft == Some(MaxRequests - |Recent(stored, now)|)
      && 1 <= d.requestsLeft.value <= MaxRequests
  {
    RecentIdempotent(stored, now);
  }

  /** The decision allows the request exactly when neither the cooldown nor the window limit applies. */
  lemma {:induction false} AllowedIff(stored: seq<Entry>, now: int, email: string)
    ensures var h := Recent(stored, now);
      CanSendOtpRequest(stored, now, email).allowed
      <==> (h == [] || now - h[|h| - 1].timestamp >= CooldownTime) && |h| < MaxRequests
  {
    RecentIdempotent(stored, now);
  }

  /** The limits are global: the email makes no difference. */
  lemma EmailIgnored(stored: seq<Entry>, now: int, a: string, b: string)
    ensures CanSendOtpRequest(stored, now, a) == CanSendOtpRequest(stored, now, b)
  {
  }

  // ---------------------------------------------------------------------------
  // The information

  /** `getRateLimitInfo`. */
  function RateLimitInfo(stored: seq<Entry>, now: int): (r: Info)
    ensures r.requestsMade == |Recent(stored, now)|
    ensures 0 <= r.requestsLeft <= MaxRequests && r.requestsMade + r.requestsLeft >= MaxRequests
    ensures r.requestsLeft == 0 <==> r.requestsMade >= MaxRequests
    ensures r.requestsLeft > 0 ==> r.requestsMade + r.requestsLeft == MaxRequests
    ensures r.requestsMade == 0 ==> r.oldestRequestAge == 0
    ensures r.requestsMade > 0 ==> r.oldestRequestAge == now - Recent(stored, now)[0].timestamp
    ensures r.oldestRequestAge < TimeWindow
  {
    var history := RequestHistory(stored, now);
    var requestsMade := |history|;
    var requestsLeft := Max(0, MaxRequests - requestsMade);
    var oldestRequestAge := if |history| > 0 then now - history[0].timestamp else 0;
    RecentMembers(stored, now);
    assert |history| > 0 ==> history[0] in history;
    Info(requestsMade, requestsLeft, oldestRequestAge)
  }

  /** Outside the cooldown, the decision and the information agree on the requests left. */
  lemma {:induction false} InfoMatchesDecision(stored: seq<Entry>, now: int, email: string)
    requires var h := Recent(stored, now); h == [] || now - h[|h| - 1].timestamp >= CooldownTime
    ensures var d, i := CanSendOtpRequest(stored, now, email), RateLimitInfo(stored, now);
      d.requestsLeft == Some(i.requestsLeft) && (d.allowed <==> i.requestsLeft > 0)
  {
    if |Recent(stored, now)| >= MaxRequests {
      WindowFullDecision(stored, now, email);
    } else {
      AllowedLeft(stored, now, email);
    }
  }

  // ---------------------------------------------------------------------------
  // The stored history

  /** The history under `otp_rate_limit`. */
  class HistoryStore {
    var stored: seq<Entry>

    constructor ()
      ensures stored == []
    {
      stored := [];
    }

    /** `recordOtpRequest`: the pruned history with `(email, now)` pushed at the end is written back. */
    method RecordOtpRequest(email: string, now: int)
      modifies this
      ensures stored == Recent(old(stored), now) + [Entry(email, now)]
    {
      var history := RequestHistory(stored, now);
      history := history + [Entry(email, now)];
      stored := history;
    }

    /** `clearRateLimitHistory`. */
    method ClearRateLimitHistory()
      modifies this
      ensures stored == []
    {
      stored := [];
    }
  }

  /** Recording keeps the entries of the window in order and adds exactly the new one after them. */
  lemma {:induction false} RecordKeepsWindow(stored: seq<Entry>, email: string, now: int)
    ensures var s := Recent(stored, now) + [Entry(email, now)];
      Recent(s, now) == s && |s| == |Recent(stored, now)| + 1 && s[|s| - 1] == Entry(email, now)
  {
    var s := Recent(stored, now) + [Entry(email, now)];
    RecentAppend(Recent(stored, now), [Entry(email, now)], now);
    RecentIdempotent(stored, now);
    assert Recent([Entry(email, now)], now) == [Entry(email, now)];
  }

  /** Right after a recorded request, and for the next minute, a new request is refused for the cooldown. */
  lemma {:induction false} CooldownAfterRecord(stored: seq<Entry>, email: string, now: int, later: int, other: string)
    requires now <= later < now + CooldownTime
    ensures var d := CanSendOtpRequest(Recent(stored, now) + [Entry(email, now)], later, other);
      !d.allowed && d.reason == Some(Cooldown)
  {
    var s := Recent(stored, now) + [Entry(email, now)];
    RecentAppend(Recent(stored, now), [Entry(email, now)], later);
    assert Recent([Entry(email, now)], later) == [Entry(email, now)];
    var h := Recent(s, later);
    assert h[|h| - 1] == Entry(email, now);
    CooldownFirst(s, later, other);
  }
}
