/** The per-address sliding-window rate limiter of src/control_server.h. */
module RateLimiter {

  datatype Limits = Limits(maxConnections: int, windowMs: int)

  datatype Request = Request(ip: string, now: int)

  /** A request and its answer. */
  datatype Event = Event(ip: string, now: int, ok: bool)

  // ---- What the limiter should do, over the full log ----

  /** Times of the accepted requests of one address. */
  function Accepts(log: seq<Event>, ip: string): seq<int> {
    if log == [] then []
    else
      var last := log[|log| - 1];
      Accepts(log[..|log| - 1], ip) + if last.ip == ip && last.ok then [last.now] else []
  }

  /** Those younger than the window. */
  function Fresh(times: seq<int>, now: int, windowMs: int): seq<int> {
    if times == [] then []
    else (if now - times[0] < windowMs then [times[0]] else []) + Fresh(times[1..], now, windowMs)
  }

  function Answer(limits: Limits, log: seq<Event>, r: Request): Event {
    Event(r.ip, r.now, |Fresh(Accepts(log, r.ip), r.now, limits.windowMs)| < limits.maxConnections)
  }

  /** The log of a sequence of requests. */
  function Log(limits: Limits, requests: seq<Request>): (log: seq<Event>)
    ensures |log| == |requests|
  {
    if requests == [] then []
    else
      var before := Log(limits, requests[..|requests| - 1]);
      before + [Answer(limits, before, requests[|requests| - 1])]
  }

  // ---- What it does ----

  ghost predicate Sorted(times: seq<int>) {
    forall i, j :: 0 <= i <= j < |times| ==> times[i] <= times[j]
  }

  /** The kept times are in order, not in the future, and lack only times that have expired. */
  ghost predicate Tracks(kept: seq<int>, log: seq<Event>, ip: string, last: int, windowMs: int) {
    && Sorted(kept) && (forall i :: 0 <= i < |kept| ==> kept[i] <= last)
    && Fresh(kept, last, windowMs) == Fresh(Accepts(log, ip), last, windowMs)
  }

  function Kept(window: map<string, seq<int>>, ip: string): seq<int> {
    if ip in window then window[ip] else []
  }

  class Limiter {
    const limits: Limits
    var window: map<string, seq<int>>
    ghost var log: seq<Event>
    ghost var last: int

    constructor (limits: Limits, ghost start: int)
      ensures Valid() && this.limits == limits && log == [] && last == start
    {
      this.limits := limits;
      window, log, last := map[], [], start;
    }

    ghost predicate Valid()
      reads this
    {
      forall ip :: Tracks(Kept(window, ip), log, ip, last, limits.windowMs)
    }

    /** Pruning the expired front of the list answers as the full log would. */
    method Allow(ip: string, now: int) returns (ok: bool)
      requires Valid() && last <= now
      modifies this
      ensures Valid() && last == now
      ensures log == old(log) + [Answer(limits, old(log), Request(ip, now))]
      ensures ok == Answer(limits, old(log), Request(ip, now)).ok
    {
      hide Fresh, Accepts, Sorted;
      ghost var w := limits.windowMs;
      ghost var kept := Kept(window, ip);
      assert Tracks(kept, log, ip, last, w);
      var timestamps := if ip in window then window[ip] else [];
      while timestamps != [] && now - timestamps[0] >= limits.windowMs
        invariant Sorted(timestamps) && (forall i :: 0 <= i < |timestamps| ==> timestamps[i] <= now)
        invariant Fresh(timestamps, now, w) == Fresh(kept, now, w)
        modifies {}
        decreases |timestamps|
      {
        DropExpired(timestamps, now, w);
        timestamps := timestamps[1..];
      }
      AllFresh(timestamps, now, w);
      FreshLater(kept, Accepts(log, ip), last, now, w);
      ok := |timestamps| < limits.maxConnections;
      ghost var event := Answer(limits, log, Request(ip, now));
      if ok {
        timestamps := timestamps + [now];
      }
      Renewed(limits, log, ip, now, timestamps, event);
      OthersKept(window, log, last, ip, now, event, w);
      window := window[ip := timestamps];
      log, last := log + [event], now;
      forall other
        ensures Tracks(Kept(window, other), log, other, last, w)
      {
        if other != ip {
          assert Kept(window, other) == Kept(old(window), other);
        }
      }
    }
  }

  lemma DropExpired(times: seq<int>, now: int, windowMs: int)
    requires Sorted(times) && times != [] && now - times[0] >= windowMs
    ensures Sorted(times[1..]) && Fresh(times[1..], now, windowMs) == Fresh(times, now, windowMs)
  {
  }

  /** Of a list in order whose first time is fresh, every time is. */
  lemma {:induction false} AllFresh(times: seq<int>, now: int, windowMs: int)
    requires Sorted(times) && (times != [] ==> now - times[0] < windowMs)
    ensures Fresh(times, now, windowMs) == times
    decreases |times|
  {
    if times != [] {
      var rest := times[1..];
      AllFresh(rest, now, windowMs);
    }
  }

  lemma {:induction false} FreshAppend(a: seq<int>, b: seq<int>, now: int, windowMs: int)
    ensures Fresh(a + b, now, windowMs) == Fresh(a, now, windowMs) + Fresh(b, now, windowMs)
    decreases |a|
  {
    if a == [] {
      assert a + b == b;
    } else {
      assert (a + b)[1..] == a[1..] + b;
      FreshAppend(a[1..], b, now, windowMs);
    }
  }

  /** What is fresh later is fresh now. */
  lemma {:induction false} FreshOfFresh(times: seq<int>, last: int, now: int, windowMs: int)
    requires last <= now
    ensures Fresh(Fresh(times, last, windowMs), now, windowMs) == Fresh(times, now, windowMs)
    decreases |times|
  {
    if times != [] {
      FreshOfFresh(times[1..], last, now, windowMs);
      var head, tail := if last - times[0] < windowMs then [times[0]] else [], Fresh(times[1..], last, windowMs);
      FreshAppend(head, tail, now, windowMs);
    }
  }

  lemma FreshLater(a: seq<int>, b: seq<int>, last: int, now: int, windowMs: int)
    requires last <= now && Fresh(a, last, windowMs) == Fresh(b, last, windowMs)
    ensures Fresh(a, now, windowMs) == Fresh(b, now, windowMs)
  {
    FreshOfFresh(a, last, now, windowMs);
  }

  /** The address asked for is tracked again after its answer. */
  lemma Renewed(limits: Limits, log: seq<Event>, ip: string, now: int, kept: seq<int>, e: Event)
    requires e == Answer(limits, log, Request(ip, now))
    requires var times := Fresh(Accepts(log, ip), now, limits.windowMs);
      && Sorted(times) && (forall i :: 0 <= i < |times| ==> times[i] <= now)
      && kept == times + if e.ok then [now] else []
    ensures Tracks(kept, log + [e], ip, now, limits.windowMs)
  {
    hide Fresh;
    var w := limits.windowMs;
    var times, more := Accepts(log, ip), if e.ok then [now] else [];
    FreshAppend(times, more, now, w);
    FreshAppend(Fresh(times, now, w), more, now, w);
    FreshOfFresh(times, now, now, w);
  }

  /** The other addresses stay tracked. */
  lemma OthersKept(window: map<string, seq<int>>, log: seq<Event>, last: int,
                   ip: string, now: int, e: Event, windowMs: int)
    requires (forall x :: Tracks(Kept(window, x), log, x, last, windowMs)) && last <= now && e.ip == ip
    ensures forall x :: x != ip ==> Tracks(Kept(window, x), log + [e], x, now, windowMs)
  {
    hide Fresh;
    forall x | x != ip
      ensures Tracks(Kept(window, x), log + [e], x, now, windowMs)
    {
      FreshLater(Kept(window, x), Accepts(log, x), last, now, windowMs);
      assert Accepts(log, x) + [] == Accepts(log, x);
    }
  }

  /** A whole run of the limiter, for a clock that does not go back. */
  method Serve(limits: Limits, requests: seq<Request>) returns (answers: seq<bool>)
    requires forall i, j :: 0 <= i <= j < |requests| ==> requests[i].now <= requests[j].now
    ensures |answers| == |requests|
    ensures forall i :: 0 <= i < |requests| ==> answers[i] == Log(limits, requests)[i].ok
  {
    hide Fresh, Accepts;
    answers := [];
    ghost var start := if requests == [] then 0 else requests[0].now;
    var limiter := new Limiter(limits, start);
    for i := 0 to |requests|
      invariant fresh(limiter) && limiter.Valid() && limiter.limits == limits
      invariant limiter.log == Log(limits, requests[..i])
      invariant limiter.last == if i == 0 then start else requests[i - 1].now
      invariant |answers| == i && forall k :: 0 <= k < i ==> answers[k] == limiter.log[k].ok
    {
      assert requests[..i + 1][..i] == requests[..i];
      var ok := limiter.Allow(requests[i].ip, requests[i].now);
      answers := answers + [ok];
    }
    assert requests[..|requests|] == requests;
  }

  // ---- What that gives over every run ----

  ghost predicate InWindow(t: int, from: int, windowMs: int) {
    from <= t < from + windowMs
  }

  /** The accepted requests of an address in one half-open window. */
  ghost function Within(times: seq<int>, from: int, windowMs: int): seq<int> {
    if times == [] then []
    else
      var n := |times| - 1;
      Within(times[..n], from, windowMs) + if InWindow(times[n], from, windowMs) then [times[n]] else []
  }

  /** All of a window's accepts are fresh for a request inside the window. */
  lemma {:induction false} WithinIsFresh(times: seq<int>, from: int, now: int, windowMs: int)
    requires InWindow(now, from, windowMs)
    ensures |Within(times, from, windowMs)| <= |Fresh(times, now, windowMs)|
    decreases |times|
  {
    if times != [] {
      var n := |times| - 1;
      WithinIsFresh(times[..n], from, now, windowMs);
      assert times == times[..n] + [times[n]];
      FreshAppend(times[..n], [times[n]], now, windowMs);
    }
  }

  lemma WithinSnoc(times: seq<int>, t: int, from: int, windowMs: int)
    ensures Within(times + [t], from, windowMs) ==
            Within(times, from, windowMs) + if InWindow(t, from, windowMs) then [t] else []
  {
    assert (times + [t])[..|times|] == times;
  }

  lemma NothingAccepted(ip: string, from: int, windowMs: int)
    ensures Within(Accepts([], ip), from, windowMs) == []
  {
  }

  lemma EventsSnoc(log: seq<Event>, e: Event, ip: string)
    ensures EventsOf(log + [e], ip) == EventsOf(log, ip) + if e.ip == ip then [e] else []
  {
    assert (log + [e])[..|log|] == log;
  }

  lemma NoEvents(ip: string)
    ensures EventsOf([], ip) == []
  {
  }

  lemma AcceptsSnoc(log: seq<Event>, e: Event, ip: string)
    ensures Accepts(log + [e], ip) == Accepts(log, ip) + if e.ip == ip && e.ok then [e.now] else []
  {
    assert (log + [e])[..|log|] == log;
  }

  /** In every run, no window of the configured length holds more accepts of an address than allowed. */
  lemma {:induction false} WindowBound(limits: Limits, requests: seq<Request>, ip: string, from: int)
    ensures |Within(Accepts(Log(limits, requests), ip), from, limits.windowMs)| <=
            if limits.maxConnections > 0 then limits.maxConnections else 0
    decreases |requests|
  {
    hide Within, Accepts, Fresh, InWindow;
    var log := Log(limits, requests);
    if requests == [] {
      NothingAccepted(ip, from, limits.windowMs);
    } else {
      var n := |requests| - 1;
      var before, r := Log(limits, requests[..n]), requests[n];
      var e := Answer(limits, before, r);
      WindowBound(limits, requests[..n], ip, from);
      AcceptsSnoc(before, e, ip);
      var times := Accepts(before, ip);
      if e.ip == ip && e.ok {
        WithinSnoc(times, e.now, from, limits.windowMs);
        if InWindow(e.now, from, limits.windowMs) {
          WithinIsFresh(times, from, e.now, limits.windowMs);
        }
      } else {
        assert times + [] == times;
      }
    }
  }

  /** Accepts of a log whose clock does not go back are not in the future. */
  lemma {:induction false} AcceptsPast(log: seq<Event>, ip: string, now: int)
    requires forall i :: 0 <= i < |log| ==> log[i].now <= now
    ensures forall k :: 0 <= k < |Accepts(log, ip)| ==> Accepts(log, ip)[k] <= now
    decreases |log|
  {
    if log != [] {
      AcceptsPast(log[..|log| - 1], ip, now);
    }
  }

  lemma {:induction false} FreshIsWithin(times: seq<int>, now: int, windowMs: int)
    requires forall k :: 0 <= k < |times| ==> times[k] <= now
    ensures Within(times, now - windowMs + 1, windowMs) == Fresh(times, now, windowMs)
    decreases |times|
  {
    if times != [] {
      var n := |times| - 1;
      FreshIsWithin(times[..n], now, windowMs);
      assert times == times[..n] + [times[n]];
      FreshAppend(times[..n], [times[n]], now, windowMs);
    }
  }

  lemma {:induction false} LogTimes(limits: Limits, requests: seq<Request>)
    ensures forall i :: 0 <= i < |requests| ==>
              Log(limits, requests)[i].now == requests[i].now && Log(limits, requests)[i].ip == requests[i].ip
    decreases |requests|
  {
    hide Answer;
    if requests != [] {
      LogTimes(limits, requests[..|requests| - 1]);
      AnswerTime(limits, Log(limits, requests[..|requests| - 1]), requests[|requests| - 1]);
    }
  }

  lemma AnswerTime(limits: Limits, log: seq<Event>, r: Request)
    ensures Answer(limits, log, r).now == r.now && Answer(limits, log, r).ip == r.ip
  {
  }

  lemma LogNext(limits: Limits, requests: seq<Request>, r: Request)
    ensures Log(limits, requests + [r]) == Log(limits, requests) + [Answer(limits, Log(limits, requests), r)]
  {
    hide Answer;
    assert (requests + [r])[..|requests|] == requests;
  }

  /**
   A request is allowed exactly when fewer than the allowed number of its address were allowed in the window that
   ends with it.
   */
  lemma AllowedExactly(limits: Limits, requests: seq<Request>, r: Request)
    requires forall i :: 0 <= i < |requests| ==> requests[i].now <= r.now
    ensures var log := Log(limits, requests + [r]);
      && log[..|requests|] == Log(limits, requests)
      && (log[|requests|].ok <==>
            |Within(Accepts(Log(limits, requests), r.ip), r.now - limits.windowMs + 1, limits.windowMs)|
            < limits.maxConnections)
  {
    hide Within, Accepts, Fresh, Log;
    var log := Log(limits, requests);
    LogNext(limits, requests, r);
    LogTimes(limits, requests);
    AcceptsPast(log, r.ip, r.now);
    FreshIsWithin(Accepts(log, r.ip), r.now, limits.windowMs);
  }

  function Of(requests: seq<Request>, ip: string): seq<Request> {
    if requests == [] then []
    else
      var n := |requests| - 1;
      Of(requests[..n], ip) + if requests[n].ip == ip then [requests[n]] else []
  }

  function EventsOf(log: seq<Event>, ip: string): seq<Event> {
    if log == [] then []
    else
      var n := |log| - 1;
      EventsOf(log[..n], ip) + if log[n].ip == ip then [log[n]] else []
  }

  lemma {:induction false} AcceptsOfEvents(log: seq<Event>, ip: string)
    ensures Accepts(EventsOf(log, ip), ip) == Accepts(log, ip)
    decreases |log|
  {
    if log != [] {
      var n := |log| - 1;
      AcceptsOfEvents(log[..n], ip);
      if log[n].ip != ip {
        assert EventsOf(log[..n], ip) + [] == EventsOf(log[..n], ip);
      }
    }
  }

  /** Addresses do not affect each other: an address gets the answers it would get alone. */
  lemma {:induction false} Independent(limits: Limits, requests: seq<Request>, ip: string)
    ensures EventsOf(Log(limits, requests), ip) == Log(limits, Of(requests, ip))
    decreases |requests|
  {
    hide Accepts, Fresh, EventsOf;
    if requests == [] {
      NoEvents(ip);
    } else {
      var n := |requests| - 1;
      var before, r := Log(limits, requests[..n]), requests[n];
      var e := Answer(limits, before, r);
      Independent(limits, requests[..n], ip);
      EventsSnoc(before, e, ip);
      var own := Of(requests[..n], ip);
      if r.ip == ip {
        AcceptsOfEvents(before, ip);
        assert (own + [r])[..|own|] == own;
      } else {
        assert own + [] == own && EventsOf(before, ip) + [] == EventsOf(before, ip);
      }
    }
  }
}
