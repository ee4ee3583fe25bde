/** The fixed-window request limiter, and how many requests it lets through in any interval. */
module RateLimiter {

  /** A request: whom it counts for, whether the limiter skips it, and the two clock readings it may take. */
  datatype Arrival = Arrival(client: string, exempt: bool, now: int, later: int)

  datatype Window = Window(count: nat, start: int)

  type Clients = map<string, Window>

  /** The window after one more request; an unknown client's window begins at the later reading. */
  function Touched(clients: Clients, arrival: Arrival, seconds: int): Window {
    var window := if arrival.client in clients then clients[arrival.client] else Window(0, arrival.later);
    if arrival.now - window.start > seconds then Window(1, arrival.now) else Window(window.count + 1, window.start)
  }

  function After(history: seq<Arrival>, seconds: int): Clients {
    if history == [] then map[]
    else
      var last := history[|history| - 1];
      var clients := After(history[..|history| - 1], seconds);
      if last.exempt then clients else clients[last.client := Touched(clients, last, seconds)]
  }

  /** The request gets through on this table. */
  predicate Admits(clients: Clients, arrival: Arrival, limit: int, seconds: int) {
    arrival.exempt || Touched(clients, arrival, seconds).count <= limit
  }

  class RateLimitMiddleware {
    const requestsPerWindow: int
    const windowSeconds: int
    var clients: Clients

    constructor (requestsPerWindow: int, windowSeconds: int)
      ensures clients == After([], windowSeconds)
      ensures this.requestsPerWindow == requestsPerWindow && this.windowSeconds == windowSeconds
    {
      this.requestsPerWindow, this.windowSeconds := requestsPerWindow, windowSeconds;
      clients := map[];
    }

    /** The table is always the one the history leads to, and the request passes if that table admits it. */
    method Dispatch(arrival: Arrival, ghost history: seq<Arrival>) returns (admitted: bool)
      requires clients == After(history, windowSeconds)
      modifies this
      ensures clients == After(history + [arrival], windowSeconds)
      ensures admitted == Admits(After(history, windowSeconds), arrival, requestsPerWindow, windowSeconds)
    {
      assert (history + [arrival])[..|history|] == history;
      if arrival.exempt {
        return true;
      }
      var count, start := 0, arrival.later;
      if arrival.client in clients {
        count, start := clients[arrival.client].count, clients[arrival.client].start;
      }
      if arrival.now - start > windowSeconds {
        count, start := 0, arrival.now;
      }
      count := count + 1;
      clients := clients[arrival.client := Window(count, start)];
      admitted := count <= requestsPerWindow;
    }
  }

  // ---------------------------------------------------------------------------------------
  // How many requests pass in an interval.

  /** Counted for this client, and let through, with the clock between `from` and `from + seconds`. */
  function AdmittedIn(history: seq<Arrival>, client: string, from: int, limit: int, seconds: int): nat {
    if history == [] then 0
    else
      var last := history[|history| - 1];
      var earlier := history[..|history| - 1];
      AdmittedIn(earlier, client, from, limit, seconds)
      + if !last.exempt && last.client == client && from <= last.now <= from + seconds
             && Admits(After(earlier, seconds), last, limit, seconds) then 1 else 0
  }

  /** The clock never goes back. */
  predicate ClockOrdered(history: seq<Arrival>) {
    && (forall i :: 0 <= i < |history| ==> history[i].now <= history[i].later)
    && (forall i, j :: 0 <= i < j < |history| ==> history[i].later <= history[j].now)
  }

  function Max(a: int, b: int): int { if a < b then b else a }

  function Min(a: int, b: int): int { if a < b then a else b }

  /** Every reading so far is at most `now`. */
  predicate Past(history: seq<Arrival>, now: int) {
    forall i :: 0 <= i < |history| ==> history[i].now <= history[i].later <= now
  }

  /**
   * What the client's window says about the number let through so far: those of a window begun before the interval
   * do not include that window's first request, and only one earlier window can matter.
   */
  predicate Accounts(window: Window, passed: nat, from: int, limit: int, seconds: int) {
    && window.count >= 1
    && passed <= Max(0, 2 * limit - 1)
    && (window.start < from ==> passed <= Max(0, Min(window.count, limit) - 1))
    && (window.start <= from + seconds ==> passed <= Max(0, limit - 1) + Max(0, Min(window.count, limit)))
  }

  /** No window begins after the last reading. */
  lemma {:induction false} WindowsHaveBegun(history: seq<Arrival>, seconds: int, now: int)
    requires Past(history, now)
    ensures forall client :: client in After(history, seconds) ==> After(history, seconds)[client].start <= now
  {
    if history != [] {
      WindowsHaveBegun(history[..|history| - 1], seconds, now);
    }
  }

  lemma {:induction false} NonePassEarly(history: seq<Arrival>, client: string, from: int, limit: int, seconds: int, now: int)
    requires Past(history, now) && now < from
    ensures AdmittedIn(history, client, from, limit, seconds) == 0
  {
    if history != [] {
      NonePassEarly(history[..|history| - 1], client, from, limit, seconds, now);
    }
  }

  lemma OrderedPrefix(history: seq<Arrival>)
    requires history != [] && ClockOrdered(history)
    ensures ClockOrdered(history[..|history| - 1]) && Past(history[..|history| - 1], history[|history| - 1].now)
  {
  }

  /** The client's window accounts for everything let through. */
  lemma {:induction false} WindowAccounts(history: seq<Arrival>, client: string, from: int, limit: int, seconds: int)
    requires ClockOrdered(history)
    ensures var clients := After(history, seconds); var passed := AdmittedIn(history, client, from, limit, seconds);
            if client in clients then Accounts(clients[client], passed, from, limit, seconds) else passed == 0
  {
    if history != [] {
      var last := history[|history| - 1];
      var earlier := history[..|history| - 1];
      OrderedPrefix(history);
      WindowAccounts(earlier, client, from, limit, seconds);
      WindowsHaveBegun(earlier, seconds, last.now);
      if last.now < from {
        NonePassEarly(earlier, client, from, limit, seconds, last.now);
      }
    }
  }

  /** In no interval as long as the window does a client get more than 2N - 1 requests through, whatever others send. */
  lemma AtMostTwiceLessOne(history: seq<Arrival>, client: string, from: int, limit: int, seconds: int)
    requires ClockOrdered(history)
    ensures AdmittedIn(history, client, from, limit, seconds) <= Max(0, 2 * limit - 1)
  {
    WindowAccounts(history, client, from, limit, seconds);
  }

  function At(now: int): Arrival { Arrival("c", false, now, now) }

  function Burst(now: int, n: nat): (burst: seq<Arrival>)
    ensures |burst| == n && forall i :: 0 <= i < n ==> burst[i] == At(now)
  {
    seq(n, _ => At(now))
  }

  /** The client's requests since this time, let through or not. */
  function RequestsSince(history: seq<Arrival>, client: string, since: int): nat {
    if history == [] then 0
    else
      var last := history[|history| - 1];
      RequestsSince(history[..|history| - 1], client, since) + if !last.exempt && last.client == client && last.later >= since then 1 else 0
  }

  lemma {:induction false} MoreSinceEarlier(history: seq<Arrival>, client: string, a: int, b: int)
    requires a <= b
    ensures RequestsSince(history, client, b) <= RequestsSince(history, client, a)
  {
    if history != [] {
      MoreSinceEarlier(history[..|history| - 1], client, a, b);
    }
  }

  /** A window counts only requests made since it began. */
  lemma {:induction false} WindowCountsItsOwn(history: seq<Arrival>, client: string, seconds: int)
    requires ClockOrdered(history)
    ensures var clients := After(history, seconds);
            client in clients ==> clients[client].count <= RequestsSince(history, client, clients[client].start)
  {
    if history != [] {
      var last, earlier := history[|history| - 1], history[..|history| - 1];
      OrderedPrefix(history);
      WindowCountsItsOwn(earlier, client, seconds);
      WindowsHaveBegun(earlier, seconds, last.now);
    }
  }

  lemma RefusingWindow(clients: Clients, arrival: Arrival, limit: int, seconds: int)
    requires seconds >= 0 && arrival.now <= arrival.later && !Admits(clients, arrival, limit, seconds)
    ensures !arrival.exempt
    ensures var window := Touched(clients, arrival, seconds); window.count > limit && window.start >= arrival.now - seconds
  {
  }

  /** Nobody is refused for less: whoever is has made more than `limit` requests within the window's length, this one included. */
  lemma RefusalIsEarned(history: seq<Arrival>, arrival: Arrival, limit: int, seconds: int)
    requires seconds >= 0 && ClockOrdered(history + [arrival]) && !Admits(After(history, seconds), arrival, limit, seconds)
    ensures RequestsSince(history + [arrival], arrival.client, arrival.now - seconds) > limit
  {
    var all, window := history + [arrival], Touched(After(history, seconds), arrival, seconds);
    assert all[|history|] == arrival;
    RefusingWindow(After(history, seconds), arrival, limit, seconds);
    AfterMore(history, arrival, seconds);
    assert After(all, seconds)[arrival.client] == window;
    WindowCountsItsOwn(all, arrival.client, seconds);
    MoreSinceEarlier(all, arrival.client, arrival.now - seconds, window.start);
  }

  /** Requests that stay within the limit and the window all pass. */
  lemma {:induction false} BurstPasses(history: seq<Arrival>, now: int, n: nat, count: nat, start: int, from: int, limit: int, seconds: int)
    requires var clients := After(history, seconds); "c" in clients && clients["c"] == Window(count, start)
    requires now - start <= seconds && count + n <= limit && from <= now <= from + seconds
    ensures var more := history + Burst(now, n); var clients := After(more, seconds);
            && "c" in clients && clients["c"] == Window(count + n, start)
            && AdmittedIn(more, "c", from, limit, seconds) == AdmittedIn(history, "c", from, limit, seconds) + n
    decreases n
  {
    if n == 0 {
      assert history + Burst(now, 0) == history;
    } else {
      var fewer := history + Burst(now, n - 1);
      BurstPasses(history, now, n - 1, count, start, from, limit, seconds);
      assert history + Burst(now, n) == fewer + [At(now)];
      AfterMore(fewer, At(now), seconds);
      AdmittedInMore(fewer, At(now), "c", from, limit, seconds);
    }
  }

  /** One request, a burst at the very end of its window, and a full one right behind it. */
  function Bursts(limit: int, seconds: int): seq<Arrival>
    requires limit >= 1
  {
    [At(0)] + Burst(seconds, limit - 1) + ([At(seconds + 1)] + Burst(seconds + 1, limit - 1))
  }

  lemma BurstsAreOrdered(limit: int, seconds: int)
    requires limit >= 1 && seconds > 0
    ensures ClockOrdered(Bursts(limit, seconds))
  {
  }

  /** Of the first window's requests all but the very first fall into the interval from 1 on, and pass. */
  lemma FirstWindowPasses(limit: int, seconds: int)
    requires limit >= 1 && seconds > 0
    ensures var first := [At(0)] + Burst(seconds, limit - 1); var clients := After(first, seconds);
            && "c" in clients && clients["c"] == Window(limit, 0) && AdmittedIn(first, "c", 1, limit, seconds) == limit - 1
  {
    assert [At(0)] == [] + [At(0)];
    AfterMore([], At(0), seconds);
    AdmittedInMore([], At(0), "c", 1, limit, seconds);
    BurstPasses([At(0)], seconds, limit - 1, 1, 0, 1, limit, seconds);
  }

  lemma SecondWindowPasses(first: seq<Arrival>, limit: int, seconds: int)
    requires limit >= 1 && seconds > 0
    requires var clients := After(first, seconds); "c" in clients && clients["c"] == Window(limit, 0)
    ensures var second := first + [At(seconds + 1)] + Burst(seconds + 1, limit - 1);
            AdmittedIn(second, "c", 1, limit, seconds) == AdmittedIn(first, "c", 1, limit, seconds) + limit
  {
    AfterMore(first, At(seconds + 1), seconds);
    AdmittedInMore(first, At(seconds + 1), "c", 1, limit, seconds);
    BurstPasses(first + [At(seconds + 1)], seconds + 1, limit - 1, 1, seconds + 1, 1, limit, seconds);
  }

  /** Whatever the limit and the window, the bound is reached. */
  lemma TwiceLessOneIsReached(limit: int, seconds: int)
    requires limit >= 1 && seconds > 0
    ensures ClockOrdered(Bursts(limit, seconds)) && AdmittedIn(Bursts(limit, seconds), "c", 1, limit, seconds) == 2 * limit - 1
  {
    BurstsAreOrdered(limit, seconds);
    var first := [At(0)] + Burst(seconds, limit - 1);
    FirstWindowPasses(limit, seconds);
    SecondWindowPasses(first, limit, seconds);
    assert Bursts(limit, seconds) == first + [At(seconds + 1)] + Burst(seconds + 1, limit - 1);
  }

  // ---------------------------------------------------------------------------------------
  // Other clients.

  /** The requests counted for one client. */
  function Own(history: seq<Arrival>, client: string): seq<Arrival> {
    if history == [] then []
    else
      var last := history[|history| - 1];
      var earlier := Own(history[..|history| - 1], client);
      if !last.exempt && last.client == client then earlier + [last] else earlier
  }

  lemma AfterMore(history: seq<Arrival>, arrival: Arrival, seconds: int)
    ensures After(history + [arrival], seconds)
         == if arrival.exempt then After(history, seconds)
            else After(history, seconds)[arrival.client := Touched(After(history, seconds), arrival, seconds)]
  {
    assert (history + [arrival])[..|history|] == history;
  }

  lemma AdmittedInMore(history: seq<Arrival>, arrival: Arrival, client: string, from: int, limit: int, seconds: int)
    ensures AdmittedIn(history + [arrival], client, from, limit, seconds)
         == AdmittedIn(history, client, from, limit, seconds)
            + if !arrival.exempt && arrival.client == client && from <= arrival.now <= from + seconds
                   && Admits(After(history, seconds), arrival, limit, seconds) then 1 else 0
  {
    assert (history + [arrival])[..|history|] == history;
  }

  /** Two tables treat a client alike. */
  predicate SameFor(a: Clients, b: Clients, client: string) {
    (client in a <==> client in b) && (client in a && client in b ==> a[client] == b[client])
  }

  lemma {:induction false} WindowIsOwn(history: seq<Arrival>, client: string, seconds: int)
    ensures SameFor(After(history, seconds), After(Own(history, client), seconds), client)
  {
    if history != [] {
      var last, earlier := history[|history| - 1], history[..|history| - 1];
      WindowIsOwn(earlier, client, seconds);
      assert history == earlier + [last];
      AfterMore(earlier, last, seconds);
      AfterMore(Own(earlier, client), last, seconds);
    }
  }

  /** A client's window and what passes for it are the same as if no other client had sent anything. */
  lemma {:induction false} OthersDoNotMatter(history: seq<Arrival>, client: string, from: int, limit: int, seconds: int)
    ensures SameFor(After(history, seconds), After(Own(history, client), seconds), client)
    ensures AdmittedIn(history, client, from, limit, seconds) == AdmittedIn(Own(history, client), client, from, limit, seconds)
  {
    WindowIsOwn(history, client, seconds);
    if history != [] {
      var last, earlier := history[|history| - 1], history[..|history| - 1];
      OthersDoNotMatter(earlier, client, from, limit, seconds);
      assert history == earlier + [last];
      AdmittedInMore(earlier, last, client, from, limit, seconds);
      AdmittedInMore(Own(earlier, client), last, client, from, limit, seconds);
    }
  }
}
