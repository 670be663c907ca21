// IPCRateLimiter: a sliding window per client and one over all clients.
module RateLimiter {
  import opened Collections

  datatype Config = Config(maxRequestsPerWindow: nat, windowMs: int, globalMaxRequestsPerWindow: nat)

  /** An accepted request. */
  datatype Accepted = Accepted(clientId: string, time: int)

  // ---- Deciding from the full history ----

  function Within(cfg: Config, now: int): Accepted -> bool {
    (x: Accepted) => now - x.time < cfg.windowMs
  }

  function WithinBy(cfg: Config, clientId: string, now: int): Accepted -> bool {
    (x: Accepted) => x.clientId == clientId && now - x.time < cfg.windowMs
  }

  /** The request is refused: no client id, or one of the two windows is full. */
  predicate Limited(cfg: Config, history: seq<Accepted>, clientId: string, now: int) {
    || clientId == ""
    || |Filter(history, Within(cfg, now))| >= cfg.globalMaxRequestsPerWindow
    || |Filter(history, WithinBy(cfg, clientId, now))| >= cfg.maxRequestsPerWindow
  }

  function Next(cfg: Config, history: seq<Accepted>, clientId: string, now: int): seq<Accepted> {
    if Limited(cfg, history, clientId, now) then history else history + [Accepted(clientId, now)]
  }

  // ---- The window bound ----

  /** Accepted in the half-open window of windowMs that starts at `from`. */
  function InWindow(cfg: Config, from: int): Accepted -> bool {
    (x: Accepted) => from <= x.time < from + cfg.windowMs
  }

  function InWindowBy(cfg: Config, clientId: string, from: int): Accepted -> bool {
    (x: Accepted) => x.clientId == clientId && from <= x.time < from + cfg.windowMs
  }

  ghost predicate Bounded(cfg: Config, history: seq<Accepted>) {
    && (forall from :: |Filter(history, InWindow(cfg, from))| <= cfg.globalMaxRequestsPerWindow)
    && (forall clientId, from :: |Filter(history, InWindowBy(cfg, clientId, from))| <= cfg.maxRequestsPerWindow)
  }

  ghost predicate NotAfter(history: seq<Accepted>, now: int) {
    forall x :: x in history ==> x.time <= now
  }

  lemma FilterMonotone(s: seq<Accepted>, p: Accepted -> bool, q: Accepted -> bool)
    requires forall x :: x in s && p(x) ==> q(x)
    ensures |Filter(s, p)| <= |Filter(s, q)|
  {
    if s != [] {
      assert s == s[..|s| - 1] + [Last(s)];
      FilterMonotone(s[..|s| - 1], p, q);
    }
  }

  lemma FilterAppend(s: seq<Accepted>, x: Accepted, p: Accepted -> bool)
    ensures Filter(s + [x], p) == if p(x) then Filter(s, p) + [x] else Filter(s, p)
  {
    assert (s + [x])[..|s|] == s;
  }

  lemma AcceptKeepsWindow(cfg: Config, history: seq<Accepted>, x: Accepted, inWindow: Accepted -> bool, recent: Accepted -> bool, limit: nat)
    requires |Filter(history, inWindow)| <= limit
    requires |Filter(history, recent)| < limit
    requires inWindow(x) ==> forall y :: y in history && inWindow(y) ==> recent(y)
    ensures |Filter(history + [x], inWindow)| <= limit
  {
    FilterAppend(history, x, inWindow);
    if inWindow(x) {
      FilterMonotone(history, inWindow, recent);
    }
  }

  lemma StepStaysBounded(cfg: Config, history: seq<Accepted>, clientId: string, now: int)
    requires Bounded(cfg, history) && NotAfter(history, now)
    ensures Bounded(cfg, Next(cfg, history, clientId, now)) && NotAfter(Next(cfg, history, clientId, now), now)
  {
    if !Limited(cfg, history, clientId, now) {
      var x := Accepted(clientId, now);
      forall from ensures |Filter(history + [x], InWindow(cfg, from))| <= cfg.globalMaxRequestsPerWindow {
        AcceptKeepsWindow(cfg, history, x, InWindow(cfg, from), Within(cfg, now), cfg.globalMaxRequestsPerWindow);
      }
      forall c, from ensures |Filter(history + [x], InWindowBy(cfg, c, from))| <= cfg.maxRequestsPerWindow {
        if c == clientId {
          AcceptKeepsWindow(cfg, history, x, InWindowBy(cfg, c, from), WithinBy(cfg, clientId, now), cfg.maxRequestsPerWindow);
        } else {
          FilterAppend(history, x, InWindowBy(cfg, c, from));
        }
      }
    }
  }

  datatype Request = Request(clientId: string, now: int)

  predicate Clocked(requests: seq<Request>, start: int)
    decreases |requests|
  {
    requests == [] || (requests[0].now >= start && Clocked(requests[1..], requests[0].now))
  }

  function Run(cfg: Config, history: seq<Accepted>, requests: seq<Request>): seq<Accepted>
    decreases |requests|
  {
    if requests == [] then history
    else Run(cfg, Next(cfg, history, requests[0].clientId, requests[0].now), requests[1..])
  }

  lemma {:induction false} RunStaysBounded(cfg: Config, history: seq<Accepted>, requests: seq<Request>, start: int)
    requires Bounded(cfg, history) && NotAfter(history, start) && Clocked(requests, start)
    ensures Bounded(cfg, Run(cfg, history, requests))
    decreases |requests|
  {
    if requests != [] {
      var r := requests[0];
      StepStaysBounded(cfg, history, r.clientId, r.now);
      RunStaysBounded(cfg, Next(cfg, history, r.clientId, r.now), requests[1..], r.now);
    }
  }

  /** Over every run with a clock that does not go back, no window of windowMs holds more accepted requests than allowed. */
  lemma SlidingWindowBound(cfg: Config, requests: seq<Request>, start: int)
    requires Clocked(requests, start)
    ensures Bounded(cfg, Run(cfg, [], requests))
  {
    forall from ensures |Filter([], InWindow(cfg, from))| == 0 {
    }
    RunStaysBounded(cfg, [], requests, start);
  }

  /**
   * A request with a client id is refused exactly when a window that ends now is full: the accepted
   * requests younger than windowMs reach the global limit, or those of the client reach its own.
   */
  lemma RefusedExactlyWhenFull(cfg: Config, history: seq<Accepted>, clientId: string, now: int)
    requires clientId != ""
    ensures Next(cfg, history, clientId, now) ==
      if cfg.globalMaxRequestsPerWindow <= |Filter(history, (x: Accepted) => now < x.time + cfg.windowMs)|
         || cfg.maxRequestsPerWindow <= |Filter(history, (x: Accepted) => x.clientId == clientId && now < x.time + cfg.windowMs)|
      then history else history + [Accepted(clientId, now)]
  {
    FilterSame(history, Within(cfg, now), (x: Accepted) => now < x.time + cfg.windowMs);
    FilterSame(history, WithinBy(cfg, clientId, now), (x: Accepted) => x.clientId == clientId && now < x.time + cfg.windowMs);
  }

  lemma FilterSame(s: seq<Accepted>, p: Accepted -> bool, q: Accepted -> bool)
    requires forall x :: p(x) <==> q(x)
    ensures Filter(s, p) == Filter(s, q)
  {
  }

  // ---- The limiter with its pruned lists ----

  function Recent(cfg: Config, now: int): int -> bool {
    (t: int) => now - t < cfg.windowMs
  }

  function Times(history: seq<Accepted>): seq<int> {
    if history == [] then [] else Times(history[..|history| - 1]) + [Last(history).time]
  }

  /** Whose requests a list counts. */
  datatype Scope = Everyone | Client(clientId: string)

  function Counted(cfg: Config, scope: Scope, now: int): Accepted -> bool {
    match scope
    case Everyone => Within(cfg, now)
    case Client(c) => WithinBy(cfg, c, now)
  }

  predicate Covers(scope: Scope, x: Accepted) {
    scope.Everyone? || scope.clientId == x.clientId
  }

  /** The list shows, at every time from `since` on, the same recent times as the accepted requests in its scope. */
  ghost predicate Tracks(cfg: Config, times: seq<int>, history: seq<Accepted>, since: int, scope: Scope) {
    forall now :: now >= since ==> Filter(times, Recent(cfg, now)) == Times(Filter(history, Counted(cfg, scope, now)))
  }

  ghost predicate TracksAll(cfg: Config, clients: map<string, seq<int>>, global: seq<int>, history: seq<Accepted>, since: int) {
    && Tracks(cfg, global, history, since, Everyone)
    && forall c :: Tracks(cfg, Requests(clients, c), history, since, Client(c))
  }

  /** Dropping what is already too old does not change what is recent later. */
  lemma PruningIsInvisible(cfg: Config, times: seq<int>, earlier: int, now: int)
    requires earlier <= now
    ensures Filter(Filter(times, Recent(cfg, earlier)), Recent(cfg, now)) == Filter(times, Recent(cfg, now))
  {
    if times != [] {
      var init, t := times[..|times| - 1], Last(times);
      PruningIsInvisible(cfg, init, earlier, now);
      var kept := Filter(times, Recent(cfg, earlier));
      if Recent(cfg, earlier)(t) {
        assert kept[..|kept| - 1] == Filter(init, Recent(cfg, earlier));
      } else {
        assert kept == Filter(init, Recent(cfg, earlier));
      }
    }
  }

  lemma PrunedTracks(cfg: Config, times: seq<int>, history: seq<Accepted>, since: int, now: int, scope: Scope)
    requires Tracks(cfg, times, history, since, scope) && since <= now
    ensures Tracks(cfg, Filter(times, Recent(cfg, now)), history, now, scope)
    ensures |Filter(times, Recent(cfg, now))| == |Filter(history, Counted(cfg, scope, now))|
  {
    forall later | later >= now
      ensures Filter(Filter(times, Recent(cfg, now)), Recent(cfg, later)) == Times(Filter(history, Counted(cfg, scope, later)))
    {
      PruningIsInvisible(cfg, times, now, later);
    }
    TimesLength(Filter(history, Counted(cfg, scope, now)));
  }

  lemma TimesLength(history: seq<Accepted>)
    ensures |Times(history)| == |history|
  {
  }

  lemma TimesAppend(history: seq<Accepted>, x: Accepted)
    ensures Times(history + [x]) == Times(history) + [x.time]
  {
    assert (history + [x])[..|history|] == history;
  }

  /** Appending an accepted request to the history, and to the list if it is in scope, keeps them in step. */
  lemma AppendTracks(cfg: Config, times: seq<int>, history: seq<Accepted>, x: Accepted, scope: Scope)
    requires Tracks(cfg, times, history, x.time, scope)
    ensures Tracks(cfg, if Covers(scope, x) then times + [x.time] else times, history + [x], x.time, scope)
  {
    var times' := if Covers(scope, x) then times + [x.time] else times;
    forall later | later >= x.time
      ensures Filter(times', Recent(cfg, later)) == Times(Filter(history + [x], Counted(cfg, scope, later)))
    {
      FilterAppend(history, x, Counted(cfg, scope, later));
      TimesAppend(Filter(history, Counted(cfg, scope, later)), x);
      TimesFilterAppend(times, x.time, Recent(cfg, later));
    }
  }

  lemma TimesFilterAppend(times: seq<int>, t: int, p: int -> bool)
    ensures Filter(times + [t], p) == if p(t) then Filter(times, p) + [t] else Filter(times, p)
  {
    assert (times + [t])[..|times|] == times;
  }

  lemma TimePasses(cfg: Config, clients: map<string, seq<int>>, global: seq<int>, history: seq<Accepted>, since: int, now: int)
    requires TracksAll(cfg, clients, global, history, since) && since <= now
    ensures TracksAll(cfg, clients, global, history, now)
  {
  }

  lemma PruneAll(cfg: Config, clients: map<string, seq<int>>, global: seq<int>, history: seq<Accepted>, now: int)
    requires TracksAll(cfg, clients, global, history, now)
    ensures TracksAll(cfg, clients, Filter(global, Recent(cfg, now)), history, now)
    ensures |Filter(global, Recent(cfg, now))| == |Filter(history, Within(cfg, now))|
  {
    PrunedTracks(cfg, global, history, now, now, Everyone);
  }

  lemma PruneClient(cfg: Config, clients: map<string, seq<int>>, global: seq<int>, history: seq<Accepted>, now: int, c: string)
    requires TracksAll(cfg, clients, global, history, now)
    ensures var times := Filter(Requests(clients, c), Recent(cfg, now));
      TracksAll(cfg, clients[c := times], global, history, now) && |times| == |Filter(history, WithinBy(cfg, c, now))|
  {
    PrunedTracks(cfg, Requests(clients, c), history, now, now, Client(c));
    var clients' := clients[c := Filter(Requests(clients, c), Recent(cfg, now))];
    forall d ensures Tracks(cfg, Requests(clients', d), history, now, Client(d)) {
      assert Tracks(cfg, Requests(clients, d), history, now, Client(d));
    }
  }

  lemma AcceptAll(cfg: Config, clients: map<string, seq<int>>, global: seq<int>, history: seq<Accepted>, x: Accepted)
    requires TracksAll(cfg, clients, global, history, x.time)
    ensures TracksAll(cfg, clients[x.clientId := Requests(clients, x.clientId) + [x.time]], global + [x.time], history + [x], x.time)
  {
    AppendTracks(cfg, global, history, x, Everyone);
    var clients' := clients[x.clientId := Requests(clients, x.clientId) + [x.time]];
    forall d ensures Tracks(cfg, Requests(clients', d), history + [x], x.time, Client(d)) {
      AppendTracks(cfg, Requests(clients, d), history, x, Client(d));
    }
  }

  class IPCRateLimiter {
    const cfg: Config
    var clientRequests: map<string, seq<int>>
    var globalRequests: seq<int>
    ghost var history: seq<Accepted>
    ghost var clock: int

    constructor (cfg: Config, start: int)
      ensures this.cfg == cfg && history == [] && clock == start && Valid()
    {
      this.cfg := cfg;
      clientRequests, globalRequests, history, clock := map[], [], [], start;
    }

    ghost predicate Valid()
      reads this
    {
      TracksAll(cfg, clientRequests, globalRequests, history, clock)
    }

    /** Pruned lists decide exactly as the full accepted history does. */
    method IsRateLimited(clientId: string, now: int) returns (limited: bool)
      requires Valid() && clock <= now
      modifies this
      ensures Valid() && clock == now
      ensures limited == Limited(cfg, old(history), clientId, now)
      ensures history == Next(cfg, old(history), clientId, now)
    {
      TimePasses(cfg, clientRequests, globalRequests, history, clock, now);
      clock := now;
      if clientId == "" {
        return true;
      }
      PruneAll(cfg, clientRequests, globalRequests, history, now);
      globalRequests := Filter(globalRequests, Recent(cfg, now));
      if |globalRequests| >= cfg.globalMaxRequestsPerWindow {
        return true;
      }
      PruneClient(cfg, clientRequests, globalRequests, history, now, clientId);
      var validTimestamps := Filter(Requests(clientRequests, clientId), Recent(cfg, now));
      clientRequests := clientRequests[clientId := validTimestamps];
      if |validTimestamps| >= cfg.maxRequestsPerWindow {
        return true;
      }
      AcceptAll(cfg, clientRequests, globalRequests, history, Accepted(clientId, now));
      globalRequests := globalRequests + [now];
      clientRequests := clientRequests[clientId := validTimestamps + [now]];
      history := history + [Accepted(clientId, now)];
      return false;
    }
  }

  function Requests(m: map<string, seq<int>>, clientId: string): seq<int> {
    if clientId in m then m[clientId] else []
  }
}
