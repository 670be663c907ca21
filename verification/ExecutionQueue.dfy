// ExecutionQueue: five priority lanes, per-tenant round-robin inside a lane,
// quotas, aging and expiry (with the aging rule of TaskPriorityPolicy).
module FairQueue {
  import opened Collections

  datatype Lane = Critical | Interactive | Normal | Retry | Background

  datatype Item = Item(
    taskId: string,
    priorityLane: Lane,
    tenantId: string,
    queuedAt: int,
    expiresAt: int,
    nextRetryAt: Option<int>)

  /** A record with one entry per lane. */
  datatype PerLane<T> = PerLane(critical: T, interactive: T, normal: T, retry: T, background: T) {
    function At(lane: Lane): T {
      match lane
      case Critical => critical
      case Interactive => interactive
      case Normal => normal
      case Retry => retry
      case Background => background
    }

    function With(lane: Lane, value: T): (r: PerLane<T>)
      ensures forall other: Lane :: r.At(other) == if other == lane then value else At(other)
    {
      match lane
      case Critical => this.(critical := value)
      case Interactive => this.(interactive := value)
      case Normal => this.(normal := value)
      case Retry => this.(retry := value)
      case Background => this.(background := value)
    }
  }

  datatype Config = Config(maxCapacity: nat, maxPerTenantQuota: nat, agingThresholdMs: int)

  /** The contents of the queue. The empty string in `last` means no tenant was served yet. */
  datatype Queue = Queue(lanes: PerLane<seq<Item>>, last: PerLane<string>)

  const LANE_ORDER: seq<Lane> := [Critical, Interactive, Normal, Retry, Background]

  const EMPTY: Queue := Queue(PerLane([], [], [], [], []), PerLane("", "", "", "", ""))

  // ---- Round-robin: which item of a lane is next ----

  /** The item at k is the first of its tenant in the lane. */
  predicate Opens(items: seq<Item>, k: nat)
    requires k < |items|
  {
    forall j :: 0 <= j < k ==> items[j].tenantId != items[k].tenantId
  }

  /** The first index held by the tenant, or the length if there is none. */
  function FirstOf(items: seq<Item>, tenant: string): (r: nat)
    ensures r <= |items|
    ensures r < |items| ==> items[r].tenantId == tenant
    ensures forall j :: 0 <= j < r ==> items[j].tenantId != tenant
  {
    FirstIndex(items, OfTenant(tenant))
  }

  /** The first index at or after k that opens a tenant, or 0 when there is none. */
  function NextOpening(items: seq<Item>, k: nat): (r: nat)
    requires items != [] && k <= |items|
    ensures r < |items| && Opens(items, r)
    ensures r >= k ==> forall j :: k <= j < r ==> !Opens(items, j)
    ensures r < k ==> r == 0 && forall j :: k <= j < |items| ==> !Opens(items, j)
    decreases |items| - k
  {
    if k == |items| then 0
    else if Opens(items, k) then k
    else NextOpening(items, k + 1)
  }

  /** The tenant that follows the last served one in order of first appearance, wrapping to the front. */
  function RoundRobin(items: seq<Item>, last: string): (r: nat)
    requires items != []
    ensures r < |items| && Opens(items, r)
  {
    var f := FirstOf(items, last);
    if last == "" || f == |items| then 0 else NextOpening(items, f + 1)
  }

  /** Nothing before index c belongs to the last served tenant. */
  predicate Past(items: seq<Item>, last: string, c: nat) {
    c <= |items| && forall k :: 0 <= k < c ==> items[k].tenantId != last
  }

  /** The served index is beyond every index already passed, or it wraps to 0. */
  lemma ServedIndexGrowsOrWraps(items: seq<Item>, last: string, c: nat)
    requires items != [] && Past(items, last, c)
    ensures RoundRobin(items, last) == 0 || RoundRobin(items, last) > c
  {
  }

  /** Serving moves the cursor to the served index. */
  lemma ServingMovesCursor(items: seq<Item>, last: string)
    requires items != []
    ensures var i := RoundRobin(items, last); Past(Without(items, i), items[i].tenantId, i)
  {
  }

  /**
   * The tenant just served is served again exactly when it is alone in the lane, or when
   * its id is the empty string (which the queue cannot tell from "none served yet").
   */
  lemma SameTenantAgain(items: seq<Item>, last: string)
    requires items != []
    ensures items[RoundRobin(items, last)].tenantId == last
      <==> (forall k :: 0 <= k < |items| ==> items[k].tenantId == last) || (last == "" && items[0].tenantId == "")
  {
    var f, i := FirstOf(items, last), RoundRobin(items, last);
    if last != "" && f < |items| && i <= f {
      assert i == 0;
      if f == 0 {
        forall k | 0 <= k < |items|
          ensures items[k].tenantId == last
        {
          AllOneTenant(items, k);
        }
      }
    }
  }

  lemma {:induction false} AllOneTenant(items: seq<Item>, k: nat)
    requires k < |items|
    requires forall j :: 1 <= j < |items| ==> !Opens(items, j)
    ensures items[k].tenantId == items[0].tenantId
  {
    if k > 0 {
      assert !Opens(items, k);
      var j :| 0 <= j < k && items[j].tenantId == items[k].tenantId;
      AllOneTenant(items, j);
    }
  }

  // ---- The queue as a value ----

  predicate RetryDue(item: Item, now: int) {
    item.nextRetryAt.None? || item.nextRetryAt.value == 0 || now >= item.nextRetryAt.value
  }

  function FirstDue(items: seq<Item>, now: int): (r: nat)
    ensures r <= |items|
    ensures r < |items| ==> RetryDue(items[r], now)
    ensures forall j :: 0 <= j < r ==> !RetryDue(items[j], now)
  {
    FirstIndex(items, (item: Item) => RetryDue(item, now))
  }

  /** The index the lane would serve at time now, or the lane's length if it has nothing eligible. */
  function Eligible(q: Queue, lane: Lane, now: int): (r: nat)
    ensures r <= |q.lanes.At(lane)|
  {
    var items := q.lanes.At(lane);
    if items == [] then 0
    else if lane == Retry then FirstDue(items, now)
    else RoundRobin(items, q.last.At(lane))
  }

  predicate HasEligible(q: Queue, lane: Lane, now: int) {
    Eligible(q, lane, now) < |q.lanes.At(lane)|
  }

  /** The first lane, from position k of the lane order, that has an eligible item. */
  function ServingLane(q: Queue, now: int, k: nat): (r: Option<Lane>)
    requires k <= 5
    ensures r.Some? ==> HasEligible(q, r.value, now)
    ensures r.None? ==> forall j :: k <= j < 5 ==> !HasEligible(q, LANE_ORDER[j], now)
    decreases 5 - k
  {
    if k == 5 then None
    else if HasEligible(q, LANE_ORDER[k], now) then Some(LANE_ORDER[k])
    else ServingLane(q, now, k + 1)
  }

  function Served(q: Queue, now: int): Option<Item> {
    var lane := ServingLane(q, now, 0);
    if lane.None? then None else Some(q.lanes.At(lane.value)[Eligible(q, lane.value, now)])
  }

  function AfterDequeue(q: Queue, now: int): Queue {
    var lane := ServingLane(q, now, 0);
    if lane.None? then q
    else
      var items, i := q.lanes.At(lane.value), Eligible(q, lane.value, now);
      Queue(q.lanes.With(lane.value, Without(items, i)), q.last.With(lane.value, items[i].tenantId))
  }

  function All(q: Queue): seq<Item> {
    q.lanes.critical + q.lanes.interactive + q.lanes.normal + q.lanes.retry + q.lanes.background
  }

  function NonCritical(q: Queue): seq<Item> {
    q.lanes.interactive + q.lanes.normal + q.lanes.retry + q.lanes.background
  }

  function OfTenant(tenant: string): Item -> bool {
    (item: Item) => item.tenantId == tenant
  }

  predicate Admits(cfg: Config, q: Queue, item: Item) {
    if item.priorityLane == Critical then |All(q)| < cfg.maxCapacity + 10
    else |All(q)| < cfg.maxCapacity && |Filter(All(q), OfTenant(item.tenantId))| < cfg.maxPerTenantQuota
  }

  function AfterEnqueue(cfg: Config, q: Queue, item: Item): Queue {
    if Admits(cfg, q, item)
    then q.(lanes := q.lanes.With(item.priorityLane, q.lanes.At(item.priorityLane) + [item]))
    else q
  }

  function FirstTask(items: seq<Item>, taskId: string): (r: nat)
    ensures r <= |items|
    ensures r < |items| ==> items[r].taskId == taskId
    ensures forall j :: 0 <= j < r ==> items[j].taskId != taskId
  {
    FirstIndex(items, (item: Item) => item.taskId == taskId)
  }

  /** The first lane in the lane order that holds an item with this task id. */
  function LaneOfTask(q: Queue, taskId: string, k: nat): (r: Option<Lane>)
    requires k <= 5
    ensures r.Some? ==> FirstTask(q.lanes.At(r.value), taskId) < |q.lanes.At(r.value)|
    decreases 5 - k
  {
    if k == 5 then None
    else if FirstTask(q.lanes.At(LANE_ORDER[k]), taskId) < |q.lanes.At(LANE_ORDER[k])| then Some(LANE_ORDER[k])
    else LaneOfTask(q, taskId, k + 1)
  }

  /** The lane and index a removal takes; cross-tenant requests (a non-empty tenant that differs) take nothing. */
  function Removal(q: Queue, taskId: string, tenant: string): (r: Option<(Lane, nat)>)
    ensures r.Some? ==> r.value.1 < |q.lanes.At(r.value.0)|
  {
    var lane := LaneOfTask(q, taskId, 0);
    if lane.None? then None
    else
      var i := FirstTask(q.lanes.At(lane.value), taskId);
      if tenant != "" && q.lanes.At(lane.value)[i].tenantId != tenant then None else Some((lane.value, i))
  }

  function AfterRemove(q: Queue, taskId: string, tenant: string): Queue {
    var r := Removal(q, taskId, tenant);
    if r.None? then q
    else q.(lanes := q.lanes.With(r.value.0, Without(q.lanes.At(r.value.0), r.value.1)))
  }

  function Expired(now: int): Item -> bool {
    (item: Item) => now > item.expiresAt
  }

  function AfterPrune(q: Queue, now: int): Queue {
    var live := Not(Expired(now));
    q.(lanes := PerLane(
      Filter(q.lanes.critical, live),
      Filter(q.lanes.interactive, live),
      Filter(q.lanes.normal, live),
      Filter(q.lanes.retry, live),
      Filter(q.lanes.background, live)))
  }

  function Pruned(q: Queue, now: int): seq<Item> {
    Filter(All(q), Expired(now))
  }

  /** TaskPriorityPolicy.shouldPromoteForAging. */
  predicate ShouldPromote(cfg: Config, item: Item, now: int) {
    item.priorityLane == Normal && now - item.queuedAt >= cfg.agingThresholdMs
  }

  function Aged(cfg: Config, now: int): Item -> bool {
    (item: Item) => ShouldPromote(cfg, item, now)
  }

  /** The items moved into the interactive lane, relabelled. */
  function Relabelled(items: seq<Item>): seq<Item> {
    if items == [] then [] else Relabelled(items[..|items| - 1]) + [Last(items).(priorityLane := Interactive)]
  }

  function AfterAging(cfg: Config, q: Queue, now: int): Queue {
    q.(lanes := q.lanes.(
      interactive := q.lanes.interactive + Relabelled(Filter(q.lanes.normal, Aged(cfg, now))),
      normal := Filter(q.lanes.normal, Not(Aged(cfg, now)))))
  }

  // ---- Runs ----

  datatype Event =
    | Enqueue(item: Item)
    | Dequeue(now: int)
    | Remove(taskId: string, tenantId: string)
    | PruneExpired(now: int)
    | ApplyAging(now: int)

  function Step(cfg: Config, q: Queue, event: Event): Queue {
    match event
    case Enqueue(item) => AfterEnqueue(cfg, q, item)
    case Dequeue(now) => AfterDequeue(q, now)
    case Remove(taskId, tenant) => AfterRemove(q, taskId, tenant)
    case PruneExpired(now) => AfterPrune(q, now)
    case ApplyAging(now) => AfterAging(cfg, q, now)
  }

  function Run(cfg: Config, q: Queue, events: seq<Event>): Queue
    decreases |events|
  {
    if events == [] then q else Run(cfg, Step(cfg, q, events[0]), events[1..])
  }

  // ---- Bounded bypass ----

  /** The event is a dequeue that serves the given lane. */
  predicate ServesLane(q: Queue, event: Event, lane: Lane) {
    event.Dequeue? && ServingLane(q, event.now, 0) == Some(lane)
  }

  /** The indices at which the lane is served during the run, in order. */
  function ServedIndices(cfg: Config, q: Queue, events: seq<Event>, lane: Lane): seq<nat>
    decreases |events|
  {
    if events == [] then []
    else
      (if ServesLane(q, events[0], lane) then [Eligible(q, lane, events[0].now)] else [])
      + ServedIndices(cfg, Step(cfg, q, events[0]), events[1..], lane)
  }

  /** Where the item now at position pos is after these services; None once it has been served itself. */
  function Follow(served: seq<nat>, pos: nat): Option<nat> {
    if served == [] then Some(pos)
    else if served[0] == pos then None
    else Follow(served[1..], if served[0] < pos then pos - 1 else pos)
  }

  /** The lane stays within length L, and changes only by appends and by being served. */
  predicate LaneRun(cfg: Config, q: Queue, events: seq<Event>, lane: Lane, L: nat)
    decreases |events|
  {
    && |q.lanes.At(lane)| <= L
    && (events != [] ==>
          var q' := Step(cfg, q, events[0]);
          && (!ServesLane(q, events[0], lane) ==> q.lanes.At(lane) <= q'.lanes.At(lane))
          && LaneRun(cfg, q', events[1..], lane, L))
  }

  /** Indices below L, each beyond the one before unless it wraps to 0. */
  predicate GrowOrWrap(served: seq<nat>, c: nat, L: nat) {
    served == [] || (served[0] < L && (served[0] == 0 || served[0] > c) && GrowOrWrap(served[1..], served[0], L))
  }

  /** A step that does not serve a lane leaves its round-robin cursor alone. */
  lemma LastIsPerLane(cfg: Config, q: Queue, event: Event, lane: Lane)
    requires !ServesLane(q, event, lane)
    ensures Step(cfg, q, event).last.At(lane) == q.last.At(lane)
  {
  }

  /** One service of a lane: the served index grows or wraps, and becomes the new cursor. */
  lemma ServeStep(cfg: Config, q: Queue, event: Event, lane: Lane, c: nat)
    requires lane != Retry && ServesLane(q, event, lane)
    requires Past(q.lanes.At(lane), q.last.At(lane), c)
    ensures var q', i := Step(cfg, q, event), Eligible(q, lane, event.now);
      && (i == 0 || i > c)
      && i < |q.lanes.At(lane)| == |q'.lanes.At(lane)| + 1
      && Past(q'.lanes.At(lane), q'.last.At(lane), i)
  {
    ServedIndexGrowsOrWraps(q.lanes.At(lane), q.last.At(lane), c);
    ServingMovesCursor(q.lanes.At(lane), q.last.At(lane));
  }

  /** Over any such run the served indices strictly grow until they wrap to 0. */
  lemma {:induction false} RunGrowsOrWraps(cfg: Config, q: Queue, events: seq<Event>, lane: Lane, L: nat, c: nat)
    requires lane != Retry && LaneRun(cfg, q, events, lane, L)
    requires Past(q.lanes.At(lane), q.last.At(lane), c)
    ensures GrowOrWrap(ServedIndices(cfg, q, events, lane), c, L)
    decreases |events|
  {
    if events != [] {
      var q', rest := Step(cfg, q, events[0]), events[1..];
      if ServesLane(q, events[0], lane) {
        ServeStep(cfg, q, events[0], lane, c);
        var i := Eligible(q, lane, events[0].now);
        RunGrowsOrWraps(cfg, q', rest, lane, L, i);
        assert ServedIndices(cfg, q, events, lane)[1..] == ServedIndices(cfg, q', rest, lane);
      } else {
        LastIsPerLane(cfg, q, events[0], lane);
        RunGrowsOrWraps(cfg, q', rest, lane, L, c);
        assert ServedIndices(cfg, q, events, lane) == ServedIndices(cfg, q', rest, lane);
      }
    }
  }

  /** Ranking argument: with the cursor at c, pos * L + L - c services suffice. */
  lemma {:induction false} BypassRanking(served: seq<nat>, L: nat, pos: nat, c: nat)
    requires GrowOrWrap(served, c, L)
    requires pos < L && c < L && |served| >= pos * L + L - c
    ensures Follow(served, pos).None?
    decreases |served|
  {
    assert pos * L >= 0;
    var i := served[0];
    if i < pos {
      assert pos * L == (pos - 1) * L + L;
      BypassRanking(served[1..], L, pos - 1, i);
    } else if i > pos {
      BypassRanking(served[1..], L, pos, i);
    }
  }

  /**
   * Bounded bypass: in a round-robin lane that never holds more than L items, the item at
   * position pos has been served once the lane has been served (pos + 1) * L times. The
   * oldest item (pos = 0) is served within L.
   */
  lemma BoundedBypass(cfg: Config, q: Queue, events: seq<Event>, lane: Lane, L: nat, pos: nat)
    requires lane != Retry && LaneRun(cfg, q, events, lane, L)
    requires pos < |q.lanes.At(lane)|
    requires |ServedIndices(cfg, q, events, lane)| >= (pos + 1) * L
    ensures Follow(ServedIndices(cfg, q, events, lane), pos).None?
  {
    assert (pos + 1) * L == pos * L + L;
    RunGrowsOrWraps(cfg, q, events, lane, L, 0);
    BypassRanking(ServedIndices(cfg, q, events, lane), L, pos, 0);
  }

  /** One event moves an item of the lane as Follow says. */
  lemma FollowStep(cfg: Config, q: Queue, event: Event, lane: Lane, pos: nat)
    requires pos < |q.lanes.At(lane)|
    requires !ServesLane(q, event, lane) ==> q.lanes.At(lane) <= Step(cfg, q, event).lanes.At(lane)
    ensures var s, s' := q.lanes.At(lane), Step(cfg, q, event).lanes.At(lane);
      if ServesLane(q, event, lane) then
        var i := Eligible(q, lane, event.now);
        i < pos ==> pos - 1 < |s'| && s'[pos - 1] == s[pos]
      else pos < |s'| && s'[pos] == s[pos]
    ensures var s, s' := q.lanes.At(lane), Step(cfg, q, event).lanes.At(lane);
      ServesLane(q, event, lane) && Eligible(q, lane, event.now) > pos ==> pos < |s'| && s'[pos] == s[pos]
  {
  }

  /** Following an item through the first event and then through the rest. */
  lemma FollowUnfolds(cfg: Config, q: Queue, events: seq<Event>, lane: Lane, pos: nat)
    requires events != []
    ensures var rest := ServedIndices(cfg, Step(cfg, q, events[0]), events[1..], lane);
      Follow(ServedIndices(cfg, q, events, lane), pos) ==
        if !ServesLane(q, events[0], lane) then Follow(rest, pos)
        else
          var i := Eligible(q, lane, events[0].now);
          if i == pos then None else Follow(rest, if i < pos then pos - 1 else pos)
  {
    var served, rest := ServedIndices(cfg, q, events, lane), ServedIndices(cfg, Step(cfg, q, events[0]), events[1..], lane);
    if ServesLane(q, events[0], lane) {
      assert served[1..] == rest;
    } else {
      assert served == rest;
    }
  }

  /** Following an item is sound: the position it yields holds the item that was at pos. */
  lemma {:induction false} FollowTracksItem(cfg: Config, q: Queue, events: seq<Event>, lane: Lane, L: nat, pos: nat)
    requires LaneRun(cfg, q, events, lane, L) && pos < |q.lanes.At(lane)|
    ensures var p, s := Follow(ServedIndices(cfg, q, events, lane), pos), Run(cfg, q, events).lanes.At(lane);
      p.Some? ==> p.value < |s| && s[p.value] == q.lanes.At(lane)[pos]
    decreases |events|
  {
    if events != [] {
      FollowStep(cfg, q, events[0], lane, pos);
      FollowUnfolds(cfg, q, events, lane, pos);
      var q', rest := Step(cfg, q, events[0]), events[1..];
      if !ServesLane(q, events[0], lane) || Eligible(q, lane, events[0].now) > pos {
        FollowTracksItem(cfg, q', rest, lane, L, pos);
      } else if Eligible(q, lane, events[0].now) < pos {
        FollowTracksItem(cfg, q', rest, lane, L, pos - 1);
      }
    }
  }

  /** A run that never serves a lane leaves its round-robin cursor alone. */
  lemma {:induction false} LastIsKept(cfg: Config, q: Queue, events: seq<Event>, lane: Lane)
    requires ServedIndices(cfg, q, events, lane) == []
    ensures Run(cfg, q, events).last.At(lane) == q.last.At(lane)
    decreases |events|
  {
    if events != [] {
      LastIsPerLane(cfg, q, events[0], lane);
      LastIsKept(cfg, Step(cfg, q, events[0]), events[1..], lane);
    }
  }

  /**
   * Two services of a lane with none of that lane in between, whatever else happens between
   * them, go to the same tenant exactly when no other tenant waits there, or the tenant has the
   * empty id and its item is at the front.
   */
  lemma NoTenantTwiceInARow(cfg: Config, q: Queue, now: int, between: seq<Event>, now': int, lane: Lane)
    requires lane != Retry && ServingLane(q, now, 0) == Some(lane)
    requires ServedIndices(cfg, AfterDequeue(q, now), between, lane) == []
    requires ServingLane(Run(cfg, AfterDequeue(q, now), between), now', 0) == Some(lane)
    ensures var later, tenant := Run(cfg, AfterDequeue(q, now), between), Served(q, now).value.tenantId;
      var items := later.lanes.At(lane);
      Served(later, now').value.tenantId == tenant <==>
        (forall k :: 0 <= k < |items| ==> items[k].tenantId == tenant) || (tenant == "" && items[0].tenantId == "")
  {
    var later := Run(cfg, AfterDequeue(q, now), between);
    LastIsKept(cfg, AfterDequeue(q, now), between, lane);
    SameTenantAgain(later.lanes.At(lane), later.last.At(lane));
  }

  /** A tenant with the empty id is served twice in a row although another tenant waits. */
  lemma EmptyTenantTwice(cfg: Config, a: Item, a': Item, b: Item, now: int)
    requires a.tenantId == "" && a'.tenantId == "" && b.tenantId != ""
    requires a.priorityLane == Normal && a'.priorityLane == Normal && b.priorityLane == Normal
    requires cfg.maxCapacity >= 3 && cfg.maxPerTenantQuota >= 2
    ensures var q := Run(cfg, EMPTY, [Enqueue(a), Enqueue(a'), Enqueue(b)]);
      && Served(q, now) == Some(a)
      && Served(AfterDequeue(q, now), now) == Some(a')
      && b in AfterDequeue(q, now).lanes.normal
  {
    var q1, q2, q3 := NormalQueue([a], ""), NormalQueue([a, a'], ""), NormalQueue([a, a', b], "");
    assert [a, a'][..1] == [a] && [a][..0] == [];
    assert Filter([a], OfTenant(b.tenantId)) == [];
    assert Filter([a, a'], OfTenant(b.tenantId)) == [];
    AddsNormal(cfg, [], a);
    AddsNormal(cfg, [a], a');
    AddsNormal(cfg, [a, a'], b);
    assert [] + [a] == [a] && [a] + [a'] == [a, a'] && [a, a'] + [b] == [a, a', b];
    assert NormalQueue([], "") == EMPTY;
    assert [Enqueue(a), Enqueue(a'), Enqueue(b)][1..] == [Enqueue(a'), Enqueue(b)];
    assert [Enqueue(a'), Enqueue(b)][1..] == [Enqueue(b)] && [Enqueue(b)][1..] == [];
    assert Run(cfg, q2, [Enqueue(b)]) == q3;
    assert Run(cfg, q1, [Enqueue(a'), Enqueue(b)]) == q3;
    ServesFront([a, a', b], now);
    assert Without([a, a', b], 0) == [a', b];
    ServesFront([a', b], now);
  }

  /** Only the normal lane holds items. */
  function NormalQueue(items: seq<Item>, last: string): Queue {
    Queue(EMPTY.lanes.(normal := items), EMPTY.last.(normal := last))
  }

  lemma AddsNormal(cfg: Config, items: seq<Item>, x: Item)
    requires x.priorityLane == Normal && |items| < cfg.maxCapacity
    requires |Filter(items, OfTenant(x.tenantId))| < cfg.maxPerTenantQuota
    ensures Step(cfg, NormalQueue(items, ""), Enqueue(x)) == NormalQueue(items + [x], "")
  {
    assert All(NormalQueue(items, "")) == items;
  }

  lemma ServesFront(items: seq<Item>, now: int)
    requires items != []
    ensures var q := NormalQueue(items, "");
      Served(q, now) == Some(items[0]) && AfterDequeue(q, now) == NormalQueue(Without(items, 0), items[0].tenantId)
  {
    var q := NormalQueue(items, "");
    assert Eligible(q, Normal, now) == 0 && HasEligible(q, LANE_ORDER[2], now);
    assert !HasEligible(q, LANE_ORDER[0], now) && !HasEligible(q, LANE_ORDER[1], now);
    assert ServingLane(q, now, 2) == Some(Normal) == ServingLane(q, now, 1);
  }

  // ---- Invariants over every run ----

  ghost predicate Inv(cfg: Config, q: Queue) {
    && |All(q)| <= cfg.maxCapacity + 10
    && |NonCritical(q)| <= cfg.maxCapacity
    && (forall tenant :: |Filter(NonCritical(q), OfTenant(tenant))| <= cfg.maxPerTenantQuota)
    && (forall lane: Lane, item :: item in q.lanes.At(lane) ==> item.priorityLane == lane)
  }

  /** How many non-critical items a tenant has, lane by lane. */
  lemma TenantByLane(q: Queue, tenant: string)
    ensures |Filter(NonCritical(q), OfTenant(tenant))|
         == |Filter(q.lanes.interactive, OfTenant(tenant))| + |Filter(q.lanes.normal, OfTenant(tenant))|
          + |Filter(q.lanes.retry, OfTenant(tenant))| + |Filter(q.lanes.background, OfTenant(tenant))|
    ensures |Filter(NonCritical(q), OfTenant(tenant))| <= |Filter(All(q), OfTenant(tenant))|
  {
    var p, l := OfTenant(tenant), q.lanes;
    CountFour(l.interactive, l.normal, l.retry, l.background, p);
    assert All(q) == l.critical + NonCritical(q);
    FilterConcat(l.critical, NonCritical(q), p);
  }

  lemma CountFour(a: seq<Item>, b: seq<Item>, c: seq<Item>, d: seq<Item>, p: Item -> bool)
    ensures |Filter(a + b + c + d, p)| == |Filter(a, p)| + |Filter(b, p)| + |Filter(c, p)| + |Filter(d, p)|
  {
    FilterConcat(a + b + c, d, p);
    FilterConcat(a + b, c, p);
    FilterConcat(a, b, p);
  }

  /** Taking items out of lanes keeps the invariant. */
  lemma ShrinkingKeepsInv(cfg: Config, q: Queue, q': Queue)
    requires Inv(cfg, q)
    requires forall lane: Lane :: |q'.lanes.At(lane)| <= |q.lanes.At(lane)|
    requires forall lane: Lane, item :: item in q'.lanes.At(lane) ==> item in q.lanes.At(lane)
    requires forall lane: Lane, tenant ::
      |Filter(q'.lanes.At(lane), OfTenant(tenant))| <= |Filter(q.lanes.At(lane), OfTenant(tenant))|
    ensures Inv(cfg, q')
  {
    assert |q'.lanes.At(Critical)| <= |q.lanes.At(Critical)| && |q'.lanes.At(Interactive)| <= |q.lanes.At(Interactive)|
        && |q'.lanes.At(Normal)| <= |q.lanes.At(Normal)| && |q'.lanes.At(Retry)| <= |q.lanes.At(Retry)|
        && |q'.lanes.At(Background)| <= |q.lanes.At(Background)|;
    forall tenant
      ensures |Filter(NonCritical(q'), OfTenant(tenant))| <= cfg.maxPerTenantQuota
    {
      TenantShrinks(q, q', tenant);
    }
  }

  lemma TenantShrinks(q: Queue, q': Queue, tenant: string)
    requires forall lane: Lane :: |Filter(q'.lanes.At(lane), OfTenant(tenant))| <= |Filter(q.lanes.At(lane), OfTenant(tenant))|
    ensures |Filter(NonCritical(q'), OfTenant(tenant))| <= |Filter(NonCritical(q), OfTenant(tenant))|
  {
    TenantByLane(q, tenant);
    TenantByLane(q', tenant);
    assert q'.lanes.At(Interactive) == q'.lanes.interactive && q'.lanes.At(Normal) == q'.lanes.normal
        && q'.lanes.At(Retry) == q'.lanes.retry && q'.lanes.At(Background) == q'.lanes.background;
  }

  lemma TakingOneKeepsInv(cfg: Config, q: Queue, q': Queue, lane: Lane, i: nat)
    requires Inv(cfg, q) && i < |q.lanes.At(lane)|
    requires q'.lanes == q.lanes.With(lane, Without(q.lanes.At(lane), i))
    ensures Inv(cfg, q')
  {
    forall other: Lane, tenant
      ensures |Filter(q'.lanes.At(other), OfTenant(tenant))| <= |Filter(q.lanes.At(other), OfTenant(tenant))|
    {
      FilterWithout(q.lanes.At(lane), i, OfTenant(tenant));
    }
    ShrinkingKeepsInv(cfg, q, q');
  }

  lemma EnqueueKeepsInv(cfg: Config, q: Queue, item: Item)
    requires Inv(cfg, q)
    ensures Inv(cfg, AfterEnqueue(cfg, q, item))
  {
    var q' := AfterEnqueue(cfg, q, item);
    forall tenant
      ensures |Filter(NonCritical(q'), OfTenant(tenant))| <= cfg.maxPerTenantQuota
    {
      TenantByLane(q, tenant);
      TenantByLane(q', tenant);
      FilterConcat(q.lanes.At(item.priorityLane), [item], OfTenant(tenant));
      assert [item][..0] == [];
    }
  }

  lemma PruneOneLane(q: Queue, now: int, lane: Lane)
    ensures var s, s' := q.lanes.At(lane), AfterPrune(q, now).lanes.At(lane);
      && |s'| <= |s|
      && (forall item :: item in s' ==> item in s)
      && forall tenant :: |Filter(s', OfTenant(tenant))| <= |Filter(s, OfTenant(tenant))|
  {
    var s, live := q.lanes.At(lane), Not(Expired(now));
    FilterConserves(s, Expired(now));
    forall item ensures item in Filter(s, live) ==> item in s {
      FilterMember(s, live, item);
    }
    forall tenant ensures |Filter(Filter(s, live), OfTenant(tenant))| <= |Filter(s, OfTenant(tenant))| {
      FilterTwice(s, live, OfTenant(tenant));
    }
  }

  lemma PruneKeepsInv(cfg: Config, q: Queue, now: int)
    requires Inv(cfg, q)
    ensures Inv(cfg, AfterPrune(q, now))
  {
    forall lane: Lane {
      PruneOneLane(q, now, lane);
    }
    ShrinkingKeepsInv(cfg, q, AfterPrune(q, now));
  }

  lemma FilterTwice(s: seq<Item>, p: Item -> bool, r: Item -> bool)
    ensures |Filter(Filter(s, p), r)| <= |Filter(s, r)|
  {
    if s != [] {
      var init := s[..|s| - 1];
      FilterTwice(init, p, r);
      if p(Last(s)) {
        assert Filter(s, p)[..|Filter(s, p)| - 1] == Filter(init, p);
      } else {
        assert Filter(s, p) == Filter(init, p);
      }
    }
  }

  /** Relabelling changes the lane tag and nothing else. */
  lemma RelabelledKeepsTenants(items: seq<Item>, tenant: string)
    ensures |Relabelled(items)| == |items|
    ensures |Filter(Relabelled(items), OfTenant(tenant))| == |Filter(items, OfTenant(tenant))|
    ensures forall k :: 0 <= k < |items| ==> Relabelled(items)[k] == items[k].(priorityLane := Interactive)
  {
    if items != [] {
      var init, r := items[..|items| - 1], Relabelled(items);
      RelabelledKeepsTenants(init, tenant);
      assert r[..|r| - 1] == Relabelled(init);
    }
  }

  lemma {:induction false} SplitKeepsTenants(s: seq<Item>, p: Item -> bool, tenant: string)
    ensures |Filter(Filter(s, p), OfTenant(tenant))| + |Filter(Filter(s, Not(p)), OfTenant(tenant))| == |Filter(s, OfTenant(tenant))|
  {
    if s != [] {
      var init, x := s[..|s| - 1], Last(s);
      SplitKeepsTenants(init, p, tenant);
      FilterConcat(Filter(init, p), if p(x) then [x] else [], OfTenant(tenant));
      FilterConcat(Filter(init, Not(p)), if p(x) then [] else [x], OfTenant(tenant));
      assert [x][..0] == [];
      assert Filter(init, Not(p)) + [] == Filter(init, Not(p)) && Filter(init, p) + [] == Filter(init, p);
    }
  }

  lemma AgingKeepsInv(cfg: Config, q: Queue, now: int)
    requires Inv(cfg, q)
    ensures Inv(cfg, AfterAging(cfg, q, now))
  {
    var q', aged := AfterAging(cfg, q, now), Aged(cfg, now);
    var moved := Filter(q.lanes.normal, aged);
    FilterConserves(q.lanes.normal, aged);
    RelabelledKeepsTenants(moved, "");
    forall tenant
      ensures |Filter(NonCritical(q'), OfTenant(tenant))| <= cfg.maxPerTenantQuota
    {
      TenantByLane(q, tenant);
      TenantByLane(q', tenant);
      FilterConcat(q.lanes.interactive, Relabelled(moved), OfTenant(tenant));
      RelabelledKeepsTenants(moved, tenant);
      SplitKeepsTenants(q.lanes.normal, aged, tenant);
    }
    forall lane: Lane, item | item in q'.lanes.At(lane)
      ensures item.priorityLane == lane
    {
      if lane == Normal {
        FilterMember(q.lanes.normal, Not(aged), item);
      }
      assert q.lanes.At(lane) == match lane case Critical => q.lanes.critical case Interactive => q.lanes.interactive
        case Normal => q.lanes.normal case Retry => q.lanes.retry case Background => q.lanes.background;
    }
  }

  lemma StepKeepsInv(cfg: Config, q: Queue, event: Event)
    requires Inv(cfg, q)
    ensures Inv(cfg, Step(cfg, q, event))
  {
    match event
    case Enqueue(item) => EnqueueKeepsInv(cfg, q, item);
    case Dequeue(now) =>
      var lane := ServingLane(q, now, 0);
      if lane.Some? {
        TakingOneKeepsInv(cfg, q, AfterDequeue(q, now), lane.value, Eligible(q, lane.value, now));
      }
    case Remove(taskId, tenant) =>
      var r := Removal(q, taskId, tenant);
      if r.Some? {
        TakingOneKeepsInv(cfg, q, AfterRemove(q, taskId, tenant), r.value.0, r.value.1);
      }
    case PruneExpired(now) => PruneKeepsInv(cfg, q, now);
    case ApplyAging(now) => AgingKeepsInv(cfg, q, now);
  }

  /** Capacity, quota and tags hold after every run from any state that satisfies them. */
  lemma {:induction false} RunKeepsInv(cfg: Config, q: Queue, events: seq<Event>)
    requires Inv(cfg, q)
    ensures Inv(cfg, Run(cfg, q, events))
    decreases |events|
  {
    if events != [] {
      StepKeepsInv(cfg, q, events[0]);
      RunKeepsInv(cfg, Step(cfg, q, events[0]), events[1..]);
    }
  }

  /** After every run from empty: ten places more for critical items, the quota for every tenant, and every item in the lane it is tagged with. */
  lemma EveryRunFromEmpty(cfg: Config, events: seq<Event>)
    ensures var l := Run(cfg, EMPTY, events).lanes;
      && |l.critical| + |l.interactive| + |l.normal| + |l.retry| + |l.background| <= cfg.maxCapacity + 10
      && |l.interactive| + |l.normal| + |l.retry| + |l.background| <= cfg.maxCapacity
      && (forall tenant :: |Filter(l.interactive + l.normal + l.retry + l.background, OfTenant(tenant))| <= cfg.maxPerTenantQuota)
      && (forall lane: Lane, item :: item in l.At(lane) ==> item.priorityLane == lane)
  {
    forall tenant ensures |Filter(NonCritical(EMPTY), OfTenant(tenant))| == 0 {
    }
    RunKeepsInv(cfg, EMPTY, events);
  }

  // ---- Conservation ----

  lemma ReplaceLane(q: Queue, q': Queue, lane: Lane, items: seq<Item>)
    requires q'.lanes == q.lanes.With(lane, items)
    ensures multiset(All(q')) + multiset(q.lanes.At(lane)) == multiset(All(q)) + multiset(items)
  {
    AllByLane(q);
    AllByLane(q');
    assert forall other: Lane :: q'.lanes.At(other) == if other == lane then items else q.lanes.At(other);
  }

  lemma AllByLane(q: Queue)
    ensures multiset(All(q)) == multiset(q.lanes.At(Critical)) + multiset(q.lanes.At(Interactive))
      + multiset(q.lanes.At(Normal)) + multiset(q.lanes.At(Retry)) + multiset(q.lanes.At(Background))
  {
  }

  /** A dequeue takes the served item out and touches nothing else. */
  lemma DequeueConserves(q: Queue, now: int)
    ensures Served(q, now).None? ==> AfterDequeue(q, now) == q
    ensures Served(q, now).Some? ==> multiset(All(AfterDequeue(q, now))) + multiset{Served(q, now).value} == multiset(All(q))
  {
    var lane := ServingLane(q, now, 0);
    if lane.Some? {
      TakingConserves(q, AfterDequeue(q, now), lane.value, Eligible(q, lane.value, now));
    }
  }

  lemma TakingConserves(q: Queue, q': Queue, lane: Lane, i: nat)
    requires i < |q.lanes.At(lane)| && q'.lanes == q.lanes.With(lane, Without(q.lanes.At(lane), i))
    ensures multiset(All(q')) + multiset{q.lanes.At(lane)[i]} == multiset(All(q))
  {
    WithoutConserves(q.lanes.At(lane), i);
    ReplaceLane(q, q', lane, Without(q.lanes.At(lane), i));
  }

  /** Pruning splits the queue into the expired items, in order, and the live ones, lane by lane in order. */
  lemma PruneConserves(q: Queue, now: int)
    ensures multiset(All(AfterPrune(q, now))) + multiset(Pruned(q, now)) == multiset(All(q))
    ensures All(AfterPrune(q, now)) == Filter(All(q), Not(Expired(now)))
  {
    var l, live := q.lanes, Not(Expired(now));
    FilterConcat(l.critical + l.interactive + l.normal + l.retry, l.background, live);
    FilterConcat(l.critical + l.interactive + l.normal, l.retry, live);
    FilterConcat(l.critical + l.interactive, l.normal, live);
    FilterConcat(l.critical, l.interactive, live);
    FilterConserves(All(q), Expired(now));
  }

  /** Aging moves exactly the over-age normal items to the end of the interactive lane, in order, and loses none. */
  lemma AgingConserves(cfg: Config, q: Queue, now: int)
    ensures var q', moved := AfterAging(cfg, q, now), Filter(q.lanes.normal, Aged(cfg, now));
      && multiset(q'.lanes.normal) + multiset(moved) == multiset(q.lanes.normal)
      && q.lanes.interactive <= q'.lanes.interactive
      && |q'.lanes.interactive| == |q.lanes.interactive| + |moved|
      && (forall k :: 0 <= k < |moved| ==> q'.lanes.interactive[|q.lanes.interactive| + k] == moved[k].(priorityLane := Interactive))
      && |All(q')| == |All(q)|
  {
    FilterConserves(q.lanes.normal, Aged(cfg, now));
    RelabelledKeepsTenants(Filter(q.lanes.normal, Aged(cfg, now)), "");
  }

  /** What is served comes from the highest lane that has an eligible item. */
  lemma ServesHighestLane(q: Queue, now: int, k: nat)
    requires k < 5 && HasEligible(q, LANE_ORDER[k], now)
    ensures ServingLane(q, now, 0).Some?
    ensures exists j :: (0 <= j <= k && ServingLane(q, now, 0) == Some(LANE_ORDER[j])
      && forall h :: 0 <= h < j ==> !HasEligible(q, LANE_ORDER[h], now))
  {
    var j := ServingLaneFrom(q, now, 0, k);
  }

  lemma {:induction false} ServingLaneFrom(q: Queue, now: int, from: nat, k: nat) returns (j: nat)
    requires from <= k < 5 && HasEligible(q, LANE_ORDER[k], now)
    ensures from <= j <= k && ServingLane(q, now, from) == Some(LANE_ORDER[j])
    ensures forall h :: from <= h < j ==> !HasEligible(q, LANE_ORDER[h], now)
    decreases k - from
  {
    if HasEligible(q, LANE_ORDER[from], now) {
      j := from;
    } else {
      j := ServingLaneFrom(q, now, from + 1, k);
    }
  }

  // ---- Which item is served ----

  /** The retry time of the item has come, or none is set. */
  predicate MayRetry(item: Item, now: int) {
    match item.nextRetryAt
    case None => true
    case Some(at) => at == 0 || at <= now
  }

  /** The first lane, highest priority first, that has something to serve. */
  ghost predicate ServesFrom(q: Queue, now: int, lane: Lane) {
    match lane
    case Critical => q.lanes.critical != []
    case Interactive => q.lanes.critical == [] && q.lanes.interactive != []
    case Normal => q.lanes.critical == [] && q.lanes.interactive == [] && q.lanes.normal != []
    case Retry =>
      && q.lanes.critical == [] && q.lanes.interactive == [] && q.lanes.normal == []
      && exists item :: item in q.lanes.retry && MayRetry(item, now)
    case Background =>
      && q.lanes.critical == [] && q.lanes.interactive == [] && q.lanes.normal == [] && q.lanes.background != []
      && forall item :: item in q.lanes.retry ==> !MayRetry(item, now)
  }

  lemma EligibleMeaning(q: Queue, lane: Lane, now: int)
    ensures HasEligible(q, lane, now) <==>
      if lane == Retry then exists item :: item in q.lanes.retry && MayRetry(item, now) else q.lanes.At(lane) != []
  {
    var items := q.lanes.At(lane);
    if lane == Retry && exists item :: item in items && MayRetry(item, now) {
      var k :| 0 <= k < |items| && MayRetry(items[k], now);
      assert RetryDue(items[k], now);
    } else if lane == Retry && HasEligible(q, lane, now) {
      assert MayRetry(items[Eligible(q, lane, now)], now);
    }
  }

  /** A dequeue serves the highest lane that has something to serve, and none when no lane has. */
  lemma ServedLaneMeaning(q: Queue, now: int, lane: Lane)
    ensures ServingLane(q, now, 0) == Some(lane) <==> ServesFrom(q, now, lane)
  {
    EligibleMeaning(q, Critical, now);
    EligibleMeaning(q, Interactive, now);
    EligibleMeaning(q, Normal, now);
    EligibleMeaning(q, Retry, now);
    EligibleMeaning(q, Background, now);
    assert LANE_ORDER[0] == Critical && LANE_ORDER[1] == Interactive && LANE_ORDER[2] == Normal
        && LANE_ORDER[3] == Retry && LANE_ORDER[4] == Background;
    assert ServingLane(q, now, 4) == if q.lanes.background != [] then Some(Background) else None;
    assert ServingLane(q, now, 3) == if HasEligible(q, Retry, now) then Some(Retry) else ServingLane(q, now, 4);
    assert ServingLane(q, now, 2) == if q.lanes.normal != [] then Some(Normal) else ServingLane(q, now, 3);
    assert ServingLane(q, now, 1) == if q.lanes.interactive != [] then Some(Interactive) else ServingLane(q, now, 2);
  }

  /** The item at k may be retried by now, and everything before it must still wait. */
  ghost predicate FirstToRetry(items: seq<Item>, now: int, k: int) {
    0 <= k < |items| && MayRetry(items[k], now) && forall j :: 0 <= j < k ==> !MayRetry(items[j], now)
  }

  /** In the retry lane the served item may be retried by now, and everything before it must still wait. */
  lemma ServedRetryIsDue(q: Queue, now: int)
    requires ServingLane(q, now, 0) == Some(Retry)
    ensures exists k :: FirstToRetry(q.lanes.retry, now, k) && Served(q, now) == Some(q.lanes.retry[k])
  {
    var k := Eligible(q, Retry, now);
    assert Served(q, now) == Some(q.lanes.retry[k]);
    forall j | 0 <= j < k ensures !MayRetry(q.lanes.retry[j], now) {
      assert !RetryDue(q.lanes.retry[j], now);
    }
    assert RetryDue(q.lanes.retry[k], now);
    assert FirstToRetry(q.lanes.retry, now, k);
  }

  /** Nothing is served exactly when the other four lanes are empty and every retry item must still wait. */
  lemma NothingServedMeaning(q: Queue, now: int)
    ensures Served(q, now).None? <==>
      && q.lanes.critical == [] && q.lanes.interactive == [] && q.lanes.normal == [] && q.lanes.background == []
      && forall item :: item in q.lanes.retry ==> item.nextRetryAt.Some? && item.nextRetryAt.value != 0 && now < item.nextRetryAt.value
  {
    forall lane: Lane ensures ServingLane(q, now, 0) == Some(lane) <==> ServesFrom(q, now, lane) {
      ServedLaneMeaning(q, now, lane);
    }
    if q.lanes.critical == [] && q.lanes.interactive == [] && q.lanes.normal == [] && q.lanes.background == [] {
      assert Served(q, now).Some? <==> ServesFrom(q, now, Retry);
    }
  }

  /** Lane by lane, what each operation moves, in terms of the clock and the thresholds. */
  lemma AgedMeaning(cfg: Config, q: Queue, now: int, item: Item)
    ensures item in AfterAging(cfg, q, now).lanes.normal <==>
      item in q.lanes.normal && !(item.priorityLane == Normal && cfg.agingThresholdMs <= now - item.queuedAt)
  {
    FilterMember(q.lanes.normal, Not(Aged(cfg, now)), item);
  }

  lemma PrunedMeaning(q: Queue, now: int, item: Item, lane: Lane)
    ensures item in Pruned(q, now) <==> item in All(q) && item.expiresAt < now
    ensures item in AfterPrune(q, now).lanes.At(lane) <==> item in q.lanes.At(lane) && now <= item.expiresAt
  {
    FilterMember(All(q), Expired(now), item);
    FilterMember(q.lanes.At(lane), Not(Expired(now)), item);
  }

  /** The first index, lane by lane in the order of priority, that holds the id. */
  lemma {:induction false} LaneOfTaskFinds(q: Queue, taskId: string, k: nat)
    requires k <= 5
    ensures LaneOfTask(q, taskId, k).None? <==> forall j, item :: k <= j < 5 && item in q.lanes.At(LANE_ORDER[j]) ==> item.taskId != taskId
    decreases 5 - k
  {
    if k < 5 {
      LaneOfTaskFinds(q, taskId, k + 1);
      var items := q.lanes.At(LANE_ORDER[k]);
      var f := FirstTask(items, taskId);
      if f < |items| {
        assert items[f] in items;
      } else {
        assert forall item :: item in items ==> item.taskId != taskId;
      }
    }
  }

  /** A removal without a tenant takes an item exactly when some lane holds the id; with one, never another tenant's. */
  lemma RemovalMeaning(q: Queue, taskId: string, tenant: string)
    ensures tenant == "" ==> (Removal(q, taskId, tenant).Some? <==> exists lane: Lane, item :: item in q.lanes.At(lane) && item.taskId == taskId)
    ensures tenant != "" && (forall lane: Lane, item :: item in q.lanes.At(lane) && item.taskId == taskId ==> item.tenantId == tenant) ==>
      (Removal(q, taskId, tenant).Some? <==> exists lane: Lane, item :: item in q.lanes.At(lane) && item.taskId == taskId)
    ensures Removal(q, taskId, tenant).Some? ==>
      var (lane, i) := Removal(q, taskId, tenant).value;
      var item := q.lanes.At(lane)[i];
      item.taskId == taskId && (tenant == "" || item.tenantId == tenant)
  {
    LaneOfTaskFinds(q, taskId, 0);
    assert LANE_ORDER[0] == Critical && LANE_ORDER[1] == Interactive && LANE_ORDER[2] == Normal
        && LANE_ORDER[3] == Retry && LANE_ORDER[4] == Background;
    var lane := LaneOfTask(q, taskId, 0);
    if lane.Some? {
      var items := q.lanes.At(lane.value);
      assert items[FirstTask(items, taskId)] in items;
    } else {
      forall l: Lane, item | item in q.lanes.At(l) ensures item.taskId != taskId {
        assert exists j :: 0 <= j < 5 && LANE_ORDER[j] == l;
      }
    }
  }

  // ---- The queue as the program keeps it ----

  /** The tenants of a lane in order of first appearance, with the index each one opens at. */
  method UniqueTenants(items: seq<Item>) returns (tenants: seq<string>, ghost openings: seq<nat>)
    ensures |tenants| == |openings| && ListsOpenings(items, openings)
    ensures forall j :: 0 <= j < |openings| ==> items[openings[j]].tenantId == tenants[j]
    ensures forall i :: 0 <= i < |items| ==> items[i].tenantId in tenants
  {
    tenants, openings := [], [];
    for i := 0 to |items|
      invariant |tenants| == |openings|
      invariant forall j :: 0 <= j < |openings| ==>
        openings[j] < i && Opens(items, openings[j]) && items[openings[j]].tenantId == tenants[j]
      invariant forall j, k :: 0 <= j < k < |openings| ==> openings[j] < openings[k]
      invariant forall k :: 0 <= k < i ==> (Opens(items, k) <==> k in openings)
      invariant forall k :: 0 <= k < i ==> items[k].tenantId in tenants
    {
      if items[i].tenantId !in tenants {
        tenants := tenants + [items[i].tenantId];
        openings := openings + [i];
      }
    }
  }

  method FindRoundRobinIndex(items: seq<Item>, last: string) returns (index: int)
    ensures items == [] ==> index == -1
    ensures items != [] ==> index == RoundRobin(items, last)
  {
    if |items| == 0 {
      return -1;
    }
    var tenants, openings := UniqueTenants(items);
    assert Opens(items, 0);
    if |tenants| == 1 {
      assert openings == [0];
      return 0;
    }
    assert openings[0] == 0;
    var target := tenants[0];
    ghost var t := 0;
    if last != "" {
      var lastIdx := IndexOf(tenants, last);
      if lastIdx != -1 {
        var nextIdx := (lastIdx + 1) % |tenants|;
        target := tenants[nextIdx];
        t := nextIdx;
        NextTenantOpens(items, last, tenants, openings, lastIdx);
      }
    }
    index := 0;
    while index < |items| && items[index].tenantId != target
      invariant 0 <= index <= openings[t]
      invariant forall k :: 0 <= k < index ==> items[k].tenantId != target
    {
      index := index + 1;
    }
  }

  ghost predicate ListsOpenings(items: seq<Item>, openings: seq<nat>) {
    && (forall k :: 0 <= k < |openings| ==> openings[k] < |items| && Opens(items, openings[k]))
    && (forall h, k :: 0 <= h < k < |openings| ==> openings[h] < openings[k])
    && (forall i :: 0 <= i < |items| ==> (Opens(items, i) <==> i in openings))
  }

  lemma OpeningAfter(items: seq<Item>, openings: seq<nat>, j: nat)
    requires items != [] && ListsOpenings(items, openings) && j < |openings|
    ensures NextOpening(items, openings[j] + 1) == if j + 1 < |openings| then openings[j + 1] else 0
  {
    var r := NextOpening(items, openings[j] + 1);
    assert r in openings;
    if j + 1 < |openings| {
      assert Opens(items, openings[j + 1]);
    }
  }

  lemma OpeningIsFirst(items: seq<Item>, last: string, k: nat)
    requires k < |items| && Opens(items, k) && items[k].tenantId == last
    ensures FirstOf(items, last) == k
  {
  }

  lemma NextTenantOpens(items: seq<Item>, last: string, tenants: seq<string>, openings: seq<nat>, j: nat)
    requires items != [] && last != "" && ListsOpenings(items, openings)
    requires j < |openings| && items[openings[j]].tenantId == last
    requires openings[0] == 0
    ensures openings[(j + 1) % |openings|] == RoundRobin(items, last)
  {
    OpeningIsFirst(items, last, openings[j]);
    OpeningAfter(items, openings, j);
    if j + 1 < |openings| {
      assert (j + 1) % |openings| == j + 1;
    }
  }

  method IndexOf(tenants: seq<string>, t: string) returns (index: int)
    ensures index == -1 ==> t !in tenants
    ensures index != -1 ==> 0 <= index < |tenants| && tenants[index] == t
  {
    for i := 0 to |tenants|
      invariant t !in tenants[..i]
    {
      if tenants[i] == t {
        return i;
      }
    }
    return -1;
  }

  class ExecutionQueue {
    const cfg: Config
    var lanes: PerLane<seq<Item>>
    var lastServedTenant: PerLane<string>

    constructor (cfg: Config)
      ensures this.cfg == cfg && View() == EMPTY
    {
      this.cfg := cfg;
      lanes := EMPTY.lanes;
      lastServedTenant := EMPTY.last;
    }

    ghost function View(): Queue
      reads this
    {
      Queue(lanes, lastServedTenant)
    }

    method GetSize() returns (size: nat)
      ensures size == |All(View())|
    {
      size := |lanes.critical| + |lanes.interactive| + |lanes.normal| + |lanes.retry| + |lanes.background|;
    }

    method GetTenantCount(tenant: string) returns (count: nat)
      ensures count == |Filter(All(View()), OfTenant(tenant))|
    {
      count := 0;
      ghost var seen: seq<Item> := [];
      for k := 0 to 5
        invariant seen == LanesBefore(View(), k)
        invariant count == |Filter(seen, OfTenant(tenant))|
      {
        var items := lanes.At(LANE_ORDER[k]);
        assert seen + items[..0] == seen;
        for i := 0 to |items|
          invariant count == |Filter(seen + items[..i], OfTenant(tenant))|
        {
          assert (seen + items[..i + 1])[..|seen| + i] == seen + items[..i];
          if items[i].tenantId == tenant {
            count := count + 1;
          }
        }
        assert items[..|items|] == items;
        seen := seen + items;
      }
      AllLanes(View());
    }

    method Enqueue(item: Item) returns (ok: bool)
      modifies this
      ensures ok == Admits(cfg, old(View()), item)
      ensures View() == AfterEnqueue(cfg, old(View()), item)
      ensures ok <==>
        if item.priorityLane == Critical then old(|All(View())|) < cfg.maxCapacity + 10
        else old(|All(View())|) < cfg.maxCapacity && old(|Filter(All(View()), OfTenant(item.tenantId))|) < cfg.maxPerTenantQuota
      ensures ok ==> lanes.At(item.priorityLane) == old(lanes.At(item.priorityLane)) + [item]
      ensures forall lane: Lane :: lane != item.priorityLane || !ok ==> lanes.At(lane) == old(lanes.At(lane))
    {
      var totalSize := GetSize();
      if item.priorityLane != Critical {
        if totalSize >= cfg.maxCapacity {
          return false;
        }
        var count := GetTenantCount(item.tenantId);
        if count >= cfg.maxPerTenantQuota {
          return false;
        }
      } else if totalSize >= cfg.maxCapacity + 10 {
        return false;
      }
      lanes := lanes.With(item.priorityLane, lanes.At(item.priorityLane) + [item]);
      return true;
    }

    /** The index a lane would serve, or -1. */
    method FindEligible(lane: Lane, now: int) returns (index: int)
      ensures index != -1 <==> HasEligible(View(), lane, now)
      ensures index != -1 ==> index == Eligible(View(), lane, now)
    {
      var items := lanes.At(lane);
      if |items| == 0 {
        return -1;
      }
      if lane == Retry {
        for i := 0 to |items|
          invariant forall j :: 0 <= j < i ==> !RetryDue(items[j], now)
        {
          if RetryDue(items[i], now) {
            return i;
          }
        }
        return -1;
      }
      index := FindRoundRobinIndex(items, lastServedTenant.At(lane));
    }

    method Dequeue(now: int) returns (r: Option<Item>)
      modifies this
      ensures r == Served(old(View()), now)
      ensures View() == AfterDequeue(old(View()), now)
      ensures r.Some? && old(ServesFrom(View(), now, Retry)) ==> r.value in old(lanes.retry) && MayRetry(r.value, now)
    {
      ServedLaneMeaning(View(), now, Retry);
      if ServesFrom(View(), now, Retry) {
        ServedRetryIsDue(View(), now);
      }
      for k := 0 to 5
        invariant View() == old(View())
        invariant ServingLane(View(), now, 0) == ServingLane(View(), now, k)
      {
        var lane := LANE_ORDER[k];
        var index := FindEligible(lane, now);
        if index != -1 {
          var item := lanes.At(lane)[index];
          lanes := lanes.With(lane, Without(lanes.At(lane), index));
          lastServedTenant := lastServedTenant.With(lane, item.tenantId);
          return Some(item);
        }
      }
      return None;
    }

    /** Peeking answers what a dequeue at the same time would return, and changes nothing. */
    method Peek(now: int) returns (r: Option<Item>)
      ensures r == Served(View(), now)
    {
      for k := 0 to 5
        invariant ServingLane(View(), now, 0) == ServingLane(View(), now, k)
      {
        var lane := LANE_ORDER[k];
        var index := FindEligible(lane, now);
        if index != -1 {
          return Some(lanes.At(lane)[index]);
        }
      }
      return None;
    }

    method Remove(taskId: string, tenant: string) returns (r: Option<Item>)
      modifies this
      ensures View() == AfterRemove(old(View()), taskId, tenant)
      ensures r.Some? <==> Removal(old(View()), taskId, tenant).Some?
      ensures r.Some? ==> var at := Removal(old(View()), taskId, tenant).value; r.value == old(View()).lanes.At(at.0)[at.1]
      ensures r.Some? ==> r.value.taskId == taskId && (tenant == "" || r.value.tenantId == tenant)
    {
      for k := 0 to 5
        invariant View() == old(View())
        invariant LaneOfTask(View(), taskId, 0) == LaneOfTask(View(), taskId, k)
      {
        var lane := LANE_ORDER[k];
        var items := lanes.At(lane);
        var index := 0;
        while index < |items| && items[index].taskId != taskId
          invariant 0 <= index <= |items|
          invariant forall j :: 0 <= j < index ==> items[j].taskId != taskId
        {
          index := index + 1;
        }
        if index < |items| {
          var item := items[index];
          if tenant != "" && item.tenantId != tenant {
            return None;
          }
          lanes := lanes.With(lane, Without(items, index));
          return Some(item);
        }
      }
      return None;
    }

    method PruneExpired(now: int) returns (expired: seq<Item>)
      modifies this
      ensures View() == AfterPrune(old(View()), now)
      ensures expired == Pruned(old(View()), now)
    {
      expired := [];
      ghost var q0 := View();
      for k := 0 to 5
        invariant lastServedTenant == q0.last
        invariant expired == Filter(LanesBefore(q0, k), Expired(now))
        invariant lanes == PrunedBefore(q0.lanes, now, k)
      {
        var lane := LANE_ORDER[k];
        var gone, valid := SplitExpired(lanes.At(lane), now);
        FilterConcat(LanesBefore(q0, k), q0.lanes.At(lane), Expired(now));
        expired := expired + gone;
        lanes := lanes.With(lane, valid);
      }
      AllLanes(q0);
      AllPruned(q0, now);
    }

    method ApplyAging(now: int)
      modifies this
      ensures View() == AfterAging(cfg, old(View()), now)
    {
      var normalItems := lanes.normal;
      var remaining: seq<Item> := [];
      ghost var before := lanes.interactive;
      ghost var moved: seq<Item> := [];
      assert before + moved == before;
      for i := 0 to |normalItems|
        invariant lastServedTenant == old(lastServedTenant)
        invariant lanes == old(lanes).(interactive := before + moved)
        invariant moved == Relabelled(Filter(normalItems[..i], Aged(cfg, now)))
        invariant remaining == Filter(normalItems[..i], Not(Aged(cfg, now)))
      {
        var item := normalItems[i];
        AgeNext(cfg, normalItems, now, i);
        if ShouldPromote(cfg, item, now) {
          lanes := lanes.(interactive := lanes.interactive + [item.(priorityLane := Interactive)]);
          moved := moved + [item.(priorityLane := Interactive)];
          assert lanes.interactive == before + moved;
        } else {
          remaining := remaining + [item];
        }
      }
      assert normalItems[..|normalItems|] == normalItems;
      lanes := lanes.(normal := remaining);
    }
  }

  /** What one more normal item adds to the moved and to the remaining ones. */
  lemma AgeNext(cfg: Config, items: seq<Item>, now: int, i: nat)
    requires i < |items|
    ensures Relabelled(Filter(items[..i + 1], Aged(cfg, now))) == Relabelled(Filter(items[..i], Aged(cfg, now)))
      + if ShouldPromote(cfg, items[i], now) then [items[i].(priorityLane := Interactive)] else []
    ensures Filter(items[..i + 1], Not(Aged(cfg, now))) == Filter(items[..i], Not(Aged(cfg, now)))
      + if ShouldPromote(cfg, items[i], now) then [] else [items[i]]
  {
    assert items[..i + 1][..i] == items[..i];
    var moved := Filter(items[..i + 1], Aged(cfg, now));
    if ShouldPromote(cfg, items[i], now) {
      assert moved[..|moved| - 1] == Filter(items[..i], Aged(cfg, now));
    } else {
      assert moved == Filter(items[..i], Aged(cfg, now));
    }
  }

  /** The lanes before position k, one after the other. */
  ghost function LanesBefore(q: Queue, k: nat): seq<Item>
    requires k <= 5
  {
    if k == 0 then [] else LanesBefore(q, k - 1) + q.lanes.At(LANE_ORDER[k - 1])
  }

  lemma AllLanes(q: Queue)
    ensures LanesBefore(q, 5) == All(q)
  {
    assert LanesBefore(q, 1) == q.lanes.critical;
    assert LanesBefore(q, 2) == q.lanes.critical + q.lanes.interactive;
    assert LanesBefore(q, 3) == q.lanes.critical + q.lanes.interactive + q.lanes.normal;
    assert LanesBefore(q, 4) == q.lanes.critical + q.lanes.interactive + q.lanes.normal + q.lanes.retry;
  }

  /** The lanes with the first k of them pruned. */
  ghost function PrunedBefore(lanes: PerLane<seq<Item>>, now: int, k: nat): (r: PerLane<seq<Item>>)
    requires k <= 5
    ensures forall j :: k <= j < 5 ==> r.At(LANE_ORDER[j]) == lanes.At(LANE_ORDER[j])
  {
    if k == 0 then lanes
    else
      var lane := LANE_ORDER[k - 1];
      PrunedBefore(lanes, now, k - 1).With(lane, Filter(lanes.At(lane), Not(Expired(now))))
  }

  lemma AllPruned(q: Queue, now: int)
    ensures PrunedBefore(q.lanes, now, 5) == AfterPrune(q, now).lanes
  {
    assert PrunedBefore(q.lanes, now, 1).critical == Filter(q.lanes.critical, Not(Expired(now)));
    assert PrunedBefore(q.lanes, now, 2).interactive == Filter(q.lanes.interactive, Not(Expired(now)));
    assert PrunedBefore(q.lanes, now, 3).normal == Filter(q.lanes.normal, Not(Expired(now)));
    assert PrunedBefore(q.lanes, now, 4).retry == Filter(q.lanes.retry, Not(Expired(now)));
  }

  method SplitExpired(items: seq<Item>, now: int) returns (gone: seq<Item>, valid: seq<Item>)
    ensures gone == Filter(items, Expired(now)) && valid == Filter(items, Not(Expired(now)))
  {
    gone, valid := [], [];
    for i := 0 to |items|
      invariant gone == Filter(items[..i], Expired(now)) && valid == Filter(items[..i], Not(Expired(now)))
    {
      assert items[..i + 1][..i] == items[..i];
      if now > items[i].expiresAt {
        gone := gone + [items[i]];
      } else {
        valid := valid + [items[i]];
      }
    }
    assert items[..|items|] == items;
  }
}
