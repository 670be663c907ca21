// NotificationQueue: coalescing, two capacity thresholds and expiry.
module Notifications {
  import opened Collections

  datatype Priority = Low | Normal | High | Critical

  function Weight(p: Priority): nat {
    match p
    case Critical => 4
    case High => 3
    case Normal => 2
    case Low => 1
  }

  /** An empty coalesceKey stands for none. */
  datatype Item = Item(id: string, priority: Priority, coalesceKey: string, isRead: bool, expiresAt: Option<int>, body: string)

  predicate Important(item: Item) {
    item.priority == Critical || item.priority == High
  }

  predicate Expired(item: Item, now: int) {
    item.expiresAt.Some? && item.expiresAt.value <= now
  }

  function ExpiredAt(now: int): Item -> bool {
    (item: Item) => Expired(item, now)
  }

  // ---- The queue as a value ----

  function Purged(items: seq<Item>, now: int): seq<Item> {
    Filter(items, Not(ExpiredAt(now)))
  }

  predicate HasKey(item: Item) {
    exists c :: c in item.coalesceKey && !IsSpace(c)
  }

  predicate Matches(existing: Item, item: Item) {
    existing.coalesceKey == item.coalesceKey && !existing.isRead
  }

  function FirstMatch(items: seq<Item>, item: Item): (i: nat)
    ensures i <= |items|
    ensures i < |items| ==> Matches(items[i], item)
    ensures forall j :: 0 <= j < i ==> !Matches(items[j], item)
  {
    FirstIndex(items, (x: Item) => Matches(x, item))
  }

  function FirstUnimportant(items: seq<Item>): (i: nat)
    ensures i <= |items|
    ensures i < |items| ==> !Important(items[i])
    ensures forall j :: 0 <= j < i ==> Important(items[j])
  {
    FirstIndex(items, (x: Item) => !Important(x))
  }

  function FirstId(items: seq<Item>, id: string): (i: nat)
    ensures i <= |items|
    ensures i < |items| ==> items[i].id == id
    ensures forall j :: 0 <= j < i ==> items[j].id != id
  {
    FirstIndex(items, (x: Item) => x.id == id)
  }

  datatype Verdict = Enqueued | Coalesced | Rejected

  /** The incoming item takes the place of an unread one under the same key, unless that would lower its priority. */
  predicate Coalesces(items: seq<Item>, item: Item) {
    && HasKey(item)
    && FirstMatch(items, item) < |items|
    && Weight(item.priority) >= Weight(items[FirstMatch(items, item)].priority)
  }

  function Admission(max: nat, items: seq<Item>, item: Item): Verdict {
    if Coalesces(items, item) then Coalesced
    else if |items| < max then Enqueued
    else if !Important(item) then Rejected
    else if FirstUnimportant(items) < |items| || |items| < 2 * max then Enqueued
    else Rejected
  }

  function AfterEnqueue(max: nat, items: seq<Item>, item: Item): seq<Item> {
    match Admission(max, items, item)
    case Rejected => items
    case Coalesced =>
      var i := FirstMatch(items, item);
      items[i := item.(id := items[i].id)]
    case Enqueued =>
      if |items| >= max && FirstUnimportant(items) < |items|
      then Without(items, FirstUnimportant(items)) + [item]
      else items + [item]
  }

  datatype Event =
    | Enqueue(item: Item, now: int)
    | Purge(now: int)
    | Update(id: string, item: Item)
    | MarkRead(id: string)
    | Clear

  function Step(max: nat, items: seq<Item>, e: Event): seq<Item> {
    match e
    case Enqueue(item, now) => AfterEnqueue(max, Purged(items, now), item)
    case Purge(now) => Purged(items, now)
    case Update(id, item) =>
      var i := FirstId(items, id);
      if i < |items| then items[i := item.(id := id)] else items
    case MarkRead(id) =>
      var i := FirstId(items, id);
      if i < |items| then items[i := items[i].(isRead := true)] else items
    case Clear => []
  }

  /** Updates keep an important item important. */
  predicate Legal(items: seq<Item>, e: Event) {
    e.Update? && FirstId(items, e.id) < |items| && Important(items[FirstId(items, e.id)]) ==> Important(e.item)
  }

  predicate LegalRun(max: nat, items: seq<Item>, events: seq<Event>)
    decreases |events|
  {
    events == [] || (Legal(items, events[0]) && LegalRun(max, Step(max, items, events[0]), events[1..]))
  }

  function Run(max: nat, items: seq<Item>, events: seq<Event>): seq<Item>
    decreases |events|
  {
    if events == [] then items else Run(max, Step(max, items, events[0]), events[1..])
  }

  // ---- Capacity ----

  /** At most twice the capacity, and above the capacity only important items. */
  ghost predicate Inv(max: nat, items: seq<Item>) {
    |items| <= 2 * max && (|items| > max ==> forall x :: x in items ==> Important(x))
  }

  lemma PurgeKeepsInv(max: nat, items: seq<Item>, now: int)
    requires Inv(max, items)
    ensures Inv(max, Purged(items, now))
  {
    FilterConserves(items, ExpiredAt(now));
    forall x | x in Purged(items, now) ensures x in items {
      FilterMember(items, Not(ExpiredAt(now)), x);
    }
  }

  lemma EnqueueKeepsInv(max: nat, items: seq<Item>, item: Item)
    requires Inv(max, items)
    ensures Inv(max, AfterEnqueue(max, items, item))
  {
    var items' := AfterEnqueue(max, items, item);
    if Admission(max, items, item).Coalesced? {
      var i := FirstMatch(items, item);
      forall x | x in items' && |items| > max ensures Important(x) {
        assert items[i] in items;
      }
    }
  }

  lemma StepKeepsInv(max: nat, items: seq<Item>, e: Event)
    requires Inv(max, items) && Legal(items, e)
    ensures Inv(max, Step(max, items, e))
  {
    match e
    case Enqueue(item, now) =>
      PurgeKeepsInv(max, items, now);
      EnqueueKeepsInv(max, Purged(items, now), item);
    case Purge(now) => PurgeKeepsInv(max, items, now);
    case Update(id, _) =>
      var i := FirstId(items, id);
      if i < |items| {
        assert items[i] in items;
      }
    case MarkRead(id) =>
      var i := FirstId(items, id);
      if i < |items| {
        assert items[i] in items;
      }
    case Clear =>
  }

  /** Over every run the queue stays within its two thresholds. */
  lemma {:induction false} RunKeepsInv(max: nat, items: seq<Item>, events: seq<Event>)
    requires Inv(max, items) && LegalRun(max, items, events)
    ensures Inv(max, Run(max, items, events))
    decreases |events|
  {
    if events != [] {
      StepKeepsInv(max, items, events[0]);
      RunKeepsInv(max, Step(max, items, events[0]), events[1..]);
    }
  }

  /** After every run from empty: at most twice the capacity, and above the capacity only high and critical items. */
  lemma EveryRunFromEmpty(max: nat, events: seq<Event>)
    requires LegalRun(max, [], events)
    ensures var items := Run(max, [], events);
      && |items| <= max + max
      && (max < |items| ==> forall k :: 0 <= k < |items| ==> items[k].priority == High || items[k].priority == Critical)
  {
    RunKeepsInv(max, [], events);
    assert forall k :: 0 <= k < |Run(max, [], events)| ==> Run(max, [], events)[k] in Run(max, [], events);
  }

  // ---- No silent loss ----

  predicate HasImportant(items: seq<Item>, id: string) {
    exists x :: x in items && x.id == id && Important(x)
  }

  /** The event clears the queue, or purges an expired important item with this id. */
  predicate Excuses(items: seq<Item>, e: Event, id: string) {
    || e.Clear?
    || ((e.Enqueue? || e.Purge?) && exists x :: x in items && x.id == id && Important(x) && Expired(x, e.now))
  }

  predicate SomeExcuse(max: nat, items: seq<Item>, events: seq<Event>, id: string)
    decreases |events|
  {
    events != [] && (Excuses(items, events[0], id) || SomeExcuse(max, Step(max, items, events[0]), events[1..], id))
  }

  /** Putting an item of the same id, important if the old one was, in an item's place loses nothing. */
  lemma ReplaceKeepsImportant(items: seq<Item>, i: nat, y: Item, id: string)
    requires HasImportant(items, id) && i < |items|
    requires y.id == items[i].id && (Important(items[i]) ==> Important(y))
    ensures HasImportant(items[i := y], id)
  {
    var x :| x in items && x.id == id && Important(x);
    var k :| 0 <= k < |items| && items[k] == x;
    assert items[i := y][k] in items[i := y];
  }

  lemma EnqueueKeepsImportant(max: nat, items: seq<Item>, item: Item, id: string)
    requires HasImportant(items, id)
    ensures HasImportant(AfterEnqueue(max, items, item), id)
  {
    var x :| x in items && x.id == id && Important(x);
    match Admission(max, items, item)
    case Rejected =>
    case Coalesced =>
      var i := FirstMatch(items, item);
      ReplaceKeepsImportant(items, i, item.(id := items[i].id), id);
    case Enqueued =>
      var u := FirstUnimportant(items);
      if |items| >= max && u < |items| {
        assert x in Without(items, u);
      }
      assert x in AfterEnqueue(max, items, item);
  }

  lemma StepKeepsImportant(max: nat, items: seq<Item>, e: Event, id: string)
    requires HasImportant(items, id) && Legal(items, e) && !Excuses(items, e, id)
    ensures HasImportant(Step(max, items, e), id)
  {
    var x :| x in items && x.id == id && Important(x);
    match e
    case Enqueue(item, now) =>
      FilterMember(items, Not(ExpiredAt(now)), x);
      EnqueueKeepsImportant(max, Purged(items, now), item, id);
    case Purge(now) => FilterMember(items, Not(ExpiredAt(now)), x);
    case Update(target, item) =>
      var i := FirstId(items, target);
      if i < |items| {
        ReplaceKeepsImportant(items, i, item.(id := target), id);
      }
    case MarkRead(target) =>
      var i := FirstId(items, target);
      if i < |items| {
        ReplaceKeepsImportant(items, i, items[i].(isRead := true), id);
      }
    case Clear =>
  }

  /** A critical or high notification is still there after every run, unless it expired or the queue was cleared on the way. */
  lemma {:induction false} NoSilentLoss(max: nat, items: seq<Item>, events: seq<Event>, id: string)
    requires HasImportant(items, id) && LegalRun(max, items, events)
    ensures HasImportant(Run(max, items, events), id) || SomeExcuse(max, items, events, id)
    decreases |events|
  {
    if events != [] && !Excuses(items, events[0], id) {
      StepKeepsImportant(max, items, events[0], id);
      NoSilentLoss(max, Step(max, items, events[0]), events[1..], id);
    }
  }

  /** Priorities in order, spelled out: the first is at least the second. */
  predicate AtLeast(p: Priority, q: Priority) {
    match p
    case Critical => true
    case High => q != Critical
    case Normal => q == Normal || q == Low
    case Low => q == Low
  }

  /** The first unread item under the same key. */
  ghost predicate FirstUnder(items: seq<Item>, key: string, i: int) {
    && 0 <= i < |items| && items[i].coalesceKey == key && !items[i].isRead
    && forall j :: 0 <= j < i ==> items[j].coalesceKey != key || items[j].isRead
  }

  /** An arrival coalesces exactly when its key is not blank and the first unread item under it is of no higher priority. */
  lemma CoalescesMeaning(max: nat, items: seq<Item>, item: Item)
    ensures Admission(max, items, item).Coalesced? <==>
      && (exists c :: c in item.coalesceKey && !IsSpace(c))
      && exists i :: FirstUnder(items, item.coalesceKey, i) && AtLeast(item.priority, items[i].priority)
  {
    var f := FirstMatch(items, item);
    if f < |items| {
      assert FirstUnder(items, item.coalesceKey, f);
    }
    if exists i :: FirstUnder(items, item.coalesceKey, i) {
      var i :| FirstUnder(items, item.coalesceKey, i);
      assert Matches(items[i], item);
      assert i == f;
    }
  }

  /** An arrival that does not coalesce is refused exactly when the queue is full and it is not important, or full of important items up to twice its capacity. */
  lemma RefusalMeaning(max: nat, items: seq<Item>, item: Item)
    requires !Admission(max, items, item).Coalesced?
    ensures Admission(max, items, item).Rejected? <==>
      && max <= |items|
      && (item.priority == Low || item.priority == Normal
          || (2 * max <= |items| && forall k :: 0 <= k < |items| ==> items[k].priority == High || items[k].priority == Critical))
  {
    var u := FirstUnimportant(items);
    if u < |items| {
      assert items[u].priority == Low || items[u].priority == Normal;
    } else {
      assert forall k :: 0 <= k < |items| ==> Important(items[k]);
    }
  }

  /** An accepted arrival goes to the back; in a full queue the first low or normal item makes way for it, if there is one. */
  lemma EnqueuedMeaning(max: nat, items: seq<Item>, item: Item, k: nat)
    requires Admission(max, items, item).Enqueued?
    ensures |items| < max ==> AfterEnqueue(max, items, item) == items + [item]
    ensures max <= |items| && k < |items| && !AtLeast(items[k].priority, High) && (forall j :: 0 <= j < k ==> AtLeast(items[j].priority, High)) ==>
      AfterEnqueue(max, items, item) == items[..k] + items[k + 1..] + [item]
    ensures (forall j :: 0 <= j < |items| ==> AtLeast(items[j].priority, High)) ==> AfterEnqueue(max, items, item) == items + [item]
  {
    assert forall x: Item :: Important(x) <==> AtLeast(x.priority, High);
    if max <= |items| && k < |items| && !AtLeast(items[k].priority, High) && forall j :: 0 <= j < k ==> AtLeast(items[j].priority, High) {
      assert FirstUnimportant(items) == k;
    }
  }

  /** What is purged has an expiry time that is now or past. */
  lemma PurgedMeaning(items: seq<Item>, now: int, x: Item)
    ensures x in Purged(items, now) <==> x in items && (x.expiresAt.None? || now < x.expiresAt.value)
  {
    FilterMember(items, Not(ExpiredAt(now)), x);
  }

  /** Coalescing keeps the number of items and every id, and lowers no priority. */
  lemma CoalescingKeepsIdentity(max: nat, items: seq<Item>, item: Item)
    requires Admission(max, items, item).Coalesced?
    ensures var items' := AfterEnqueue(max, items, item);
      && |items'| == |items|
      && (forall k :: 0 <= k < |items| ==> items'[k].id == items[k].id && AtLeast(items'[k].priority, items[k].priority))
  {
  }

  // ---- The hypothesis on updates is exact ----

  /** The event clears the queue, or purges an expired item with this id. */
  predicate Lapses(items: seq<Item>, e: Event, id: string) {
    || e.Clear?
    || ((e.Enqueue? || e.Purge?) && exists x :: x in items && x.id == id && Expired(x, e.now))
  }

  predicate SomeLapse(max: nat, items: seq<Item>, events: seq<Event>, id: string)
    decreases |events|
  {
    events != [] && (Lapses(items, events[0], id) || SomeLapse(max, Step(max, items, events[0]), events[1..], id))
  }

  /** As long as nothing with this id expires and the queue is not cleared, an item with the id stays. */
  ghost predicate Kept(max: nat, items: seq<Item>, id: string) {
    forall events :: LegalRun(max, items, events) && !SomeLapse(max, items, events, id) ==>
      exists x :: x in Run(max, items, events) && x.id == id
  }

  lemma {:induction false} ExcusesLapse(max: nat, items: seq<Item>, events: seq<Event>, id: string)
    requires SomeExcuse(max, items, events, id)
    ensures SomeLapse(max, items, events, id)
    decreases |events|
  {
    if !Excuses(items, events[0], id) {
      ExcusesLapse(max, Step(max, items, events[0]), events[1..], id);
    }
  }

  lemma ImportantIsKept(max: nat, items: seq<Item>, id: string)
    requires HasImportant(items, id)
    ensures Kept(max, items, id)
  {
    forall events | LegalRun(max, items, events) && !SomeLapse(max, items, events, id)
      ensures exists x :: x in Run(max, items, events) && x.id == id
    {
      NoSilentLoss(max, items, events, id);
      if SomeExcuse(max, items, events, id) {
        ExcusesLapse(max, items, events, id);
      }
    }
  }

  function Unimportant(): Item -> bool {
    (x: Item) => !Important(x)
  }

  /** An important arrival that neither coalesces, nor expires, nor has the given id. */
  function Rival(id: string): Item {
    Item(id + "'", Critical, "", false, None, "")
  }

  lemma NothingToPurge(items: seq<Item>, now: int)
    requires forall x :: x in items ==> !Expired(x, now)
    ensures Purged(items, now) == items
  {
    if items != [] {
      assert items == items[..|items| - 1] + [Last(items)];
      NothingToPurge(items[..|items| - 1], now);
    }
  }

  /** One rival fills the queue up, or takes the place of an unimportant item. */
  lemma RivalArrives(max: nat, items: seq<Item>, id: string, now: int)
    requires forall x :: x in items ==> !Expired(x, now)
    requires FirstUnimportant(items) < |items|
    ensures var s', u := Step(max, items, Enqueue(Rival(id), now)), Unimportant();
      && (forall x :: x in s' ==> x in items || x == Rival(id))
      && if |items| < max then |s'| == |items| + 1 && |Filter(s', u)| == |Filter(items, u)|
         else |s'| == |items| && |Filter(s', u)| == |Filter(items, u)| - 1
  {
    NothingToPurge(items, now);
    var u, i, r := Unimportant(), FirstUnimportant(items), Rival(id);
    var kept := if |items| >= max then Without(items, i) else items;
    assert !HasKey(r);
    assert Step(max, items, Enqueue(r, now)) == kept + [r];
    assert (kept + [r])[..|kept|] == kept;
    FilterWithout(items, i, u);
    forall x | x in kept ensures x in items {
      var k :| 0 <= k < |kept| && kept[k] == x;
      assert x == items[if |items| < max || k < i then k else k + 1];
    }
  }

  /** Enough rivals crowd out every unimportant item. */
  lemma {:induction false} CrowdOut(max: nat, items: seq<Item>, id: string, now: int) returns (events: seq<Event>)
    requires forall x :: x in items ==> !Expired(x, now)
    requires forall x :: x in items && x.id == id ==> !Important(x)
    ensures LegalRun(max, items, events) && !SomeLapse(max, items, events, id)
    ensures forall x :: x in Run(max, items, events) ==> x.id != id
    decreases (if |items| < max then max - |items| else 0) + |Filter(items, Unimportant())|
  {
    if FirstUnimportant(items) == |items| {
      events := [];
    } else {
      var e := Enqueue(Rival(id), now);
      RivalArrives(max, items, id, now);
      assert Rival(id).id != id by {
        assert |Rival(id).id| == |id| + 1;
      }
      var rest := CrowdOut(max, Step(max, items, e), id, now);
      events := [e] + rest;
      assert events[1..] == rest;
    }
  }

  /** Whatever is unimportant under an id can be crowded out without expiring. */
  lemma UnimportantIsNotKept(max: nat, items: seq<Item>, id: string, now: int)
    requires forall x :: x in items && x.id == id ==> !Important(x) && !Expired(x, now)
    ensures !Kept(max, items, id)
  {
    var purged := Purged(items, now);
    forall x | x in purged ensures x in items && !Expired(x, now) {
      FilterMember(items, Not(ExpiredAt(now)), x);
    }
    var rest := CrowdOut(max, purged, id, now);
    var events := [Purge(now)] + rest;
    assert events[1..] == rest;
    assert LegalRun(max, items, events) && !SomeLapse(max, items, events, id);
  }

  /**
   * The update of an important item keeps the guarantee if and only if it keeps the item important:
   * in every queue, an update that lowers it leaves a run of arrivals that evicts it unexpired.
   */
  lemma LoweringUpdateCanLose(max: nat, items: seq<Item>, id: string, item: Item, now: int)
    requires var i := FirstId(items, id);
      && i < |items| && Important(items[i])
      && (forall k :: 0 <= k < |items| && k != i && items[k].id == id ==> !Important(items[k]) && !Expired(items[k], now))
    requires !Expired(item, now)
    ensures Kept(max, Step(max, items, Update(id, item)), id) <==> Legal(items, Update(id, item))
  {
    var i := FirstId(items, id);
    var s' := Step(max, items, Update(id, item));
    assert s'[i] in s' && s'[i].id == id;
    if Important(item) {
      ImportantIsKept(max, s', id);
    } else {
      forall x | x in s' && x.id == id ensures !Important(x) && !Expired(x, now) {
        var k :| 0 <= k < |s'| && s'[k] == x;
      }
      UnimportantIsNotKept(max, s', id, now);
    }
  }

  // ---- The queue as the program keeps it ----

  /** Walks from the back and takes every expired item out. */
  method SpliceExpired(items0: seq<Item>, now: int) returns (purged: nat, items: seq<Item>)
    ensures items == Purged(items0, now) && purged == |items0| - |items|
  {
    purged, items := 0, items0;
    var i := |items0|;
    assert items0[..|items0|] == items0 && items0[|items0|..] == [];
    while i > 0
      invariant 0 <= i <= |items0|
      invariant items == items0[..i] + Purged(items0[i..], now)
      invariant purged == |items0| - |items|
    {
      i := i - 1;
      ghost var x, rest := items0[i], items0[i + 1..];
      assert items0[..i + 1] == items0[..i] + [x];
      assert items0[i..] == [x] + rest;
      PurgeFirst(x, rest, now);
      if Expired(items[i], now) {
        items := Without(items, i);
        purged := purged + 1;
      }
    }
    assert items0[0..] == items0;
  }

  lemma PurgeFirst(x: Item, rest: seq<Item>, now: int)
    ensures Purged([x] + rest, now) == (if Expired(x, now) then [] else [x]) + Purged(rest, now)
  {
    FilterConcat([x], rest, Not(ExpiredAt(now)));
    assert [x][..0] == [];
  }

  class NotificationQueue {
    const maxCapacity: nat
    const hardCapacity: nat
    var items: seq<Item>
    var totalDelivered: nat
    var expiredCount: nat
    var coalescedCount: nat
    var isQueueFull: bool

    constructor (maxCapacity: nat)
      ensures this.maxCapacity == maxCapacity && Valid() && items == []
    {
      this.maxCapacity := maxCapacity;
      hardCapacity := maxCapacity * 2;
      items, totalDelivered, expiredCount, coalescedCount, isQueueFull := [], 0, 0, 0, false;
    }

    ghost predicate Valid()
      reads this
    {
      hardCapacity == 2 * maxCapacity
    }

    /** Splices expired items out from the back; the survivors keep their order. */
    method PurgeExpired(now: int) returns (purged: nat)
      requires Valid()
      modifies this`items, this`expiredCount, this`isQueueFull
      ensures Valid() && items == Step(maxCapacity, old(items), Purge(now))
      ensures purged == |old(items)| - |items| && expiredCount == old(expiredCount) + purged
      ensures isQueueFull == (old(isQueueFull) && |items| >= hardCapacity)
    {
      purged, items := SpliceExpired(items, now);
      expiredCount := expiredCount + purged;
      if |items| < hardCapacity {
        isQueueFull := false;
      }
    }

    method Enqueue(item: Item, now: int) returns (verdict: Verdict)
      requires Valid()
      modifies this
      ensures Valid() && items == Step(maxCapacity, old(items), Event.Enqueue(item, now))
      ensures verdict == Admission(maxCapacity, Purged(old(items), now), item)
    {
      var _ := PurgeExpired(now);
      if HasKey(item) {
        var i := FirstMatch(items, item);
        if i < |items| && Weight(item.priority) >= Weight(items[i].priority) {
          items := items[i := item.(id := items[i].id)];
          coalescedCount := coalescedCount + 1;
          return Coalesced;
        }
      }
      if |items| >= maxCapacity {
        if Important(item) {
          var u := FirstUnimportant(items);
          if u < |items| {
            items := Without(items, u);
          } else if |items| >= hardCapacity {
            isQueueFull := true;
            return Rejected;
          }
        } else {
          return Rejected;
        }
      }
      items := items + [item];
      totalDelivered := totalDelivered + 1;
      return Enqueued;
    }

    /** The first item with the id counts as read. */
    method MarkRead(id: string) returns (found: bool)
      requires Valid()
      modifies this`items
      ensures Valid() && items == Step(maxCapacity, old(items), Event.MarkRead(id))
      ensures found <==> exists x :: x in old(items) && x.id == id
    {
      var i := FirstId(items, id);
      found := i < |items|;
      if found {
        assert items[i] in items;
        items := items[i := items[i].(isRead := true)];
      }
    }

    method ClearQueue()
      requires Valid()
      modifies this`items, this`isQueueFull
      ensures Valid() && items == Step(maxCapacity, old(items), Clear) && !isQueueFull
    {
      items := [];
      isQueueFull := false;
    }

    /** An update replaces the first item with the id, and keeps the id. */
    method UpdateItem(id: string, updated: Item) returns (found: bool)
      requires Valid()
      modifies this`items
      ensures Valid() && items == Step(maxCapacity, old(items), Update(id, updated))
      ensures found <==> exists x :: x in old(items) && x.id == id
    {
      var i := FirstId(items, id);
      found := i < |items|;
      if found {
        assert items[i] in items;
        items := items[i := updated.(id := id)];
      }
    }
  }
}
