// MemoryCacheStore: a bounded cache with four secondary indexes, expiry and LRU eviction.
module MemoryCache {
  import opened Collections

  /** The empty string in leaseId or policyHash stands for none. Times are millisecond time stamps. */
  datatype Entry = Entry(
    key: string,
    taskId: string,
    workspaceId: string,
    leaseId: string,
    policyHash: string,
    expiresAt: int,
    accessCount: nat,
    sizeBytes: nat,
    lastAccessedAt: int)

  datatype Config = Config(maxMemoryBytes: nat, maxEntries: nat, maxEntrySizeBytes: nat)

  datatype Field = Task | Workspace | Lease | Policy

  function IdOf(e: Entry, f: Field): string {
    match f
    case Task => e.taskId
    case Workspace => e.workspaceId
    case Lease => e.leaseId
    case Policy => e.policyHash
  }

  /** The entry is filed under the id: tasks and workspaces always, leases and policies when present. */
  predicate Carries(e: Entry, f: Field, id: string) {
    IdOf(e, f) == id && (id != "" || f == Task || f == Workspace)
  }

  // ---- Contents: an insertion-ordered list of entries under distinct keys ----

  ghost predicate DistinctKeys(entries: seq<Entry>) {
    forall i, j :: 0 <= i < j < |entries| ==> entries[i].key != entries[j].key
  }

  function Total(entries: seq<Entry>): nat {
    if entries == [] then 0 else Total(entries[..|entries| - 1]) + Last(entries).sizeBytes
  }

  function OtherKey(key: string): Entry -> bool {
    (e: Entry) => e.key != key
  }

  function Drop(entries: seq<Entry>, key: string): seq<Entry> {
    Filter(entries, OtherKey(key))
  }

  predicate HasKey(entries: seq<Entry>, key: string) {
    exists e :: e in entries && e.key == key
  }

  function Find(entries: seq<Entry>, key: string): (i: nat)
    ensures i <= |entries|
    ensures i < |entries| ==> entries[i].key == key
    ensures forall j :: 0 <= j < i ==> entries[j].key != key
  {
    FirstIndex(entries, (e: Entry) => e.key == key)
  }

  /** With distinct keys, dropping a key takes out the one entry at its index. */
  lemma {:induction false} DropOne(entries: seq<Entry>, i: nat)
    requires DistinctKeys(entries) && i < |entries|
    ensures Drop(entries, entries[i].key) == Without(entries, i)
  {
    var init, last := entries[..|entries| - 1], Last(entries);
    if i == |entries| - 1 {
      KeepsAll(init, OtherKey(last.key));
    } else {
      DropOne(init, i);
      assert last.key != entries[i].key;
      assert Without(entries, i) == Without(init, i) + [last];
    }
  }

  lemma KeepsAll(entries: seq<Entry>, p: Entry -> bool)
    requires forall e :: e in entries ==> p(e)
    ensures Filter(entries, p) == entries
  {
    if entries != [] {
      assert entries == entries[..|entries| - 1] + [Last(entries)];
      KeepsAll(entries[..|entries| - 1], p);
    }
  }

  lemma FilterKeepsDistinct(entries: seq<Entry>, p: Entry -> bool)
    requires DistinctKeys(entries)
    ensures DistinctKeys(Filter(entries, p))
  {
    var at := FilterIsStable(entries, p);
  }

  lemma TotalConcat(a: seq<Entry>, b: seq<Entry>)
    ensures Total(a + b) == Total(a) + Total(b)
  {
    if b == [] {
      assert a + b == a;
    } else {
      assert (a + b)[..|a + b| - 1] == a + b[..|b| - 1];
      TotalConcat(a, b[..|b| - 1]);
    }
  }

  lemma {:induction false} TotalWithout(entries: seq<Entry>, i: nat)
    requires i < |entries|
    ensures Total(entries) == Total(Without(entries, i)) + entries[i].sizeBytes
  {
    var init, rest := entries[..|entries| - 1], Without(entries, i);
    if i == |entries| - 1 {
      assert rest == init;
    } else {
      TotalWithout(init, i);
      assert rest[..|rest| - 1] == Without(init, i);
    }
  }

  lemma TotalShrinks(entries: seq<Entry>, p: Entry -> bool)
    ensures Total(Filter(entries, p)) <= Total(entries) && |Filter(entries, p)| <= |entries|
  {
    if entries != [] {
      var init, f := entries[..|entries| - 1], Filter(entries, p);
      TotalShrinks(init, p);
      if p(Last(entries)) {
        assert f[..|f| - 1] == Filter(init, p);
      } else {
        assert f == Filter(init, p);
      }
    }
  }

  // ---- Indexes ----

  type Index = map<string, set<string>>

  function At(index: Index, id: string): set<string> {
    if id in index then index[id] else {}
  }

  /** What a full scan finds under an id. */
  function KeysWith(entries: seq<Entry>, f: Field, id: string): set<string> {
    set e | e in entries && Carries(e, f, id) :: e.key
  }

  /** The index holds exactly what a scan would find, and no empty sets. */
  ghost predicate Agrees(index: Index, entries: seq<Entry>, f: Field) {
    && (forall id :: At(index, id) == KeysWith(entries, f, id))
    && (forall id :: id in index ==> index[id] != {})
  }

  function AddIndex(index: Index, f: Field, e: Entry): Index {
    if Carries(e, f, IdOf(e, f)) then index[IdOf(e, f) := At(index, IdOf(e, f)) + {e.key}] else index
  }

  function RemoveIndex(index: Index, f: Field, e: Entry): Index {
    var id := IdOf(e, f);
    if !Carries(e, f, id) || id !in index then index
    else if index[id] - {e.key} == {} then index - {id}
    else index[id := index[id] - {e.key}]
  }

  lemma AddKeepsAgreement(index: Index, entries: seq<Entry>, f: Field, e: Entry)
    requires Agrees(index, entries, f)
    ensures Agrees(AddIndex(index, f, e), entries + [e], f)
  {
    var index' := AddIndex(index, f, e);
    forall id ensures At(index', id) == KeysWith(entries + [e], f, id) {
      assert KeysWith(entries + [e], f, id) == KeysWith(entries, f, id) + (if Carries(e, f, id) then {e.key} else {});
    }
  }

  lemma RemoveKeepsAgreement(index: Index, entries: seq<Entry>, f: Field, i: nat)
    requires Agrees(index, entries, f) && DistinctKeys(entries) && i < |entries|
    ensures Agrees(RemoveIndex(index, f, entries[i]), Without(entries, i), f)
  {
    var e, index', rest := entries[i], RemoveIndex(index, f, entries[i]), Without(entries, i);
    forall id ensures At(index', id) == KeysWith(rest, f, id) {
      ScanWithout(entries, i, f, id);
    }
  }

  lemma ScanWithout(entries: seq<Entry>, i: nat, f: Field, id: string)
    requires DistinctKeys(entries) && i < |entries|
    ensures KeysWith(Without(entries, i), f, id)
         == if Carries(entries[i], f, id) then KeysWith(entries, f, id) - {entries[i].key} else KeysWith(entries, f, id)
  {
    MembersWithout(entries, i);
  }

  lemma MembersWithout(entries: seq<Entry>, i: nat)
    requires DistinctKeys(entries) && i < |entries|
    ensures forall x :: x in Without(entries, i) ==> x in entries && x.key != entries[i].key
    ensures forall x :: x in entries && x != entries[i] ==> x in Without(entries, i)
  {
    var before, behind := entries[..i], entries[i + 1..];
    forall x | x in before ensures x in entries && x.key != entries[i].key {
      var k :| 0 <= k < i && entries[k] == x;
    }
    forall x | x in behind ensures x in entries && x.key != entries[i].key {
      var k :| i < k < |entries| && entries[k] == x;
    }
    forall x | x in entries && x != entries[i] ensures x in before || x in behind {
      var k :| 0 <= k < |entries| && entries[k] == x;
    }
  }

  // ---- LRU order ----

  /** a is evicted no later than b: older access first, then fewer accesses when they count. */
  predicate NoLater(a: Entry, b: Entry, byCount: bool) {
    a.lastAccessedAt < b.lastAccessedAt || (a.lastAccessedAt == b.lastAccessedAt && (!byCount || a.accessCount <= b.accessCount))
  }

  predicate Sorted(entries: seq<Entry>, byCount: bool) {
    forall i, j :: 0 <= i < j < |entries| ==> NoLater(entries[i], entries[j], byCount)
  }

  /** Inserts behind everything that is not later: the sort is stable. */
  function InsertLru(sorted: seq<Entry>, e: Entry, byCount: bool): seq<Entry> {
    if sorted == [] || NoLater(Last(sorted), e, byCount) then sorted + [e]
    else InsertLru(sorted[..|sorted| - 1], e, byCount) + [Last(sorted)]
  }

  function LruOrder(entries: seq<Entry>, byCount: bool): seq<Entry> {
    if entries == [] then [] else InsertLru(LruOrder(entries[..|entries| - 1], byCount), Last(entries), byCount)
  }

  lemma {:induction false} InsertIsPermutation(sorted: seq<Entry>, e: Entry, byCount: bool)
    ensures multiset(InsertLru(sorted, e, byCount)) == multiset(sorted) + multiset{e}
  {
    if sorted != [] && !NoLater(Last(sorted), e, byCount) {
      var init := sorted[..|sorted| - 1];
      InsertIsPermutation(init, e, byCount);
      MultisetSnoc(InsertLru(init, e, byCount), Last(sorted));
      MultisetSnoc(init, Last(sorted));
      assert sorted == init + [Last(sorted)];
    } else {
      MultisetSnoc(sorted, e);
    }
  }

  lemma {:induction false} InsertIsSorted(sorted: seq<Entry>, e: Entry, byCount: bool)
    requires Sorted(sorted, byCount)
    ensures Sorted(InsertLru(sorted, e, byCount), byCount)
  {
    if sorted != [] && !NoLater(Last(sorted), e, byCount) {
      var init, last := sorted[..|sorted| - 1], Last(sorted);
      InsertIsSorted(init, e, byCount);
      InsertIsPermutation(init, e, byCount);
      var r := InsertLru(init, e, byCount);
      forall i | 0 <= i < |r| ensures NoLater(r[i], last, byCount) {
        assert r[i] in multiset(r);
        if r[i] != e {
          var k :| 0 <= k < |init| && init[k] == r[i];
          assert sorted[k] == r[i];
        }
      }
      SortedSnoc(r, last, byCount);
    }
  }

  lemma SortedSnoc(r: seq<Entry>, x: Entry, byCount: bool)
    requires Sorted(r, byCount) && forall i :: 0 <= i < |r| ==> NoLater(r[i], x, byCount)
    ensures Sorted(r + [x], byCount)
  {
  }

  /** The LRU order is sorted. */
  lemma {:induction false} LruOrderIsSorted(entries: seq<Entry>, byCount: bool)
    ensures Sorted(LruOrder(entries, byCount), byCount)
  {
    if entries != [] {
      var init := entries[..|entries| - 1];
      LruOrderIsSorted(init, byCount);
      InsertIsSorted(LruOrder(init, byCount), Last(entries), byCount);
    }
  }

  /** The LRU order is a permutation of the entries. */
  lemma {:induction false} LruOrderIsPermutation(entries: seq<Entry>, byCount: bool)
    ensures multiset(LruOrder(entries, byCount)) == multiset(entries)
  {
    if entries != [] {
      var init, last := entries[..|entries| - 1], Last(entries);
      LruOrderIsPermutation(init, byCount);
      InsertIsPermutation(LruOrder(init, byCount), last, byCount);
      assert entries == init + [last];
      MultisetSnoc(init, last);
    }
  }

  // ---- Making room ----

  predicate Fits(cfg: Config, entries: seq<Entry>, incoming: nat) {
    |entries| < cfg.maxEntries && Total(entries) + incoming <= cfg.maxMemoryBytes
  }

  /** The entries left when the first k of the order are gone. */
  function Evict(entries: seq<Entry>, order: seq<Entry>, k: nat): seq<Entry>
    requires k <= |order|
  {
    if k == 0 then entries else Drop(Evict(entries, order, k - 1), order[k - 1].key)
  }

  /** The least number of evictions, from k on, that makes room; all of them if none does. */
  function Evictions(cfg: Config, entries: seq<Entry>, order: seq<Entry>, incoming: nat, k: nat): (r: nat)
    requires k <= |order|
    ensures k <= r <= |order|
    ensures r < |order| ==> Fits(cfg, Evict(entries, order, r), incoming)
    ensures forall j :: k <= j < r ==> !Fits(cfg, Evict(entries, order, j), incoming)
    decreases |order| - k
  {
    if k == |order| || Fits(cfg, Evict(entries, order, k), incoming) then k
    else Evictions(cfg, entries, order, incoming, k + 1)
  }

  function MakeRoom(cfg: Config, entries: seq<Entry>, incoming: nat): seq<Entry> {
    var order := LruOrder(entries, true);
    Evict(entries, order, Evictions(cfg, entries, order, incoming, 0))
  }

  lemma {:induction false} EvictMembers(entries: seq<Entry>, order: seq<Entry>, k: nat, e: Entry)
    requires k <= |order|
    ensures e in Evict(entries, order, k) <==> e in entries && forall j :: 0 <= j < k ==> e.key != order[j].key
  {
    if k > 0 {
      FilterMember(Evict(entries, order, k - 1), OtherKey(order[k - 1].key), e);
      EvictMembers(entries, order, k - 1, e);
    }
  }

  lemma {:induction false} EvictShrinks(entries: seq<Entry>, order: seq<Entry>, k: nat)
    requires k <= |order| && DistinctKeys(entries)
    ensures DistinctKeys(Evict(entries, order, k))
    ensures |Evict(entries, order, k)| <= |entries| && Total(Evict(entries, order, k)) <= Total(entries)
  {
    if k > 0 {
      var before, key := Evict(entries, order, k - 1), order[k - 1].key;
      EvictShrinks(entries, order, k - 1);
      FilterKeepsDistinct(before, OtherKey(key));
      TotalShrinks(before, OtherKey(key));
    }
  }

  /** Evicting the whole order empties the cache. */
  lemma EvictAll(entries: seq<Entry>)
    requires DistinctKeys(entries)
    ensures var order := LruOrder(entries, true); Evict(entries, order, |order|) == []
  {
    var order := LruOrder(entries, true);
    LruOrderIsPermutation(entries, true);
    SameElements(entries, order);
    var left := Evict(entries, order, |order|);
    assert left == [] || left[0] in left;
    forall e ensures e !in left {
      EvictMembers(entries, order, |order|, e);
    }
  }

  lemma SameElements(a: seq<Entry>, b: seq<Entry>)
    requires multiset(a) == multiset(b)
    ensures forall e :: e in a <==> e in b
  {
    forall e ensures e in a <==> e in b {
      assert e in a <==> e in multiset(a);
    }
  }

  /**
   * LRU minimality: what is evicted for room is the shortest prefix of the entries in
   * (last access, access count) order whose removal makes both limits fit. When no prefix does,
   * the cache is empty afterwards.
   */
  lemma RoomIsMinimal(cfg: Config, entries: seq<Entry>, incoming: nat)
    requires DistinctKeys(entries)
    ensures var order := LruOrder(entries, true);
      var k := Evictions(cfg, entries, order, incoming, 0);
      && Sorted(order, true) && multiset(order) == multiset(entries)
      && MakeRoom(cfg, entries, incoming) == Evict(entries, order, k)
      && (forall j :: 0 <= j < k ==> var left := Evict(entries, order, j);
            cfg.maxEntries <= |left| || cfg.maxMemoryBytes < Total(left) + incoming)
      && var left := MakeRoom(cfg, entries, incoming);
        left == [] || (|left| < cfg.maxEntries && Total(left) + incoming <= cfg.maxMemoryBytes)
  {
    LruOrderIsSorted(entries, true);
    LruOrderIsPermutation(entries, true);
    EvictAll(entries);
  }

  lemma {:induction false} OrderKeysDistinct(entries: seq<Entry>, byCount: bool)
    requires DistinctKeys(entries)
    ensures DistinctKeys(LruOrder(entries, byCount))
  {
    if entries != [] {
      var init, last := entries[..|entries| - 1], Last(entries);
      OrderKeysDistinct(init, byCount);
      LruOrderIsPermutation(init, byCount);
      SameElements(init, LruOrder(init, byCount));
      forall e | e in LruOrder(init, byCount) ensures e.key != last.key {
        var k :| 0 <= k < |init| && init[k] == e;
        assert entries[k].key != entries[|init|].key;
      }
      InsertKeysDistinct(LruOrder(init, byCount), last, byCount);
    }
  }

  lemma {:induction false} InsertKeysDistinct(sorted: seq<Entry>, e: Entry, byCount: bool)
    requires DistinctKeys(sorted) && forall x :: x in sorted ==> x.key != e.key
    ensures DistinctKeys(InsertLru(sorted, e, byCount))
  {
    if sorted != [] && !NoLater(Last(sorted), e, byCount) {
      var init, last := sorted[..|sorted| - 1], Last(sorted);
      InsertKeysDistinct(init, e, byCount);
      InsertIsPermutation(init, e, byCount);
      var r := InsertLru(init, e, byCount);
      forall i | 0 <= i < |r| ensures r[i].key != last.key {
        assert r[i] in multiset(r);
        if r[i] != e {
          var k :| 0 <= k < |init| && init[k] == r[i];
          assert sorted[k].key != sorted[|init|].key;
        }
      }
    }
  }

  /**
   * Evicting from the front of the order takes the entries used longest ago: whatever goes was last
   * used before whatever stays, or at the same time and (where counts matter) no more often.
   */
  lemma EvictedAreOldest(entries: seq<Entry>, byCount: bool, k: nat, gone: Entry, kept: Entry)
    requires DistinctKeys(entries) && k <= |LruOrder(entries, byCount)|
    requires gone in entries && gone !in Evict(entries, LruOrder(entries, byCount), k)
    requires kept in Evict(entries, LruOrder(entries, byCount), k)
    ensures gone.lastAccessedAt < kept.lastAccessedAt
      || (gone.lastAccessedAt == kept.lastAccessedAt && (byCount ==> gone.accessCount <= kept.accessCount))
  {
    var order := LruOrder(entries, byCount);
    LruOrderIsSorted(entries, byCount);
    LruOrderIsPermutation(entries, byCount);
    SameElements(entries, order);
    OrderKeysDistinct(entries, byCount);
    EvictMembers(entries, order, k, gone);
    EvictMembers(entries, order, k, kept);
    var j :| 0 <= j < k && gone.key == order[j].key;
    var i :| 0 <= i < |order| && order[i] == gone;
    var m :| 0 <= m < |order| && order[m] == kept;
    assert i == j;
  }

  /** Evicting k of the order leaves all but k entries. */
  lemma {:induction false} EvictCount(entries: seq<Entry>, order: seq<Entry>, k: nat)
    requires DistinctKeys(entries) && DistinctKeys(order) && k <= |order| && forall e :: e in order ==> e in entries
    ensures |Evict(entries, order, k)| == |entries| - k
  {
    if k > 0 {
      var before, e := Evict(entries, order, k - 1), order[k - 1];
      EvictCount(entries, order, k - 1);
      EvictShrinks(entries, order, k - 1);
      EvictMembers(entries, order, k - 1, e);
      DropCounts(before, e);
    }
  }

  lemma DropCounts(entries: seq<Entry>, e: Entry)
    requires DistinctKeys(entries) && e in entries
    ensures |Drop(entries, e.key)| == |entries| - 1
  {
    var i :| 0 <= i < |entries| && entries[i] == e;
    DropOne(entries, i);
  }

  /** Under pressure half of the entries goes, rounded up, and those used longest ago. */
  lemma PressureHalves(entries: seq<Entry>, gone: Entry, kept: Entry)
    requires DistinctKeys(entries)
    ensures var left := Relieve(entries, true);
      && 2 * |left| <= |entries| <= 2 * |left| + 1
      && (gone in entries && gone !in left && kept in left ==> gone.lastAccessedAt <= kept.lastAccessedAt)
  {
    var order := LruOrder(entries, false);
    LruOrderIsPermutation(entries, false);
    SameElements(entries, order);
    OrderKeysDistinct(entries, false);
    assert |order| == |multiset(order)| == |entries|;
    EvictCount(entries, order, HalfUp(|order|));
    if gone in entries && gone !in Relieve(entries, true) && kept in Relieve(entries, true) {
      EvictedAreOldest(entries, false, HalfUp(|order|), gone, kept);
    }
  }

  /** What a put evicts for room was used no later than anything it keeps. */
  lemma RoomTakesTheOldest(cfg: Config, entries: seq<Entry>, incoming: nat, gone: Entry, kept: Entry)
    requires DistinctKeys(entries) && gone in entries && gone !in MakeRoom(cfg, entries, incoming) && kept in MakeRoom(cfg, entries, incoming)
    ensures gone.lastAccessedAt < kept.lastAccessedAt
      || (gone.lastAccessedAt == kept.lastAccessedAt && gone.accessCount <= kept.accessCount)
  {
    EvictedAreOldest(entries, true, Evictions(cfg, entries, LruOrder(entries, true), incoming, 0), gone, kept);
  }

  /** Which entries an id stands for: by task and by workspace always, by lease and by policy unless the id is empty. */
  lemma CarriesMeaning(e: Entry, id: string)
    ensures Carries(e, Task, id) <==> e.taskId == id
    ensures Carries(e, Workspace, id) <==> e.workspaceId == id
    ensures Carries(e, Lease, id) <==> e.leaseId == id != ""
    ensures Carries(e, Policy, id) <==> e.policyHash == id != ""
  {
  }

  // ---- put ----

  function FirstExpired(entries: seq<Entry>, now: int): (i: nat)
    ensures i <= |entries|
    ensures i < |entries| ==> now > entries[i].expiresAt
    ensures forall j :: 0 <= j < i ==> now <= entries[j].expiresAt
  {
    FirstIndex(entries, (e: Entry) => now > e.expiresAt)
  }

  /** The part of the expiry sweep that runs before put goes on: one entry. The rest are later removals. */
  function SweepOne(entries: seq<Entry>, now: int): seq<Entry> {
    var i := FirstExpired(entries, now);
    if i < |entries| then Without(entries, i) else entries
  }

  /** Under heap pressure the less recently used half goes first. */
  function Relieve(entries: seq<Entry>, pressure: bool): seq<Entry> {
    if !pressure then entries
    else
      var order := LruOrder(entries, false);
      Evict(entries, order, HalfUp(|order|))
  }

  function HalfUp(n: nat): (r: nat)
    ensures r <= n
  {
    (n + 1) / 2
  }

  /** The entries put has left when it comes to storing. */
  function Prepared(cfg: Config, entries: seq<Entry>, incoming: nat, now: int, pressure: bool): seq<Entry> {
    MakeRoom(cfg, SweepOne(Relieve(entries, pressure), now), incoming)
  }

  predicate Stores(cfg: Config, entries: seq<Entry>, e: Entry, now: int, pressure: bool) {
    Total(Prepared(cfg, entries, e.sizeBytes, now, pressure)) + e.sizeBytes <= cfg.maxMemoryBytes
  }

  function AfterStore(cfg: Config, entries: seq<Entry>, e: Entry, now: int, pressure: bool): seq<Entry> {
    var left := Prepared(cfg, entries, e.sizeBytes, now, pressure);
    if Stores(cfg, entries, e, now, pressure) then left + [e] else left
  }

  /** A put that succeeds always keeps its own entry, even when no entry is allowed for. */
  function CountLimit(cfg: Config): nat {
    if cfg.maxEntries == 0 then 1 else cfg.maxEntries
  }

  ghost predicate Bounded(cfg: Config, entries: seq<Entry>) {
    DistinctKeys(entries) && |entries| <= CountLimit(cfg) && Total(entries) <= cfg.maxMemoryBytes
  }

  lemma WithoutShrinks(entries: seq<Entry>, i: nat)
    requires DistinctKeys(entries) && i < |entries|
    ensures DistinctKeys(Without(entries, i)) && Total(Without(entries, i)) <= Total(entries)
    ensures forall x :: x in Without(entries, i) ==> x in entries
  {
    TotalWithout(entries, i);
    MembersWithout(entries, i);
    WithoutKeepsDistinct(entries, i);
  }

  lemma WithoutKeepsDistinct(entries: seq<Entry>, i: nat)
    requires DistinctKeys(entries) && i < |entries|
    ensures DistinctKeys(Without(entries, i))
  {
    var rest := Without(entries, i);
    assert forall k :: 0 <= k < i ==> rest[k] == entries[k];
    assert forall k :: i <= k < |rest| ==> rest[k] == entries[k + 1];
  }

  lemma RelieveShrinks(entries: seq<Entry>, pressure: bool)
    requires DistinctKeys(entries)
    ensures DistinctKeys(Relieve(entries, pressure)) && forall e :: e in Relieve(entries, pressure) ==> e in entries
  {
    var order := LruOrder(entries, false);
    EvictShrinks(entries, order, HalfUp(|order|));
    forall e | e in Evict(entries, order, HalfUp(|order|)) ensures e in entries {
      EvictMembers(entries, order, HalfUp(|order|), e);
    }
  }

  lemma SweepShrinks(entries: seq<Entry>, now: int)
    requires DistinctKeys(entries)
    ensures DistinctKeys(SweepOne(entries, now)) && forall e :: e in SweepOne(entries, now) ==> e in entries
  {
    var i := FirstExpired(entries, now);
    if i < |entries| {
      WithoutShrinks(entries, i);
    }
  }

  lemma PreparedFacts(cfg: Config, entries: seq<Entry>, incoming: nat, now: int, pressure: bool)
    requires DistinctKeys(entries)
    ensures var left := Prepared(cfg, entries, incoming, now, pressure);
      && DistinctKeys(left)
      && (forall e :: e in left ==> e in entries)
      && (Fits(cfg, left, incoming) || left == [])
  {
    var relieved := Relieve(entries, pressure);
    RelieveShrinks(entries, pressure);
    SweepShrinks(relieved, now);
    var swept := SweepOne(relieved, now);
    RoomIsMinimal(cfg, swept, incoming);
    var order := LruOrder(swept, true);
    var k := Evictions(cfg, swept, order, incoming, 0);
    EvictShrinks(swept, order, k);
    forall e | e in Evict(swept, order, k) ensures e in entries {
      EvictMembers(swept, order, k, e);
    }
  }

  lemma KeyStaysFree(cfg: Config, entries: seq<Entry>, e: Entry, now: int, pressure: bool)
    requires DistinctKeys(entries) && !HasKey(entries, e.key)
    ensures !HasKey(Prepared(cfg, entries, e.sizeBytes, now, pressure), e.key)
  {
    PreparedFacts(cfg, entries, e.sizeBytes, now, pressure);
  }

  /**
   * Storing fails only when the entry alone exceeds the memory ceiling, and then the cache is
   * empty; otherwise both limits hold afterwards.
   */
  lemma StoreOutcome(cfg: Config, entries: seq<Entry>, e: Entry, now: int, pressure: bool)
    requires DistinctKeys(entries) && !HasKey(entries, e.key)
    ensures var after := AfterStore(cfg, entries, e, now, pressure);
      && (Stores(cfg, entries, e, now, pressure) <==> e.sizeBytes <= cfg.maxMemoryBytes)
      && (!Stores(cfg, entries, e, now, pressure) ==> after == [])
      && (Stores(cfg, entries, e, now, pressure) ==> Last(after) == e)
      && DistinctKeys(after)
      && Bounded(cfg, after)
  {
    var left := Prepared(cfg, entries, e.sizeBytes, now, pressure);
    PreparedFacts(cfg, entries, e.sizeBytes, now, pressure);
    TotalConcat(left, [e]);
    assert [e][..0] == [];
    forall k | 0 <= k < |left| ensures left[k].key != e.key {
      assert left[k] in entries;
    }
  }

  // ---- Runs of non-overlapping calls ----

  datatype Event =
    | Store(entry: Entry, now: int, pressure: bool)  // put, after its size check and removal of the old entry
    | Remove(key: string)                            // remove, the removal inside put, and background sweeps
    | Touch(key: string, now: int)                   // a successful get
    | ClearBy(field: Field, id: string)
    | Pressure                                       // checkMemoryPressure outside put
    | ClearAll

  function Lacks(f: Field, id: string): Entry -> bool {
    (e: Entry) => !Carries(e, f, id)
  }

  function Touched(entries: seq<Entry>, key: string, now: int): seq<Entry> {
    var i := Find(entries, key);
    if i < |entries|
    then entries[i := entries[i].(accessCount := entries[i].accessCount + 1, lastAccessedAt := now)]
    else entries
  }

  function Step(cfg: Config, entries: seq<Entry>, e: Event): seq<Entry> {
    match e
    case Store(entry, now, pressure) => AfterStore(cfg, entries, entry, now, pressure)
    case Remove(key) => Drop(entries, key)
    case Touch(key, now) => Touched(entries, key, now)
    case ClearBy(f, id) => Filter(entries, Lacks(f, id))
    case Pressure => Relieve(entries, true)
    case ClearAll => []
  }

  /** Calls do not overlap: when put comes to storing, its key is free. */
  predicate Legal(entries: seq<Entry>, e: Event) {
    e.Store? ==> !HasKey(entries, e.entry.key)
  }

  predicate LegalRun(cfg: Config, entries: seq<Entry>, events: seq<Event>)
    decreases |events|
  {
    events == [] || (Legal(entries, events[0]) && LegalRun(cfg, Step(cfg, entries, events[0]), events[1..]))
  }

  function Run(cfg: Config, entries: seq<Entry>, events: seq<Event>): seq<Entry>
    decreases |events|
  {
    if events == [] then entries else Run(cfg, Step(cfg, entries, events[0]), events[1..])
  }

  lemma FilterStaysBounded(cfg: Config, entries: seq<Entry>, p: Entry -> bool)
    requires Bounded(cfg, entries)
    ensures Bounded(cfg, Filter(entries, p))
  {
    FilterKeepsDistinct(entries, p);
    TotalShrinks(entries, p);
  }

  /** A hit counts one more use of that entry, at this time, and leaves the others alone. */
  lemma TouchedMeaning(entries: seq<Entry>, k: nat, now: int)
    requires DistinctKeys(entries) && k < |entries|
    ensures var after, e := Touched(entries, entries[k].key, now), entries[k];
      && |after| == |entries|
      && after[k] == Entry(e.key, e.taskId, e.workspaceId, e.leaseId, e.policyHash, e.expiresAt, e.accessCount + 1, e.sizeBytes, now)
      && forall j :: 0 <= j < |entries| && j != k ==> after[j] == entries[j]
  {
    assert Find(entries, entries[k].key) == k;
  }

  lemma TouchStaysBounded(cfg: Config, entries: seq<Entry>, key: string, now: int)
    requires Bounded(cfg, entries)
    ensures Bounded(cfg, Touched(entries, key, now))
  {
    var i, t := Find(entries, key), Touched(entries, key, now);
    if i < |entries| {
      SameTotal(entries, i, t[i]);
    }
  }

  lemma SameTotal(entries: seq<Entry>, i: nat, t: Entry)
    requires i < |entries| && t.sizeBytes == entries[i].sizeBytes
    ensures Total(entries[i := t]) == Total(entries)
  {
    TotalWithout(entries, i);
    TotalWithout(entries[i := t], i);
    assert Without(entries[i := t], i) == Without(entries, i);
  }

  lemma StepStaysBounded(cfg: Config, entries: seq<Entry>, e: Event)
    requires Bounded(cfg, entries) && Legal(entries, e)
    ensures Bounded(cfg, Step(cfg, entries, e))
  {
    match e
    case Store(entry, now, pressure) => StoreOutcome(cfg, entries, entry, now, pressure);
    case Remove(key) => FilterStaysBounded(cfg, entries, OtherKey(key));
    case Touch(key, now) => TouchStaysBounded(cfg, entries, key, now);
    case ClearBy(f, id) => FilterStaysBounded(cfg, entries, Lacks(f, id));
    case Pressure =>
      var order := LruOrder(entries, false);
      EvictShrinks(entries, order, HalfUp(|order|));
    case ClearAll =>
  }

  /** Over every run of non-overlapping calls the entry count and the bytes stay within their limits. */
  lemma {:induction false} RunStaysBounded(cfg: Config, entries: seq<Entry>, events: seq<Event>)
    requires Bounded(cfg, entries) && LegalRun(cfg, entries, events)
    ensures Bounded(cfg, Run(cfg, entries, events))
    decreases |events|
  {
    if events != [] {
      StepStaysBounded(cfg, entries, events[0]);
      RunStaysBounded(cfg, Step(cfg, entries, events[0]), events[1..]);
    }
  }

  // ---- The store's fields ----

  /** The four secondary indexes. */
  datatype Indexes = Indexes(task: Index, workspace: Index, lease: Index, policy: Index) {
    function Of(f: Field): Index {
      match f
      case Task => task
      case Workspace => workspace
      case Lease => lease
      case Policy => policy
    }
  }

  ghost predicate AllAgree(ix: Indexes, entries: seq<Entry>) {
    forall f: Field :: Agrees(ix.Of(f), entries, f)
  }

  function Filed(ix: Indexes, e: Entry): Indexes {
    Indexes(AddIndex(ix.task, Task, e), AddIndex(ix.workspace, Workspace, e), AddIndex(ix.lease, Lease, e), AddIndex(ix.policy, Policy, e))
  }

  function Unfiled(ix: Indexes, e: Entry): Indexes {
    Indexes(RemoveIndex(ix.task, Task, e), RemoveIndex(ix.workspace, Workspace, e),
            RemoveIndex(ix.lease, Lease, e), RemoveIndex(ix.policy, Policy, e))
  }

  lemma FilingKeepsAgreement(ix: Indexes, entries: seq<Entry>, e: Entry)
    requires AllAgree(ix, entries)
    ensures AllAgree(Filed(ix, e), entries + [e])
  {
    forall f: Field ensures Agrees(Filed(ix, e).Of(f), entries + [e], f) {
      AddKeepsAgreement(ix.Of(f), entries, f, e);
    }
  }

  lemma UnfilingKeepsAgreement(ix: Indexes, entries: seq<Entry>, i: nat)
    requires AllAgree(ix, entries) && DistinctKeys(entries) && i < |entries|
    ensures AllAgree(Unfiled(ix, entries[i]), Without(entries, i))
  {
    forall f: Field ensures Agrees(Unfiled(ix, entries[i]).Of(f), Without(entries, i), f) {
      RemoveKeepsAgreement(ix.Of(f), entries, f, i);
    }
  }

  /** Access metadata is not indexed. */
  lemma TouchingKeepsAgreement(ix: Indexes, entries: seq<Entry>, i: nat, t: Entry)
    requires AllAgree(ix, entries) && i < |entries|
    requires t.key == entries[i].key && forall f: Field :: IdOf(t, f) == IdOf(entries[i], f)
    ensures AllAgree(ix, entries[i := t])
  {
    var after := entries[i := t];
    forall f: Field ensures Agrees(ix.Of(f), after, f) {
      forall id ensures KeysWith(after, f, id) == KeysWith(entries, f, id) {
        SameScan(entries, after, f, id);
        SameScan(after, entries, f, id);
      }
    }
  }

  lemma SameScan(a: seq<Entry>, b: seq<Entry>, f: Field, id: string)
    requires |a| == |b| && forall k :: 0 <= k < |a| ==> a[k].key == b[k].key && IdOf(a[k], f) == IdOf(b[k], f)
    ensures KeysWith(a, f, id) <= KeysWith(b, f, id)
  {
    forall key | key in KeysWith(a, f, id) ensures key in KeysWith(b, f, id) {
      var e :| e in a && Carries(e, f, id) && e.key == key;
      var k :| 0 <= k < |a| && a[k] == e;
      assert b[k] in b && Carries(b[k], f, id);
    }
  }

  lemma FilterSame(entries: seq<Entry>, p: Entry -> bool, q: Entry -> bool)
    requires forall e :: e in entries ==> (p(e) <==> q(e))
    ensures Filter(entries, p) == Filter(entries, q)
  {
    if entries != [] {
      assert entries == entries[..|entries| - 1] + [Last(entries)];
      FilterSame(entries[..|entries| - 1], p, q);
    }
  }

  function KeyOutside(keys: set<string>): Entry -> bool {
    (e: Entry) => e.key !in keys
  }

  /** Dropping one more key. */
  lemma DropAnother(entries: seq<Entry>, keys: set<string>, key: string)
    ensures Drop(Filter(entries, KeyOutside(keys)), key) == Filter(entries, KeyOutside(keys + {key}))
  {
    if entries != [] {
      var init := entries[..|entries| - 1];
      DropAnother(init, keys, key);
      var f := Filter(entries, KeyOutside(keys));
      if Last(entries).key in keys {
        assert f == Filter(init, KeyOutside(keys));
      } else {
        assert f[..|f| - 1] == Filter(init, KeyOutside(keys));
      }
    }
  }

  lemma ScanSnoc(init: seq<Entry>, x: Entry, f: Field, id: string)
    requires DistinctKeys(init + [x])
    ensures KeysWith(init + [x], f, id) == KeysWith(init, f, id) + (if Carries(x, f, id) then {x.key} else {})
    ensures x.key !in KeysWith(init, f, id)
  {
    forall e | e in init ensures e.key != x.key {
      var k :| 0 <= k < |init| && init[k] == e;
      assert (init + [x])[k].key != (init + [x])[|init|].key;
    }
  }

  /** With distinct keys a scan finds as many keys as there are entries carrying the id. */
  lemma {:induction false} ScanCount(entries: seq<Entry>, f: Field, id: string)
    requires DistinctKeys(entries)
    ensures |KeysWith(entries, f, id)| == |Filter(entries, Not(Lacks(f, id)))|
  {
    if entries != [] {
      var init, x := entries[..|entries| - 1], Last(entries);
      assert entries == init + [x];
      ScanCount(init, f, id);
      ScanSnoc(init, x, f, id);
    }
  }

  class MemoryCacheStore {
    const cfg: Config
    var entries: seq<Entry>
    var indexes: Indexes
    var totalSizeBytes: int
    var totalEvictions: nat
    var emergencyEvictions: nat

    constructor (cfg: Config)
      ensures this.cfg == cfg && Valid() && entries == []
    {
      this.cfg := cfg;
      entries, totalSizeBytes, totalEvictions, emergencyEvictions := [], 0, 0, 0;
      indexes := Indexes(map[], map[], map[], map[]);
    }

    /** The byte count is the sum of the entry sizes, and every index agrees with a full scan. */
    ghost predicate Valid()
      reads this
    {
      DistinctKeys(entries) && totalSizeBytes == Total(entries) && AllAgree(indexes, entries)
    }

    /** Removes an entry from the map, the byte count and the indexes. */
    method RemoveKey(key: string) returns (removed: bool)
      requires Valid()
      modifies this`entries, this`indexes, this`totalSizeBytes
      ensures Valid() && entries == Drop(old(entries), key)
      ensures removed <==> HasKey(old(entries), key)
      ensures totalSizeBytes <= old(totalSizeBytes)
    {
      var i := Find(entries, key);
      if i == |entries| {
        KeepsAll(entries, OtherKey(key));
        return false;
      }
      var entry := entries[i];
      assert entry in entries;
      DropOne(entries, i);
      TotalWithout(entries, i);
      WithoutShrinks(entries, i);
      UnfilingKeepsAgreement(indexes, entries, i);
      entries := Without(entries, i);
      totalSizeBytes := if totalSizeBytes - entry.sizeBytes < 0 then 0 else totalSizeBytes - entry.sizeBytes;
      indexes := Unfiled(indexes, entry);
      return true;
    }

    /** clearTask, clearWorkspace, clearLease, invalidatePolicyHash: exactly what a full scan would remove and count. */
    method Clear(f: Field, id: string) returns (cleared: nat)
      requires Valid()
      modifies this`entries, this`indexes, this`totalSizeBytes
      ensures Valid() && entries == Step(cfg, old(entries), ClearBy(f, id))
      ensures cleared == |Filter(old(entries), Not(Lacks(f, id)))|
    {
      ghost var before := entries;
      var keys := At(indexes.Of(f), id);
      NothingCleared(before, indexes.Of(f), f, id);
      cleared := RemoveKeys(keys, f, id);
      ClearedAll(before, keys, f, id);
    }

    /** Removes the keys of an index one by one, and counts the removals. */
    method RemoveKeys(keys: set<string>, ghost f: Field, ghost id: string) returns (cleared: nat)
      requires Valid() && keys == KeysWith(entries, f, id)
      requires Filter(entries, KeyOutside(keys - keys)) == entries
      modifies this`entries, this`indexes, this`totalSizeBytes
      ensures Valid() && entries == Filter(old(entries), KeyOutside(keys - {})) && cleared == |keys|
    {
      ghost var before := entries;
      cleared := 0;
      var left := keys;
      while left != {}
        invariant Valid() && left <= keys
        invariant entries == Filter(before, KeyOutside(keys - left))
        invariant cleared == |keys| - |left|
        decreases left
      {
        var key :| key in left;
        ClearingOne(before, keys, left, f, id, key);
        var removed := RemoveKey(key);
        if removed {
          cleared := cleared + 1;
        }
        left := left - {key};
      }
    }

    /** clearAll. */
    method ClearAllEntries()
      modifies this`entries, this`indexes, this`totalSizeBytes
      ensures Valid() && entries == Step(cfg, old(entries), ClearAll)
    {
      entries, totalSizeBytes := [], 0;
      indexes := Indexes(map[], map[], map[], map[]);
    }

    /** The shared loop of both evictions: takes the first k entries of the order out. */
    method EvictPrefix(order: seq<Entry>, k: nat)
      requires Valid() && k <= |order|
      modifies this`entries, this`indexes, this`totalSizeBytes, this`totalEvictions
      ensures Valid() && entries == Evict(old(entries), order, k)
      ensures totalEvictions == old(totalEvictions) + k
    {
      for i := 0 to k
        invariant Valid() && entries == Evict(old(entries), order, i)
        invariant totalEvictions == old(totalEvictions) + i
      {
        var _ := RemoveKey(order[i].key);
        totalEvictions := totalEvictions + 1;
      }
    }

    /** Evicts in LRU order until the incoming entry fits or nothing is left. */
    method EnsureCapacity(incoming: nat, now: int) returns (ok: bool)
      requires Valid()
      modifies this`entries, this`indexes, this`totalSizeBytes, this`totalEvictions
      ensures Valid() && entries == MakeRoom(cfg, SweepOne(old(entries), now), incoming)
      ensures ok <==> Total(entries) + incoming <= cfg.maxMemoryBytes
    {
      var first := FirstExpired(entries, now);
      if first < |entries| {
        DropOne(entries, first);
        var _ := RemoveKey(entries[first].key);
        totalEvictions := totalEvictions + 1;
      }
      ghost var swept := entries;
      var order := LruOrder(entries, true);
      ghost var stop := Evictions(cfg, swept, order, incoming, 0);
      var k := 0;
      while k < |order| && !(|entries| < cfg.maxEntries && totalSizeBytes + incoming <= cfg.maxMemoryBytes)
        invariant 0 <= k <= stop && Valid() && entries == Evict(swept, order, k)
      {
        var _ := RemoveKey(order[k].key);
        totalEvictions := totalEvictions + 1;
        k := k + 1;
      }
      assert k == stop;
      ok := totalSizeBytes + incoming <= cfg.maxMemoryBytes;
    }

    method PerformEmergencyEviction()
      requires Valid()
      modifies this`entries, this`indexes, this`totalSizeBytes, this`totalEvictions, this`emergencyEvictions
      ensures Valid() && entries == Relieve(old(entries), true)
    {
      var order := LruOrder(entries, false);
      EvictPrefix(order, HalfUp(|order|));
      emergencyEvictions := emergencyEvictions + HalfUp(|order|);
    }

    /** put: an oversized entry is refused at once; otherwise the old entry goes, room is made, and the new one is filed. */
    method Put(entry: Entry, now: int, pressure: bool) returns (ok: bool)
      requires Valid()
      modifies this
      ensures Valid()
      ensures entry.sizeBytes > cfg.maxEntrySizeBytes ==> !ok && entries == old(entries)
      ensures entry.sizeBytes <= cfg.maxEntrySizeBytes ==>
        entries == Step(cfg, Step(cfg, old(entries), Event.Remove(entry.key)), Store(entry, now, pressure))
      ensures entry.sizeBytes <= cfg.maxEntrySizeBytes ==> (ok <==> entry.sizeBytes <= cfg.maxMemoryBytes)
      ensures ok ==> Bounded(cfg, entries) && Last(entries) == entry
    {
      if entry.sizeBytes > cfg.maxEntrySizeBytes {
        return false;
      }
      var _ := RemoveKey(entry.key);
      DroppedKeyIsFree(old(entries), entry.key);
      StoreOutcome(cfg, entries, entry, now, pressure);
      ok := StoreEntry(entry, now, pressure);
    }

    /** The second half of put, after the old entry is gone. */
    method StoreEntry(entry: Entry, now: int, pressure: bool) returns (ok: bool)
      requires Valid() && !HasKey(entries, entry.key)
      modifies this
      ensures Valid() && entries == Step(cfg, old(entries), Store(entry, now, pressure))
      ensures ok <==> Stores(cfg, old(entries), entry, now, pressure)
    {
      KeyStaysFree(cfg, entries, entry, now, pressure);
      ok := Prepare(entry.sizeBytes, now, pressure);
      if ok {
        FileEntry(entry);
      }
    }

    /** Relieves heap pressure, then makes room. */
    method Prepare(incoming: nat, now: int, pressure: bool) returns (ok: bool)
      requires Valid()
      modifies this`entries, this`indexes, this`totalSizeBytes, this`totalEvictions, this`emergencyEvictions
      ensures Valid() && entries == Prepared(cfg, old(entries), incoming, now, pressure)
      ensures ok <==> Total(entries) + incoming <= cfg.maxMemoryBytes
    {
      if pressure {
        PerformEmergencyEviction();
      }
      assert entries == Relieve(old(entries), pressure);
      ok := EnsureCapacity(incoming, now);
    }

    method FileEntry(entry: Entry)
      requires Valid() && !HasKey(entries, entry.key)
      modifies this`entries, this`indexes, this`totalSizeBytes
      ensures Valid() && entries == old(entries) + [entry]
    {
      FilingKeepsAgreement(indexes, entries, entry);
      TotalConcat(entries, [entry]);
      assert [entry][..0] == [];
      assert forall k :: 0 <= k < |entries| ==> entries[k] in entries;
      entries := entries + [entry];
      totalSizeBytes := totalSizeBytes + entry.sizeBytes;
      indexes := Filed(indexes, entry);
    }

    /** A successful get: only the access metadata of the entry changes. */
    method TouchEntry(key: string, now: int)
      requires Valid()
      modifies this`entries
      ensures Valid() && entries == Step(cfg, old(entries), Touch(key, now))
    {
      var i := Find(entries, key);
      if i < |entries| {
        var t := entries[i].(accessCount := entries[i].accessCount + 1, lastAccessedAt := now);
        SameTotal(entries, i, t);
        TouchingKeepsAgreement(indexes, entries, i, t);
        entries := entries[i := t];
      }
    }
  }

  lemma DroppedKeyIsFree(entries: seq<Entry>, key: string)
    requires DistinctKeys(entries)
    ensures !HasKey(Drop(entries, key), key) && DistinctKeys(Drop(entries, key))
  {
    FilterKeepsDistinct(entries, OtherKey(key));
    forall e | e in Drop(entries, key) ensures e.key != key {
      FilterMember(entries, OtherKey(key), e);
    }
  }

  lemma NothingCleared(entries: seq<Entry>, index: Index, f: Field, id: string)
    requires DistinctKeys(entries) && Agrees(index, entries, f)
    ensures At(index, id) == KeysWith(entries, f, id) && |At(index, id)| == |Filter(entries, Not(Lacks(f, id)))|
    ensures Filter(entries, KeyOutside(At(index, id) - At(index, id))) == entries
  {
    ScanCount(entries, f, id);
    KeepsAll(entries, KeyOutside(At(index, id) - At(index, id)));
  }

  lemma ClearingOne(before: seq<Entry>, keys: set<string>, left: set<string>, f: Field, id: string, key: string)
    requires keys == KeysWith(before, f, id) && left <= keys && key in left
    ensures HasKey(Filter(before, KeyOutside(keys - left)), key)
    ensures Drop(Filter(before, KeyOutside(keys - left)), key) == Filter(before, KeyOutside(keys - (left - {key})))
  {
    ScannedKeyPresent(before, keys, left, f, id, key);
    DropAnother(before, keys - left, key);
    assert keys - (left - {key}) == keys - left + {key};
  }

  lemma ClearedAll(before: seq<Entry>, keys: set<string>, f: Field, id: string)
    requires DistinctKeys(before) && keys == KeysWith(before, f, id)
    ensures Filter(before, KeyOutside(keys - {})) == Filter(before, Lacks(f, id))
  {
    KeysCarry(before, f, id);
    assert keys - {} == keys;
    FilterSame(before, KeyOutside(keys), Lacks(f, id));
  }

  lemma ScannedKeyPresent(before: seq<Entry>, keys: set<string>, left: set<string>, f: Field, id: string, key: string)
    requires keys == KeysWith(before, f, id) && left <= keys && key in left
    ensures HasKey(Filter(before, KeyOutside(keys - left)), key)
  {
    var e :| e in before && Carries(e, f, id) && e.key == key;
    FilterMember(before, KeyOutside(keys - left), e);
  }

  /** A key found by the scan belongs to an entry that carries the id, and conversely. */
  lemma KeysCarry(entries: seq<Entry>, f: Field, id: string)
    requires DistinctKeys(entries)
    ensures forall e :: e in entries ==> (e.key in KeysWith(entries, f, id) <==> Carries(e, f, id))
  {
    forall e | e in entries && e.key in KeysWith(entries, f, id) ensures Carries(e, f, id) {
      var x :| x in entries && Carries(x, f, id) && x.key == e.key;
      var i :| 0 <= i < |entries| && entries[i] == e;
      var j :| 0 <= j < |entries| && entries[j] == x;
      assert i == j;
    }
  }
}
