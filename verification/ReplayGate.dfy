// The bounded replay cache of AgentOrchestrator: 15 minute entries, at most 10000 of them,
// the 2000 oldest dropped in bulk when the ceiling is reached.
module ReplayGate {
  import opened Collections

  const TTL: int := 900000
  const CEILING: nat := 10000
  const BATCH: nat := 2000

  /** A message key that passed the gate, and when. */
  datatype Admission = Admission(key: string, time: int)

  /** Everything ever admitted, and which of it the cache still holds, oldest first. */
  datatype Gate = Gate(history: seq<Admission>, held: seq<nat>)

  const NEW_GATE: Gate := Gate([], [])

  function Fresh(history: seq<Admission>, now: int): nat -> bool {
    (i: nat) => i < |history| && now <= history[i].time + TTL
  }

  /** The cache after pruneOldProcessedMessages: expired entries go, then the oldest batch if still full. */
  function Pruned(g: Gate, now: int): seq<nat> {
    var live := Filter(g.held, Fresh(g.history, now));
    if |live| >= CEILING then live[BATCH..] else live
  }

  predicate Replayed(g: Gate, now: int, key: string) {
    exists i :: i in Pruned(g, now) && i < |g.history| && g.history[i].key == key
  }

  function Pass(g: Gate, now: int, key: string): Gate {
    if Replayed(g, now, key) then g.(held := Pruned(g, now))
    else Gate(g.history + [Admission(key, now)], Pruned(g, now) + [|g.history|])
  }

  // ---- The invariant ----

  /** The keys admitted strictly between admissions a and b, other than the key of a. */
  function OthersBetween(history: seq<Admission>, a: nat, b: nat): set<string>
    requires a < |history| && b <= |history|
  {
    (set j | a < j < b :: history[j].key) - {history[a].key}
  }

  ghost predicate WellHeld(g: Gate) {
    && |g.held| <= CEILING
    && (forall k :: 0 <= k < |g.held| ==> g.held[k] < |g.history|)
    && (forall j, k :: 0 <= j < k < |g.held| ==> g.held[j] < g.held[k])
    && (forall j, k :: 0 <= j < k < |g.held| ==> g.history[g.held[j]].key != g.history[g.held[k]].key)
  }

  /** An admission that the cache no longer holds is out of date, or crowded out by 8000 other keys. */
  ghost predicate Remembered(history: seq<Admission>, held: seq<nat>, now: int, a: nat)
    requires a < |history|
  {
    a in held || now > history[a].time + TTL || |OthersBetween(history, a, |history|)| >= CEILING - BATCH
  }

  /** Two admissions of one key lie more than the TTL apart, or have 8000 other keys between them. */
  ghost predicate Window(history: seq<Admission>) {
    forall a, b :: 0 <= a < b < |history| && history[a].key == history[b].key ==>
      history[b].time - history[a].time > TTL || |OthersBetween(history, a, b)| >= CEILING - BATCH
  }

  ghost predicate Inv(g: Gate, now: int) {
    && WellHeld(g)
    && (forall a :: 0 <= a < |g.history| ==> Remembered(g.history, g.held, now, a))
    && Window(g.history)
  }

  lemma FilterIncreasing(s: seq<nat>, p: nat -> bool)
    requires forall j, k :: 0 <= j < k < |s| ==> s[j] < s[k]
    ensures forall j, k :: 0 <= j < k < |Filter(s, p)| ==> Filter(s, p)[j] < Filter(s, p)[k]
    ensures forall i :: i in Filter(s, p) <==> i in s && p(i)
  {
    var at := FilterIsStable(s, p);
    forall i ensures i in Filter(s, p) <==> i in s && p(i) {
      FilterMember(s, p, i);
    }
  }

  lemma FilterLength(s: seq<nat>, p: nat -> bool)
    ensures |Filter(s, p)| <= |s|
  {
    if s != [] {
      FilterLength(s[..|s| - 1], p);
    }
  }

  lemma DistinctKeysByIndex(g: Gate, s: seq<nat>)
    requires WellHeld(g)
    requires forall i :: i in s ==> i in g.held
    ensures forall i, j :: i in s && j in s && i != j ==> g.history[i].key != g.history[j].key
  {
  }

  lemma LiveIsWellHeld(g: Gate, now: int)
    requires WellHeld(g)
    ensures var live := Filter(g.held, Fresh(g.history, now)); WellHeld(g.(held := live)) && |live| <= |g.held|
  {
    var live := Filter(g.held, Fresh(g.history, now));
    FilterIncreasing(g.held, Fresh(g.history, now));
    FilterLength(g.held, Fresh(g.history, now));
    DistinctKeysByIndex(g, live);
    forall k | 0 <= k < |live| ensures live[k] < |g.history| && live[k] in g.held {
      assert live[k] in live;
    }
  }

  /** Entries dropped by the bulk eviction have the 8000 younger entries behind them. */
  lemma EvictedIsCrowdedOut(g: Gate, p: nat)
    requires WellHeld(g) && |g.held| == CEILING && p < BATCH
    ensures |OthersBetween(g.history, g.held[p], |g.history|)| >= CEILING - BATCH
  {
    var young := seq(CEILING - BATCH, k requires 0 <= k < CEILING - BATCH => g.history[g.held[BATCH + k]].key);
    assert Distinct(young);
    DistinctCardinality(young);
    forall key | key in Elems(young)
      ensures key in OthersBetween(g.history, g.held[p], |g.history|)
    {
      var k :| 0 <= k < |young| && young[k] == key;
      var j := g.held[BATCH + k];
      assert g.held[p] < j < |g.history| && g.history[j].key == key;
    }
    SubsetCardinality(Elems(young), OthersBetween(g.history, g.held[p], |g.history|));
  }

  lemma PrunedIsWellHeld(g: Gate, now: int)
    requires WellHeld(g)
    ensures WellHeld(g.(held := Pruned(g, now))) && |Pruned(g, now)| < CEILING
  {
    LiveIsWellHeld(g, now);
  }

  lemma EvictionRemembers(g: Gate, a: nat)
    requires WellHeld(g) && |g.held| >= CEILING && a in g.held
    ensures a in g.held[BATCH..] || |OthersBetween(g.history, a, |g.history|)| >= CEILING - BATCH
  {
    var p :| 0 <= p < |g.held| && g.held[p] == a;
    if p < BATCH {
      EvictedIsCrowdedOut(g, p);
    } else {
      assert g.held[BATCH..][p - BATCH] == a;
    }
  }

  lemma PruningRemembers(g: Gate, now: int, a: nat)
    requires WellHeld(g) && a < |g.history| && Remembered(g.history, g.held, now, a)
    ensures Remembered(g.history, Pruned(g, now), now, a)
  {
    var live := Filter(g.held, Fresh(g.history, now));
    FilterMember(g.held, Fresh(g.history, now), a);
    if a in live && |live| >= CEILING {
      LiveIsWellHeld(g, now);
      EvictionRemembers(g.(held := live), a);
    }
  }

  /** More history keeps what was true of an older admission. */
  lemma CrowdGrows(history: seq<Admission>, x: Admission, a: nat)
    requires a < |history|
    ensures |OthersBetween(history + [x], a, |history| + 1)| >= |OthersBetween(history, a, |history|)|
  {
    var more, some := OthersBetween(history + [x], a, |history| + 1), OthersBetween(history, a, |history|);
    forall key | key in some ensures key in more {
      var j :| a < j < |history| && history[j].key == key;
      assert (history + [x])[j].key == key;
    }
    SubsetCardinality(some, more);
  }

  lemma CrowdStays(history: seq<Admission>, x: Admission, a: nat)
    requires a < |history|
    ensures forall b :: a < b <= |history| ==> OthersBetween(history + [x], a, b) == OthersBetween(history, a, b)
  {
    forall b | a < b <= |history| ensures OthersBetween(history + [x], a, b) == OthersBetween(history, a, b) {
      assert forall j :: a < j < b ==> (history + [x])[j] == history[j];
    }
  }

  lemma TimePasses(g: Gate, before: int, now: int)
    requires Inv(g, before) && before <= now
    ensures Inv(g, now)
  {
    forall a | 0 <= a < |g.history| ensures Remembered(g.history, g.held, now, a) {
      assert Remembered(g.history, g.held, before, a);
    }
  }

  lemma AdmissionRemembers(g: Gate, now: int, key: string, a: nat)
    requires WellHeld(g) && a < |g.history| && Remembered(g.history, g.held, now, a)
    ensures var g' := Pass(g, now, key); a < |g'.history| && Remembered(g'.history, g'.held, now, a)
  {
    PruningRemembers(g, now, a);
    if !Replayed(g, now, key) {
      MoreHistoryRemembers(g.history, Pruned(g, now), now, Admission(key, now), a);
    }
  }

  lemma MoreHistoryRemembers(history: seq<Admission>, held: seq<nat>, now: int, x: Admission, a: nat)
    requires a < |history| && Remembered(history, held, now, a)
    ensures Remembered(history + [x], held + [|history|], now, a)
  {
    CrowdGrows(history, x, a);
  }

  lemma PassKeepsRemembering(g: Gate, now: int, key: string)
    requires WellHeld(g) && forall a :: 0 <= a < |g.history| ==> Remembered(g.history, g.held, now, a)
    ensures var g' := Pass(g, now, key); forall a :: 0 <= a < |g'.history| ==> Remembered(g'.history, g'.held, now, a)
  {
    var g' := Pass(g, now, key);
    forall a | 0 <= a < |g'.history| ensures Remembered(g'.history, g'.held, now, a) {
      if a < |g.history| {
        AdmissionRemembers(g, now, key, a);
      } else {
        assert g'.held[|g'.held| - 1] == a;
      }
    }
  }

  lemma AdmissionKeepsWindow(g: Gate, now: int, key: string)
    requires Inv(g, now) && !Replayed(g, now, key)
    ensures Window(g.history + [Admission(key, now)])
  {
    var h, h' := g.history, g.history + [Admission(key, now)];
    forall a, b | 0 <= a < b < |h'| && h'[a].key == h'[b].key
      ensures h'[b].time - h'[a].time > TTL || |OthersBetween(h', a, b)| >= CEILING - BATCH
    {
      CrowdStays(h, Admission(key, now), a);
      if b == |h| {
        PruningRemembers(g, now, a);
        assert a !in Pruned(g, now);
      }
    }
  }

  lemma AdmissionIsWellHeld(g: Gate, now: int, key: string)
    requires WellHeld(g) && !Replayed(g, now, key)
    ensures WellHeld(Pass(g, now, key))
  {
    PrunedIsWellHeld(g, now);
    var p, g' := Pruned(g, now), Pass(g, now, key);
    forall k | 0 <= k < |p| ensures g.history[p[k]].key != key {
      assert p[k] in p;
    }
    forall k | 0 <= k < |g'.held| ensures g'.held[k] < |g'.history| {
    }
  }

  lemma PassKeepsInv(g: Gate, now: int, key: string)
    requires Inv(g, now)
    ensures Inv(Pass(g, now, key), now)
  {
    PassKeepsRemembering(g, now, key);
    if Replayed(g, now, key) {
      PrunedIsWellHeld(g, now);
    } else {
      AdmissionIsWellHeld(g, now, key);
      AdmissionKeepsWindow(g, now, key);
    }
  }

  // ---- Runs ----

  datatype Call = Call(now: int, key: string)

  predicate Clocked(calls: seq<Call>, start: int)
    decreases |calls|
  {
    calls == [] || (calls[0].now >= start && Clocked(calls[1..], calls[0].now))
  }

  function Run(g: Gate, calls: seq<Call>): Gate
    decreases |calls|
  {
    if calls == [] then g else Run(Pass(g, calls[0].now, calls[0].key), calls[1..])
  }

  /** The time of the last call. */
  function EndTime(calls: seq<Call>, start: int): int
    decreases |calls|
  {
    if calls == [] then start else EndTime(calls[1..], calls[0].now)
  }

  lemma CallKeepsInv(g: Gate, before: int, call: Call)
    requires Inv(g, before) && before <= call.now
    ensures Inv(Pass(g, call.now, call.key), call.now)
  {
    TimePasses(g, before, call.now);
    PassKeepsInv(g, call.now, call.key);
  }

  lemma {:induction false} RunKeepsInv(g: Gate, calls: seq<Call>, start: int)
    requires Inv(g, start) && Clocked(calls, start)
    ensures Inv(Run(g, calls), EndTime(calls, start))
    decreases |calls|
  {
    if calls != [] {
      CallKeepsInv(g, start, calls[0]);
      RunKeepsInv(Pass(g, calls[0].now, calls[0].key), calls[1..], calls[0].now);
    }
  }

  /**
   * Replay window: over every run with a clock that does not go back, the cache holds at most
   * 10000 keys, and one key passes the gate twice only more than 900000 ms apart or with at
   * least 8000 other keys admitted in between.
   */
  lemma ReplayWindow(calls: seq<Call>, start: int)
    requires Clocked(calls, start)
    ensures var g := Run(NEW_GATE, calls);
      && |g.held| <= 10000
      && forall a, b :: 0 <= a < b < |g.history| && g.history[a].key == g.history[b].key ==>
           g.history[b].time - g.history[a].time > 900000 || |OthersBetween(g.history, a, b)| >= 8000
  {
    RunKeepsInv(NEW_GATE, calls, start);
  }

  /** The key was admitted at most 900000 ms ago. */
  predicate AdmittedLately(history: seq<Admission>, now: int, a: nat, key: string) {
    a < |history| && history[a].key == key && now - history[a].time <= 900000
  }

  /**
   * Refusals are replays: after every run, a key is refused only if it was admitted at most 900000 ms
   * ago, and it is refused if since then fewer than 8000 other keys were admitted.
   */
  lemma RefusalsAreReplays(calls: seq<Call>, start: int, now: int, key: string, a: nat)
    requires Clocked(calls, start) && EndTime(calls, start) <= now
    ensures var g := Run(NEW_GATE, calls);
      && (Replayed(g, now, key) ==> exists b :: AdmittedLately(g.history, now, b, key))
      && (AdmittedLately(g.history, now, a, key) && |OthersBetween(g.history, a, |g.history|)| < 8000 ==> Replayed(g, now, key))
  {
    var g := Run(NEW_GATE, calls);
    RunKeepsInv(NEW_GATE, calls, start);
    TimePasses(g, EndTime(calls, start), now);
    RefusedLately(g, now, key);
    RefusedWhenHeld(g, now, key, a);
  }

  lemma RefusedLately(g: Gate, now: int, key: string)
    ensures Replayed(g, now, key) ==> exists b :: AdmittedLately(g.history, now, b, key)
  {
    if Replayed(g, now, key) {
      var b: nat :| b in Pruned(g, now) && b < |g.history| && g.history[b].key == key;
      FilterMember(g.held, Fresh(g.history, now), b);
      assert AdmittedLately(g.history, now, b, key);
    }
  }

  lemma RefusedWhenHeld(g: Gate, now: int, key: string, a: nat)
    requires WellHeld(g) && (a < |g.history| ==> Remembered(g.history, g.held, now, a))
    ensures AdmittedLately(g.history, now, a, key) && |OthersBetween(g.history, a, |g.history|)| < 8000 ==> Replayed(g, now, key)
  {
    if AdmittedLately(g.history, now, a, key) {
      PruningRemembers(g, now, a);
    }
  }

  // ---- The cache as the orchestrator keeps it ----

  datatype Entry = Entry(key: string, expiresAt: int)

  /** Deletes the expired entries. */
  method KeepFresh(entries: seq<Entry>, now: int, ghost history: seq<Admission>, ghost held: seq<nat>) returns (kept: seq<Entry>)
    requires Mirrors(entries, history, held)
    ensures Mirrors(kept, history, Filter(held, Fresh(history, now)))
  {
    kept := [];
    for i := 0 to |entries|
      invariant Mirrors(kept, history, Filter(held[..i], Fresh(history, now)))
    {
      ghost var before, after := Filter(held[..i], Fresh(history, now)), Filter(held[..i + 1], Fresh(history, now));
      assert held[..i + 1][..i] == held[..i];
      if now <= entries[i].expiresAt {
        assert after == before + [held[i]];
        kept := kept + [entries[i]];
      } else {
        assert after == before;
      }
    }
    assert held[..|held|] == held;
  }

  class ReplayCache {
    var processedMessageIds: seq<Entry>
    ghost var gate: Gate

    constructor ()
      ensures Valid() && gate == NEW_GATE
    {
      processedMessageIds := [];
      gate := NEW_GATE;
    }

    ghost predicate Valid()
      reads this
    {
      WellHeld(gate) && Mirrors(processedMessageIds, gate.history, gate.held)
    }

    /** pruneOldProcessedMessages. */
    method Prune(now: int)
      requires Valid()
      modifies this
      ensures Valid() && gate == old(gate).(held := Pruned(old(gate), now))
    {
      var kept := KeepFresh(processedMessageIds, now, gate.history, gate.held);
      if |kept| >= CEILING {
        kept := kept[BATCH..];
      }
      PrunedIsWellHeld(gate, now);
      processedMessageIds := kept;
      gate := gate.(held := Pruned(gate, now));
    }

    /** The gate of executeTask: true when the message may go on. */
    method Admit(now: int, key: string) returns (ok: bool)
      requires Valid()
      modifies this
      ensures Valid() && gate == Pass(old(gate), now, key)
      ensures ok <==> !Replayed(old(gate), now, key)
    {
      ghost var g := gate;
      Prune(now);
      for i := 0 to |processedMessageIds|
        invariant forall k :: 0 <= k < i ==> processedMessageIds[k].key != key
        invariant Valid() && gate == g.(held := Pruned(g, now))
      {
        if processedMessageIds[i].key == key {
          assert gate.held[i] in Pruned(g, now);
          return false;
        }
      }
      assert !Replayed(g, now, key) by {
        forall i | i in Pruned(g, now) ensures g.history[i].key != key {
          var k :| 0 <= k < |gate.held| && gate.held[k] == i;
          assert processedMessageIds[k].key != key;
        }
      }
      AdmissionIsWellHeld(g, now, key);
      processedMessageIds := processedMessageIds + [Entry(key, now + TTL)];
      gate := Pass(g, now, key);
      return true;
    }
  }

  /** The entries are those of the held admissions, in order. */
  ghost predicate Mirrors(entries: seq<Entry>, history: seq<Admission>, held: seq<nat>) {
    && |entries| == |held|
    && forall k :: 0 <= k < |held| ==>
         held[k] < |history| && entries[k] == Entry(history[held[k]].key, history[held[k]].time + TTL)
  }
}
