// The theory of layered graphs behind the workflow planner: what the tiers of
// a multigraph are, and what they say about cycles and dependency chains.
module Graph {
  import opened Collections

  /** One dependency: `from` must run before `to`. Arcs may repeat. */
  datatype Arc = Arc(from: string, to: string)

  predicate IsPath(arcs: seq<Arc>, p: seq<string>) {
    |p| > 0 && forall i :: 0 <= i < |p| - 1 ==> Arc(p[i], p[i + 1]) in arcs
  }

  predicate IsCycle(arcs: seq<Arc>, p: seq<string>) {
    |p| >= 2 && IsPath(arcs, p) && p[0] == Last(p)
  }

  ghost predicate Acyclic(arcs: seq<Arc>) {
    forall p :: !IsCycle(arcs, p)
  }

  /** Every parent of n is in `done`. */
  predicate Ready(arcs: seq<Arc>, done: set<string>, n: string) {
    forall a :: a in arcs && a.to == n ==> a.from in done
  }

  /** The nodes that can start once `done` has run, and not before. */
  function Frontier(nodes: set<string>, arcs: seq<Arc>, done: set<string>): set<string> {
    set n | n in nodes && n !in done && Ready(arcs, done, n)
  }

  /** The nodes of all given tiers. */
  function Covered(tiers: seq<seq<string>>): set<string> {
    if tiers == [] then {} else Covered(tiers[..|tiers| - 1]) + Elems(Last(tiers))
  }

  /** Each tier is exactly the frontier of the tiers before it. */
  ghost predicate Layered(nodes: set<string>, arcs: seq<Arc>, tiers: seq<seq<string>>) {
    forall i :: 0 <= i < |tiers| ==>
      && tiers[i] != []
      && Distinct(tiers[i])
      && Elems(tiers[i]) == Frontier(nodes, arcs, Covered(tiers[..i]))
  }

  ghost predicate Closed(nodes: set<string>, arcs: seq<Arc>) {
    forall a :: a in arcs ==> a.from in nodes && a.to in nodes
  }

  /** A complete plan: layered, and every node has a tier. */
  ghost predicate Plan(nodes: set<string>, arcs: seq<Arc>, tiers: seq<seq<string>>) {
    Layered(nodes, arcs, tiers) && Covered(tiers) == nodes
  }

  /** The tier number of each node; it grows along arcs. */
  ghost predicate Ranks(nodes: set<string>, arcs: seq<Arc>, tiers: seq<seq<string>>, rank: map<string, nat>) {
    && rank.Keys == nodes
    && (forall n :: n in nodes ==> rank[n] < |tiers|)
    && (forall i, n :: 0 <= i < |tiers| ==> (n in tiers[i] <==> n in nodes && rank[n] == i))
    && (forall a :: a in arcs ==> a.from in nodes && a.to in nodes && rank[a.from] < rank[a.to])
  }

  // ---- Covered ----

  lemma CoveredTier(tiers: seq<seq<string>>, n: string) returns (i: nat)
    requires n in Covered(tiers)
    ensures i < |tiers| && n in tiers[i]
  {
    var init := tiers[..|tiers| - 1];
    if n in Covered(init) {
      i := CoveredTier(init, n);
    } else {
      i := |tiers| - 1;
    }
  }

  lemma TierCovered(tiers: seq<seq<string>>, i: nat)
    requires i < |tiers|
    ensures Elems(tiers[i]) <= Covered(tiers)
  {
    if i < |tiers| - 1 {
      TierCovered(tiers[..|tiers| - 1], i);
    }
  }

  lemma CoveredMonotone(tiers: seq<seq<string>>, i: nat, j: nat)
    requires i <= j <= |tiers|
    ensures Covered(tiers[..i]) <= Covered(tiers[..j])
    decreases j - i
  {
    if i < j {
      assert tiers[..j][..j - 1] == tiers[..j - 1];
      CoveredMonotone(tiers, i, j - 1);
    }
  }

  lemma LayeredPrefix(nodes: set<string>, arcs: seq<Arc>, tiers: seq<seq<string>>, k: nat)
    requires Layered(nodes, arcs, tiers) && k <= |tiers|
    ensures Layered(nodes, arcs, tiers[..k])
  {
    forall i | 0 <= i < k
      ensures tiers[..k][..i] == tiers[..i]
    {
    }
  }

  /** Covered nodes have all their parents covered. */
  lemma CoveredIsReady(nodes: set<string>, arcs: seq<Arc>, tiers: seq<seq<string>>, n: string)
    requires Layered(nodes, arcs, tiers) && n in Covered(tiers)
    ensures n in nodes && Ready(arcs, Covered(tiers), n)
  {
    var i := CoveredTier(tiers, n);
    assert n in Elems(tiers[i]);
    CoveredMonotone(tiers, i, |tiers|);
    assert tiers[..|tiers|] == tiers;
  }

  /** A node has one tier only. */
  lemma TierUnique(nodes: set<string>, arcs: seq<Arc>, tiers: seq<seq<string>>, i: nat, j: nat, n: string)
    requires Layered(nodes, arcs, tiers)
    requires i < |tiers| && j < |tiers| && n in tiers[i] && n in tiers[j]
    ensures i == j
  {
    assert n in Elems(tiers[i]) && n in Elems(tiers[j]);
    var lo, hi := if i < j then i else j, if i < j then j else i;
    if lo < hi {
      TierCovered(tiers[..lo + 1], lo);
      CoveredMonotone(tiers, lo + 1, hi);
      assert false;
    }
  }

  // ---- Tiers against arcs and chains ----

  /** Dependencies lie in strictly earlier tiers. */
  lemma ParentTier(nodes: set<string>, arcs: seq<Arc>, tiers: seq<seq<string>>, a: Arc, j: nat) returns (i: nat)
    requires Layered(nodes, arcs, tiers) && a in arcs
    requires j < |tiers| && a.to in tiers[j]
    ensures i < j && a.from in tiers[i]
  {
    assert a.to in Elems(tiers[j]);
    i := CoveredTier(tiers[..j], a.from);
  }

  /** A node past the first tier was held back by a parent in the tier just before. */
  lemma BlockingParent(nodes: set<string>, arcs: seq<Arc>, tiers: seq<seq<string>>, j: nat, n: string) returns (u: string)
    requires Layered(nodes, arcs, tiers)
    requires 0 < j < |tiers| && n in tiers[j]
    ensures u in tiers[j - 1] && Arc(u, n) in arcs
  {
    assert n in Elems(tiers[j]);
    var before := Covered(tiers[..j - 1]);
    assert tiers[..j][..j - 1] == tiers[..j - 1];
    assert Covered(tiers[..j]) == before + Elems(tiers[j - 1]);
    assert n !in Frontier(nodes, arcs, before);
    var a :| a in arcs && a.to == n && a.from !in before;
    assert a.from in Covered(tiers[..j]);
    u := a.from;
  }

  /** A dependency chain as long as the tier number ends at every node. */
  lemma ChainOfTier(nodes: set<string>, arcs: seq<Arc>, tiers: seq<seq<string>>, j: nat, n: string) returns (p: seq<string>)
    requires Layered(nodes, arcs, tiers)
    requires j < |tiers| && n in tiers[j]
    ensures IsPath(arcs, p) && Last(p) == n && |p| == j + 1
  {
    if j == 0 {
      p := [n];
    } else {
      var u := BlockingParent(nodes, arcs, tiers, j, n);
      var q := ChainOfTier(nodes, arcs, tiers, j - 1, u);
      p := q + [n];
    }
  }

  /** Tier numbers grow along every path. */
  lemma {:induction false} PathClimbs(nodes: set<string>, arcs: seq<Arc>, tiers: seq<seq<string>>, p: seq<string>, j: nat) returns (i: nat)
    requires Layered(nodes, arcs, tiers) && IsPath(arcs, p)
    requires j < |tiers| && Last(p) in tiers[j]
    ensures i < |tiers| && p[0] in tiers[i] && i + |p| <= j + 1
    decreases |p|
  {
    if |p| == 1 {
      i := j;
    } else {
      var q := p[..|p| - 1];
      assert Arc(p[|p| - 2], p[|p| - 2 + 1]) in arcs;
      var k := ParentTier(nodes, arcs, tiers, Arc(Last(q), Last(p)), j);
      i := PathClimbs(nodes, arcs, tiers, q, k);
    }
  }

  /**
   * Tier meaning: the tier number of a node is the number of arcs on the longest
   * dependency chain that ends at it.
   */
  lemma TierIsLongestChain(nodes: set<string>, arcs: seq<Arc>, tiers: seq<seq<string>>, j: nat, n: string)
    requires Layered(nodes, arcs, tiers)
    requires j < |tiers| && n in tiers[j]
    ensures exists p :: IsPath(arcs, p) && Last(p) == n && |p| == j + 1
    ensures forall p :: IsPath(arcs, p) && Last(p) == n ==> |p| <= j + 1
  {
    var witness_ := ChainOfTier(nodes, arcs, tiers, j, n);
    forall p | IsPath(arcs, p) && Last(p) == n
      ensures |p| <= j + 1
    {
      var _ := PathClimbs(nodes, arcs, tiers, p, j);
    }
  }

  /** No assignment of levels that respects the arcs uses fewer levels. */
  lemma {:induction false} TiersAreMinimal(nodes: set<string>, arcs: seq<Arc>, tiers: seq<seq<string>>, level: map<string, nat>, j: nat, n: string)
    requires Layered(nodes, arcs, tiers)
    requires level.Keys == nodes
    requires forall a :: a in arcs && a.from in nodes && a.to in nodes ==> level[a.from] < level[a.to]
    requires j < |tiers| && n in tiers[j]
    ensures n in nodes && level[n] >= j
    decreases j
  {
    assert n in Elems(tiers[j]);
    if j > 0 {
      var u := BlockingParent(nodes, arcs, tiers, j, n);
      TiersAreMinimal(nodes, arcs, tiers, level, j - 1, u);
    }
  }

  /** The nodes of a complete plan have tier numbers. */
  lemma TierNumbers(nodes: set<string>, arcs: seq<Arc>, tiers: seq<seq<string>>) returns (rank: map<string, nat>)
    requires Closed(nodes, arcs) && Plan(nodes, arcs, tiers)
    ensures Ranks(nodes, arcs, tiers, rank)
  {
    rank := ChooseTiers(nodes, tiers);
    OnlyTiers(nodes, arcs, tiers, rank);
    ArcsClimb(nodes, arcs, tiers, rank);
  }

  lemma OnlyTiers(nodes: set<string>, arcs: seq<Arc>, tiers: seq<seq<string>>, rank: map<string, nat>)
    requires Layered(nodes, arcs, tiers)
    requires rank.Keys == nodes && forall m :: m in nodes ==> rank[m] < |tiers| && m in tiers[rank[m]]
    ensures forall i, n :: 0 <= i < |tiers| ==> (n in tiers[i] <==> n in nodes && rank[n] == i)
  {
    forall i, n | 0 <= i < |tiers| ensures n in tiers[i] <==> n in nodes && rank[n] == i {
      if n in tiers[i] {
        OnlyTier(nodes, arcs, tiers, rank, i, n);
      }
    }
  }

  lemma ArcsClimb(nodes: set<string>, arcs: seq<Arc>, tiers: seq<seq<string>>, rank: map<string, nat>)
    requires Closed(nodes, arcs) && Layered(nodes, arcs, tiers)
    requires rank.Keys == nodes && forall m :: m in nodes ==> rank[m] < |tiers| && m in tiers[rank[m]]
    ensures forall a :: a in arcs ==> rank[a.from] < rank[a.to]
  {
    forall a | a in arcs ensures rank[a.from] < rank[a.to] {
      ArcClimbs(nodes, arcs, tiers, a, rank[a.from], rank[a.to]);
    }
  }

  lemma OnlyTier(nodes: set<string>, arcs: seq<Arc>, tiers: seq<seq<string>>, rank: map<string, nat>, i: nat, n: string)
    requires Layered(nodes, arcs, tiers) && i < |tiers| && n in tiers[i]
    requires rank.Keys == nodes && forall m :: m in nodes ==> rank[m] < |tiers| && m in tiers[rank[m]]
    ensures n in nodes && rank[n] == i
  {
    assert n in Elems(tiers[i]);
    TierUnique(nodes, arcs, tiers, i, rank[n], n);
  }

  lemma ArcClimbs(nodes: set<string>, arcs: seq<Arc>, tiers: seq<seq<string>>, a: Arc, i: nat, j: nat)
    requires Layered(nodes, arcs, tiers) && a in arcs
    requires i < |tiers| && j < |tiers| && a.from in tiers[i] && a.to in tiers[j]
    ensures i < j
  {
    var k := ParentTier(nodes, arcs, tiers, a, j);
    TierUnique(nodes, arcs, tiers, i, k, a.from);
  }

  lemma ChooseTiers(nodes: set<string>, tiers: seq<seq<string>>) returns (rank: map<string, nat>)
    requires nodes == Covered(tiers)
    ensures rank.Keys == nodes
    ensures forall n :: n in nodes ==> rank[n] < |tiers| && n in tiers[rank[n]]
  {
    forall n | n in nodes ensures exists i :: 0 <= i < |tiers| && n in tiers[i] {
      var i := CoveredTier(tiers, n);
    }
    rank := map n | n in nodes :: var i :| 0 <= i < |tiers| && n in tiers[i]; i;
  }

  // ---- Cycles ----

  /** A complete plan rules out every cycle. */
  lemma PlanIsAcyclic(nodes: set<string>, arcs: seq<Arc>, tiers: seq<seq<string>>)
    requires Closed(nodes, arcs) && Plan(nodes, arcs, tiers)
    ensures Acyclic(arcs)
  {
    forall p ensures !IsCycle(arcs, p) {
      if IsCycle(arcs, p) {
        assert Arc(p[0], p[1]) in arcs;
        var j := CoveredTier(tiers, p[0]);
        var i := PathClimbs(nodes, arcs, tiers, p, j);
        TierUnique(nodes, arcs, tiers, i, j, p[0]);
        assert false;
      }
    }
  }

  predicate HasParentIn(arcs: seq<Arc>, rest: set<string>, n: string) {
    exists a :: a in arcs && a.to == n && a.from in rest
  }

  /** Inside a set where every node has a parent in the set, one can walk backwards for ever. */
  lemma {:induction false} WalkBack(arcs: seq<Arc>, rest: set<string>, n: string, len: nat) returns (p: seq<string>)
    requires n in rest
    requires forall m :: m in rest ==> HasParentIn(arcs, rest, m)
    ensures IsPath(arcs, p) && |p| == len + 1 && Last(p) == n && Elems(p) <= rest
    decreases len
  {
    if len == 0 {
      p := [n];
    } else {
      assert HasParentIn(arcs, rest, n);
      var a :| a in arcs && a.to == n && a.from in rest;
      var q := WalkBack(arcs, rest, a.from, len - 1);
      p := q + [n];
      assert Elems(p) == Elems(q) + {n};
    }
  }

  /** When the frontier is empty, whatever is left over contains a real cycle. */
  lemma LeftoverHasCycle(nodes: set<string>, arcs: seq<Arc>, done: set<string>) returns (c: seq<string>)
    requires Closed(nodes, arcs)
    requires Frontier(nodes, arcs, done) == {}
    requires !(nodes <= done)
    ensures IsCycle(arcs, c) && Elems(c) <= nodes - done
  {
    var rest := nodes - done;
    var n :| n in nodes && n !in done;
    forall m | m in rest
      ensures HasParentIn(arcs, rest, m)
    {
      assert m !in Frontier(nodes, arcs, done);
    }
    var p := WalkBack(arcs, rest, n, |rest|);
    var i, j := Pigeonhole(p, rest);
    c := p[i..j + 1];
    forall k | 0 <= k < |c| - 1
      ensures Arc(c[k], c[k + 1]) in arcs
    {
      assert Arc(p[i + k], p[i + k + 1]) in arcs;
    }
  }
}
