// Small vocabulary of sequences and sets shared by the other modules.
module Collections {

  datatype Option<+T> = None | Some(value: T)

  /** The elements of a sequence, as a set. */
  function Elems<T>(s: seq<T>): set<T> {
    set x | x in s
  }

  /** No element occurs twice. */
  ghost predicate Distinct<T>(s: seq<T>) {
    forall i, j :: 0 <= i < j < |s| ==> s[i] != s[j]
  }

  /** How often x occurs in s. */
  function Count<T(==)>(s: seq<T>, x: T): nat {
    if s == [] then 0
    else Count(s[..|s| - 1], x) + (if s[|s| - 1] == x then 1 else 0)
  }

  /** Rows of a table, one after the other. */
  function Flatten<T>(rows: seq<seq<T>>): seq<T> {
    if rows == [] then [] else Flatten(rows[..|rows| - 1]) + rows[|rows| - 1]
  }

  function Last<T>(s: seq<T>): T
    requires s != []
  {
    s[|s| - 1]
  }

  /** The first index whose element satisfies p, or the length if there is none. */
  function FirstIndex<T>(s: seq<T>, p: T -> bool): (i: nat)
    ensures i <= |s|
    ensures i < |s| ==> p(s[i])
    ensures forall j :: 0 <= j < i ==> !p(s[j])
  {
    if s == [] || p(s[0]) then 0 else 1 + FirstIndex(s[1..], p)
  }

  /** White space as String.prototype.trim understands it. */
  predicate IsSpace(c: char) {
    || '\t' <= c <= '\r' || c == ' ' || c == '\U{A0}' || c == '\U{1680}' || '\U{2000}' <= c <= '\U{200A}'
    || c == '\U{2028}' || c == '\U{2029}' || c == '\U{202F}' || c == '\U{205F}' || c == '\U{3000}' || c == '\U{FEFF}'
  }

  lemma CountPrefix<T>(s: seq<T>, k: nat, x: T)
    requires k <= |s|
    ensures Count(s[..k], x) <= Count(s, x)
  {
    if k < |s| {
      CountPrefix(s[..|s| - 1], k, x);
      assert s[..|s| - 1][..k] == s[..k];
    } else {
      assert s[..k] == s;
    }
  }

  lemma DistinctCardinality<T>(s: seq<T>)
    requires Distinct(s)
    ensures |Elems(s)| == |s|
  {
    if s != [] {
      var init := s[..|s| - 1];
      DistinctCardinality(init);
      assert s == init + [Last(s)];
      assert Elems(s) == Elems(init) + {Last(s)};
    }
  }

  lemma SubsetCardinality<T>(a: set<T>, b: set<T>)
    requires a <= b
    ensures |a| <= |b|
    ensures |a| == |b| ==> a == b
  {
    assert b == a + (b - a);
  }

  /** Pigeonhole: a sequence longer than the set it draws from repeats an element. */
  lemma Pigeonhole<T>(s: seq<T>, universe: set<T>) returns (i: nat, j: nat)
    requires Elems(s) <= universe
    requires |s| > |universe|
    ensures i < j < |s| && s[i] == s[j]
  {
    if Distinct(s) {
      DistinctCardinality(s);
      SubsetCardinality(Elems(s), universe);
      assert false;
    }
    i, j :| 0 <= i < j < |s| && s[i] == s[j];
  }

  // ---- Filtering ----

  function Filter<T>(s: seq<T>, p: T -> bool): seq<T> {
    if s == [] then []
    else Filter(s[..|s| - 1], p) + (if p(Last(s)) then [Last(s)] else [])
  }

  function Not<T>(p: T -> bool): T -> bool {
    x => !p(x)
  }

  lemma FilterMember<T>(s: seq<T>, p: T -> bool, x: T)
    ensures x in Filter(s, p) <==> x in s && p(x)
  {
    if s != [] {
      FilterMember(s[..|s| - 1], p, x);
      assert s == s[..|s| - 1] + [Last(s)];
    }
  }

  /** The indices of the elements that satisfy the predicate. */
  function KeptIndices<T>(s: seq<T>, p: T -> bool): (at: seq<nat>)
    ensures forall k :: 0 <= k < |at| ==> at[k] < |s|
    ensures forall j, k :: 0 <= j < k < |at| ==> at[j] < at[k]
  {
    if s == [] then []
    else KeptIndices(s[..|s| - 1], p) + (if p(Last(s)) then [|s| - 1] else [])
  }

  lemma {:induction false} KeptElements<T>(s: seq<T>, p: T -> bool)
    ensures |KeptIndices(s, p)| == |Filter(s, p)|
    ensures forall k :: 0 <= k < |Filter(s, p)| ==> Filter(s, p)[k] == s[KeptIndices(s, p)[k]]
  {
    if s != [] {
      var init := s[..|s| - 1];
      KeptElements(init, p);
    }
  }

  lemma {:induction false} KeptExactly<T>(s: seq<T>, p: T -> bool, i: nat)
    requires i < |s|
    ensures p(s[i]) <==> i in KeptIndices(s, p)
  {
    if i < |s| - 1 {
      KeptExactly(s[..|s| - 1], p, i);
    }
  }

  /** Filtering keeps the relative order of exactly the elements that satisfy the predicate. */
  lemma FilterIsStable<T>(s: seq<T>, p: T -> bool) returns (at: seq<nat>)
    ensures |at| == |Filter(s, p)|
    ensures forall k :: 0 <= k < |at| ==> at[k] < |s| && Filter(s, p)[k] == s[at[k]]
    ensures forall j, k :: 0 <= j < k < |at| ==> at[j] < at[k]
    ensures forall i :: 0 <= i < |s| ==> (p(s[i]) <==> i in at)
  {
    at := KeptIndices(s, p);
    KeptElements(s, p);
    forall i | 0 <= i < |s| ensures p(s[i]) <==> i in at {
      KeptExactly(s, p, i);
    }
  }

  /** A predicate and its negation split a sequence without loss. */
  lemma {:induction false} FilterConserves<T>(s: seq<T>, p: T -> bool)
    ensures multiset(Filter(s, p)) + multiset(Filter(s, Not(p))) == multiset(s)
    ensures |Filter(s, p)| + |Filter(s, Not(p))| == |s|
  {
    if s != [] {
      var init, x := s[..|s| - 1], Last(s);
      FilterConserves(init, p);
      MultisetSnoc(init, x);
      assert s == init + [x];
      if p(x) {
        MultisetSnoc(Filter(init, p), x);
        assert Filter(s, Not(p)) == Filter(init, Not(p));
      } else {
        MultisetSnoc(Filter(init, Not(p)), x);
        assert Filter(s, p) == Filter(init, p);
      }
    }
  }

  lemma MultisetSnoc<T>(s: seq<T>, x: T)
    ensures multiset(s + [x]) == multiset(s) + multiset{x}
  {
  }

  lemma FilterConcat<T>(a: seq<T>, b: seq<T>, p: T -> bool)
    ensures Filter(a + b, p) == Filter(a, p) + Filter(b, p)
  {
    if b == [] {
      assert a + b == a;
    } else {
      var init := b[..|b| - 1];
      assert (a + b)[..|a + b| - 1] == a + init;
      FilterConcat(a, init, p);
    }
  }

  /** A sequence with the element at index i taken out. */
  function Without<T>(s: seq<T>, i: nat): seq<T>
    requires i < |s|
  {
    s[..i] + s[i + 1..]
  }

  lemma WithoutConserves<T>(s: seq<T>, i: nat)
    requires i < |s|
    ensures multiset(Without(s, i)) + multiset{s[i]} == multiset(s)
  {
    assert s == s[..i] + [s[i]] + s[i + 1..];
  }

  lemma FilterWithout<T>(s: seq<T>, i: nat, p: T -> bool)
    requires i < |s|
    ensures |Filter(s, p)| == |Filter(Without(s, i), p)| + (if p(s[i]) then 1 else 0)
  {
    assert s == s[..i] + [s[i]] + s[i + 1..];
    FilterConcat(s[..i] + [s[i]], s[i + 1..], p);
    FilterConcat(s[..i], [s[i]], p);
    FilterConcat(s[..i], s[i + 1..], p);
    assert [s[i]][..0] == [];
  }
}
