// What templates become: the substitution of StepContext read from the outside, by the text a
// workflow author writes and the value that takes its place.
module Templates {
  import opened Collections
  import opened WorkflowTypes
  import opened StepContext

  /** A string is written as plain text and templates, one after the other. */
  datatype Piece = Text(text: string) | Template(id: string, path: seq<string>)

  /** Letters, digits, underscores and hyphens. */
  predicate IsName(s: string) {
    forall c :: c in s ==> 'a' <= c <= 'z' || 'A' <= c <= 'Z' || '0' <= c <= '9' || c in "_-"
  }

  predicate IsHarmless(s: string) {
    s != "__proto__" && s != "constructor" && s != "prototype"
  }

  function Join(path: seq<string>): string
    requires path != []
  {
    if |path| == 1 then path[0] else path[0] + "." + Join(path[1..])
  }

  /** A non-empty node id, and a key path that is not empty, free of names that reach the prototype. */
  predicate Proper(id: string, path: seq<string>) {
    && id != "" && IsName(id) && IsHarmless(id)
    && path != [] && Join(path) != ""
    && forall part :: part in path ==> IsName(part) && IsHarmless(part)
  }

  predicate Braceless(s: string) {
    '{' !in s && '}' !in s
  }

  predicate WellFormed(pieces: seq<Piece>) {
    forall p :: p in pieces ==> if p.Text? then Braceless(p.text) else Proper(p.id, p.path)
  }

  function Expr(id: string, path: seq<string>): string
    requires path != []
  {
    "nodes." + id + ".output." + Join(path)
  }

  function Written(p: Piece): string
    requires p.Template? ==> p.path != []
  {
    match p
    case Text(text) => text
    case Template(id, path) => "{{" + Expr(id, path) + "}}"
  }

  function Source(pieces: seq<Piece>): string
    requires WellFormed(pieces)
  {
    if pieces == [] then "" else Written(pieces[0]) + Source(pieces[1..])
  }

  /** The member at the end of the path: the last name looked up in what the names before it lead to. */
  function Follow(pf: Platform, v: Value, path: seq<string>): Option<Value> {
    if path == [] then Some(v)
    else
      var before := Follow(pf, v, path[..|path| - 1]);
      if before.None? then None else pf.member(before.value, Last(path))
  }

  /** The value a template stands for, if its node has an output with that member. */
  function Found(pf: Platform, outputs: Outputs, id: string, path: seq<string>): Option<Value> {
    if id in outputs then Follow(pf, outputs[id], path) else None
  }

  /** Text stays, a template that stands for a value becomes its rendering, any other template stays. */
  function Filled(pf: Platform, outputs: Outputs, pieces: seq<Piece>): string
    requires WellFormed(pieces)
  {
    if pieces == [] then ""
    else
      var p := pieces[0];
      var found := if p.Template? then Found(pf, outputs, p.id, p.path) else None;
      (if found.Some? then pf.render(found.value) else Written(p)) + Filled(pf, outputs, pieces[1..])
  }

  // ---- Characters ----

  lemma NameHasNoDot(s: string)
    requires IsName(s)
    ensures forall c :: c in s ==> IsIdChar(c) && c != '.' && !IsSpace(c) && c != '{' && c != '}'
  {
  }

  lemma JoinIsPath(path: seq<string>)
    requires path != [] && forall part :: part in path ==> IsName(part)
    ensures forall c :: c in Join(path) ==> IsPathChar(c) && !IsSpace(c) && c != '{' && c != '}'
  {
    NameHasNoDot(path[0]);
    if |path| > 1 {
      JoinIsPath(path[1..]);
    }
  }

  // ---- Splitting and following paths ----

  lemma FindAt(s: string, c: char, k: nat, m: nat)
    requires k <= m <= |s| && (forall j :: k <= j < m ==> s[j] != c) && (m < |s| ==> s[m] == c)
    ensures Find(s, c, k) == m
    decreases m - k
  {
    if k < m {
      FindAt(s, c, k + 1, m);
    }
  }

  lemma FindInside(a: string, c: char, b: string)
    requires c !in a && (b != "" ==> b[0] == c)
    ensures Find(a + b, c, 0) == |a|
  {
    FindAt(a + b, c, 0, |a|);
  }

  /** A name alone is one part; a name and a dot in front of the rest is one part more. */
  lemma SplitName(a: string)
    requires '.' !in a
    ensures Split(a, '.') == [a]
  {
    FindInside(a, '.', "");
    assert a + "" == a;
  }

  lemma SplitDot(a: string, b: string)
    requires '.' !in a
    ensures Split(a + "." + b, '.') == [a] + Split(b, '.')
  {
    var s := a + "." + b;
    FindInside(a, '.', "." + b);
    assert s == a + ("." + b);
    assert s[..|a|] == a && s[|a| + 1..] == b;
  }

  lemma SplitJoin(path: seq<string>)
    requires path != [] && forall part :: part in path ==> IsName(part)
    ensures Split(Join(path), '.') == path
  {
    NameHasNoDot(path[0]);
    if |path| == 1 {
      SplitName(path[0]);
    } else {
      SplitJoin(path[1..]);
      SplitDot(path[0], Join(path[1..]));
    }
  }

  lemma {:induction false} NavigateSnoc(pf: Platform, v: Value, path: seq<string>, name: string)
    ensures Navigate(pf, v, path + [name]) ==
      var before := Navigate(pf, v, path); if before.None? then None else pf.member(before.value, name)
    decreases |path|
  {
    var all := path + [name];
    if path == [] {
      assert all[1..] == [];
    } else {
      assert all[1..] == path[1..] + [name];
      var next := pf.member(v, path[0]);
      if next.Some? {
        NavigateSnoc(pf, next.value, path[1..], name);
      }
    }
  }

  /** Walking from the front reaches what following from the back describes. */
  lemma {:induction false} NavigateFollows(pf: Platform, v: Value, path: seq<string>)
    ensures Navigate(pf, v, path) == Follow(pf, v, path)
  {
    if path != [] {
      NavigateFollows(pf, v, path[..|path| - 1]);
      NavigateSnoc(pf, v, path[..|path| - 1], Last(path));
      assert path == path[..|path| - 1] + [Last(path)];
    }
  }

  lemma LookupFinds(pf: Platform, outputs: Outputs, id: string, path: seq<string>)
    requires Proper(id, path)
    ensures Lookup(pf, outputs, Ref(id, Join(path))) == Found(pf, outputs, id, path)
  {
    SplitJoin(path);
    if id in outputs {
      NavigateFollows(pf, outputs[id], path);
    }
  }

  // ---- Reading one expression ----

  lemma ExprParses(id: string, path: seq<string>)
    requires Proper(id, path)
    ensures ParseRef(Expr(id, path)) == Some(Ref(id, Join(path)))
  {
    var key, e := Join(path), Expr(id, path);
    var tail := ".output." + key;
    NameHasNoDot(id);
    JoinIsPath(path);
    assert e[6..] == id + tail && "nodes." <= e;
    FindInside(id, '.', tail);
    assert (id + tail)[..|id|] == id && (id + tail)[|id|..] == tail;
    assert ".output." <= tail && (id + tail)[|id| + 8..] == key;
  }

  lemma NotBlankEnds(s: string)
    requires s != "" && !IsSpace(s[0]) && !IsSpace(Last(s))
    ensures Trim(s) == s
  {
  }

  lemma ExprEnds(id: string, path: seq<string>)
    requires Proper(id, path)
    ensures var e := Expr(id, path);
      && e != "" && !IsSpace(e[0]) && !IsSpace(Last(e)) && (forall c :: c in e ==> c != '{' && c != '}')
  {
    NameHasNoDot(id);
    JoinIsPath(path);
    var e := Expr(id, path);
    assert Last(e) == Last(Join(path));
  }

  lemma {:induction false} ExprSplits(id: string, path: seq<string>)
    requires Proper(id, path)
    ensures Split(Expr(id, path), '.') == ["nodes", id, "output"] + path
  {
    NameHasNoDot(id);
    SplitJoin(path);
    SplitThree("nodes", id, "output", Join(path));
    assert "nodes" + "." == "nodes." && "." + "output" + "." == ".output.";
    assert Expr(id, path) == "nodes" + "." + id + "." + "output" + "." + Join(path);
  }

  lemma {:induction false} SplitThree(a: string, b: string, c: string, rest: string)
    requires '.' !in a && '.' !in b && '.' !in c
    ensures Split(a + "." + b + "." + c + "." + rest, '.') == [a, b, c] + Split(rest, '.')
  {
    SplitDot(c, rest);
    SplitDot(b, c + "." + rest);
    SplitDot(a, b + "." + (c + "." + rest));
    DotAssoc(a + "." + b, c, rest, ".");
    DotAssoc(a, b, c + "." + rest, ".");
    assert [a] + ([b] + ([c] + Split(rest, '.'))) == [a, b, c] + Split(rest, '.');
  }

  lemma DotAssoc(a: string, b: string, c: string, dot: string)
    ensures (a + dot + b) + dot + c == a + dot + (b + dot + c)
  {
  }

  lemma ExprIsSafe(id: string, path: seq<string>)
    requires Proper(id, path)
    ensures SafeExpr(Expr(id, path))
  {
    var parts := ["nodes", id, "output"] + path;
    ExprEnds(id, path);
    NotBlankEnds(Expr(id, path));
    ExprSplits(id, path);
    ExprParses(id, path);
    forall part | part in parts ensures part !in UNSAFE {
      PartIsHarmless(id, path, part);
    }
  }

  lemma PartIsHarmless(id: string, path: seq<string>, part: string)
    requires Proper(id, path) && part in ["nodes", id, "output"] + path
    ensures part !in UNSAFE
  {
    assert |"nodes"| == 5 && |"output"| == 6 && |"__proto__"| == 9 && |"constructor"| == 11 && |"prototype"| == 9;
    assert part == "nodes" || part == id || part == "output" || part in path;
  }

  // ---- Scanning ----

  /** A group is found where a proper template stands, and spans it. */
  lemma {:induction false} TemplateIsGroup(pre: string, id: string, path: seq<string>, post: string)
    requires Proper(id, path)
    ensures var t := Written(Template(id, path));
      && GroupEnd(pre + t + post, |pre|) == Some(|pre| + |t|)
      && (pre + t + post)[|pre| + 2..|pre| + |t| - 2] == Expr(id, path)
      && (pre + t + post)[|pre|..|pre| + |t|] == t
  {
    var e, t := Expr(id, path), Written(Template(id, path));
    var s := pre + t + post;
    ExprEnds(id, path);
    assert forall j :: 0 <= j < |e| ==> s[|pre| + 2 + j] == e[j];
    assert s[|pre| + 2 + |e|] == '}' && s[|pre| + 3 + |e|] == '}';
    forall j | |pre| + 2 <= j < |pre| + 2 + |e| ensures s[j] != '}' {
      assert s[j] == e[j - |pre| - 2] && e[j - |pre| - 2] in e;
    }
    FindAt(s, '}', |pre| + 2, |pre| + 2 + |e|);
    assert s[|pre| + 2..|pre| + |t| - 2] == e;
  }

  /** Text without an opening brace is copied, and holds no group. */
  lemma {:induction false} TextIsCopied(pf: Platform, outputs: Outputs, s: string, i: nat, j: nat)
    requires i <= j <= |s| && forall k :: i <= k < j ==> s[k] != '{'
    ensures Replace(pf, outputs, s, i) == s[i..j] + Replace(pf, outputs, s, j)
    decreases j - i
  {
    if i < j {
      TextIsCopied(pf, outputs, s, i + 1, j);
      assert GroupEnd(s, i).None?;
      FirstApart(s, i, j, Replace(pf, outputs, s, j));
    } else {
      assert s[i..j] == "";
    }
  }

  lemma FirstApart(s: string, i: nat, j: nat, rest: string)
    requires i < j <= |s|
    ensures s[i..j] + rest == [s[i]] + (s[i + 1..j] + rest)
  {
  }

  lemma {:induction false} TextHoldsNoGroup(s: string, i: nat, j: nat)
    requires i <= j <= |s| && forall k :: i <= k < j ==> s[k] != '{'
    ensures Groups(s, i) == Groups(s, j)
    decreases j - i
  {
    if i < j {
      TextHoldsNoGroup(s, i + 1, j);
      assert GroupEnd(s, i).None?;
    }
  }

  function Exprs(pieces: seq<Piece>): seq<string>
    requires WellFormed(pieces)
  {
    if pieces == [] then []
    else (if pieces[0].Template? then [Expr(pieces[0].id, pieces[0].path)] else []) + Exprs(pieces[1..])
  }

  /** Reading on from the start of some pieces fills in exactly those pieces. */
  lemma {:induction false} PiecesAreRead(pf: Platform, outputs: Outputs, done: string, pieces: seq<Piece>)
    requires WellFormed(pieces)
    ensures Replace(pf, outputs, done + Source(pieces), |done|) == Filled(pf, outputs, pieces)
    ensures Groups(done + Source(pieces), |done|) == Exprs(pieces)
    decreases |pieces|
  {
    var s := done + Source(pieces);
    if pieces == [] {
      assert s == done;
    } else {
      var p, rest := pieces[0], pieces[1..];
      var next := done + Written(p);
      assert s == next + Source(rest);
      PiecesAreRead(pf, outputs, next, rest);
      if p.Text? {
        TextIsRead(pf, outputs, done, p.text, Source(rest));
      } else {
        TemplateIsReplaced(pf, outputs, done, Written(p), p.id, p.path, Source(rest));
        TemplateIsListed(done, Written(p), p.id, p.path, Source(rest));
      }
    }
  }

  lemma {:induction false} TextIsRead(pf: Platform, outputs: Outputs, done: string, text: string, rest: string)
    requires Braceless(text)
    ensures var s := done + text + rest;
      && Replace(pf, outputs, s, |done|) == text + Replace(pf, outputs, s, |done + text|)
      && Groups(s, |done|) == Groups(s, |done + text|)
  {
    var s := done + text + rest;
    assert forall k :: |done| <= k < |done + text| ==> s[k] == text[k - |done|];
    TextIsCopied(pf, outputs, s, |done|, |done + text|);
    TextHoldsNoGroup(s, |done|, |done + text|);
    assert s[|done|..|done + text|] == text;
  }

  lemma {:induction false} TemplateIsReplaced(pf: Platform, outputs: Outputs, done: string, t: string, id: string, path: seq<string>, rest: string)
    requires Proper(id, path) && t == Written(Template(id, path))
    ensures var s, found := done + t + rest, Found(pf, outputs, id, path);
      Replace(pf, outputs, s, |done|) == (if found.Some? then pf.render(found.value) else t) + Replace(pf, outputs, s, |done + t|)
  {
    TemplateSpans(done, t, id, path, rest);
    Middle(done, t, rest);
    LookupFinds(pf, outputs, id, path);
    ReplaceGroup(pf, outputs, done + t + rest, |done|, |done + t|, t, Expr(id, path), Ref(id, Join(path)));
  }

  lemma {:induction false} TemplateIsListed(done: string, t: string, id: string, path: seq<string>, rest: string)
    requires Proper(id, path) && t == Written(Template(id, path))
    ensures var s := done + t + rest; Groups(s, |done|) == [Expr(id, path)] + Groups(s, |done + t|)
  {
    TemplateSpans(done, t, id, path, rest);
    Middle(done, t, rest);
    GroupsGroup(done + t + rest, |done|, |done + t|, Expr(id, path));
  }

  lemma {:induction false} TemplateSpans(done: string, t: string, id: string, path: seq<string>, rest: string)
    requires Proper(id, path) && t == Written(Template(id, path))
    ensures var s := done + t + rest;
      && |t| >= 5 && GroupEnd(s, |done|) == Some(|done| + |t|)
      && s[|done| + 2..|done| + |t| - 2] == Expr(id, path)
      && ParseRef(Expr(id, path)) == Some(Ref(id, Join(path)))
  {
    TemplateIsGroup(done, id, path, rest);
    ExprParses(id, path);
  }

  lemma Middle(done: string, t: string, rest: string)
    ensures (done + t + rest)[|done|..|done| + |t|] == t && |done + t| == |done| + |t|
  {
  }

  lemma {:induction false} ReplaceGroup(pf: Platform, outputs: Outputs, s: string, i: nat, e: nat, t: string, x: string, ref: Ref)
    requires i < |s| && GroupEnd(s, i) == Some(e) && s[i..e] == t && s[i + 2..e - 2] == x && ParseRef(x) == Some(ref)
    ensures Replace(pf, outputs, s, i) ==
      (if Lookup(pf, outputs, ref).Some? then pf.render(Lookup(pf, outputs, ref).value) else t) + Replace(pf, outputs, s, e)
  {
    var tail := Replace(pf, outputs, s, e);
    if Lookup(pf, outputs, ref).Some? {
      assert Replace(pf, outputs, s, i) == pf.render(Lookup(pf, outputs, ref).value) + tail;
    } else {
      assert Replace(pf, outputs, s, i) == t + tail;
    }
  }

  lemma {:induction false} GroupsGroup(s: string, i: nat, e: nat, x: string)
    requires i < |s| && GroupEnd(s, i) == Some(e) && s[i + 2..e - 2] == x
    ensures Groups(s, i) == [x] + Groups(s, e)
  {
  }

  lemma ExprsAreSafe(pieces: seq<Piece>)
    requires WellFormed(pieces)
    ensures forall g :: g in Exprs(pieces) ==> SafeExpr(g)
    ensures Exprs(pieces) == [] <==> forall p :: p in pieces ==> p.Text?
  {
    if pieces != [] {
      ExprsAreSafe(pieces[1..]);
      assert pieces == [pieces[0]] + pieces[1..];
      if pieces[0].Template? {
        ExprIsSafe(pieces[0].id, pieces[0].path);
      }
    }
  }

  // ---- A template on its own ----

  predicate Blank(s: string) {
    forall c :: c in s ==> IsSpace(c)
  }

  lemma TrimLeftBlank(pre: string, s: string)
    requires Blank(pre) && (s != "" ==> !IsSpace(s[0]))
    ensures TrimLeft(pre + s) == s
  {
    if pre == "" {
      assert pre + s == s;
    } else {
      assert (pre + s)[1..] == pre[1..] + s;
      TrimLeftBlank(pre[1..], s);
    }
  }

  lemma TrimRightBlank(s: string, post: string)
    requires Blank(post) && (s != "" ==> !IsSpace(Last(s)))
    ensures TrimRight(s + post) == s
  {
    if post == "" {
      assert s + post == s;
    } else {
      assert (s + post)[..|s + post| - 1] == s + post[..|post| - 1];
      TrimRightBlank(s, post[..|post| - 1]);
    }
  }

  lemma {:induction false} TrimBlanks(pre: string, s: string, post: string)
    requires Blank(pre) && Blank(post) && s != "" && !IsSpace(s[0]) && !IsSpace(Last(s))
    ensures Trim(pre + s + post) == s
  {
    assert pre + s + post == pre + (s + post);
    TrimLeftBlank(pre, s + post);
    TrimRightBlank(s, post);
  }

  /** A template with nothing but white space around it is the value itself, not its text; if there is none, nothing changes. */
  lemma {:induction false} SingleTemplate(pf: Platform, outputs: Outputs, pre: string, id: string, path: seq<string>, post: string)
    requires Proper(id, path) && Blank(pre) && Blank(post)
    ensures var s, found := pre + Written(Template(id, path)) + post, Found(pf, outputs, id, path);
      Resolve(pf, outputs, Str(s)) == Some(if found.Some? then found.value else Str(s))
  {
    var s := pre + Written(Template(id, path)) + post;
    GroupsOfThree(pf, outputs, pre, id, path, post);
    SingleIsAlone(pre, id, path, post);
    LookupFinds(pf, outputs, id, path);
    assert Groups(s, 0)[0] == Expr(id, path);
  }

  lemma SingleIsAlone(pre: string, id: string, path: seq<string>, post: string)
    requires Proper(id, path) && Blank(pre) && Blank(post)
    ensures SingleRef(pre + Written(Template(id, path)) + post) == Some(Ref(id, Join(path)))
  {
    var t := Written(Template(id, path));
    TemplateIsWhole(id, path);
    TrimBlanks(pre, t, post);
    ExprParses(id, path);
  }

  lemma TemplateIsWhole(id: string, path: seq<string>)
    requires Proper(id, path)
    ensures var t := Written(Template(id, path));
      |t| >= 5 && t[0] == '{' && Last(t) == '}' && GroupEnd(t, 0) == Some(|t|) && t[2..|t| - 2] == Expr(id, path)
  {
    var t := Written(Template(id, path));
    TemplateIsGroup("", id, path, "");
    assert "" + t + "" == t;
  }

  lemma {:induction false} GroupsOfThree(pf: Platform, outputs: Outputs, pre: string, id: string, path: seq<string>, post: string)
    requires Proper(id, path) && Braceless(pre) && Braceless(post)
    ensures Groups(pre + Written(Template(id, path)) + post, 0) == [Expr(id, path)] && SafeExpr(Expr(id, path))
  {
    var pieces := [Text(pre), Template(id, path), Text(post)];
    SourceOfThree(pre, id, path, post);
    ExprsOfThree(pre, id, path, post);
    PiecesAreRead(pf, outputs, "", pieces);
    assert "" + Source(pieces) == Source(pieces);
    ExprIsSafe(id, path);
  }

  lemma {:induction false} ExprsOfThree(pre: string, id: string, path: seq<string>, post: string)
    requires WellFormed([Text(pre), Template(id, path), Text(post)])
    ensures Exprs([Text(pre), Template(id, path), Text(post)]) == [Expr(id, path)]
  {
    var pieces := [Text(pre), Template(id, path), Text(post)];
    assert pieces[1..] == [Template(id, path), Text(post)];
    assert pieces[1..][1..] == [Text(post)];
    assert Exprs([Text(post)]) == [];
  }

  lemma {:induction false} SourceOfThree(pre: string, id: string, path: seq<string>, post: string)
    requires Braceless(pre) && Braceless(post) && Proper(id, path)
    ensures WellFormed([Text(pre), Template(id, path), Text(post)])
    ensures Source([Text(pre), Template(id, path), Text(post)]) == pre + Written(Template(id, path)) + post
  {
    var pieces := [Text(pre), Template(id, path), Text(post)];
    assert pieces[1..] == [Template(id, path), Text(post)];
    assert pieces[1..][1..] == [Text(post)];
    assert pieces[1..][1..][1..] == [];
    assert Source([Text(post)]) == post;
  }

  // ---- Templates inside text ----

  /** One template, and nothing else but white space. */
  predicate AloneAt(pieces: seq<Piece>, k: nat) {
    && k < |pieces| && pieces[k].Template?
    && forall j :: 0 <= j < |pieces| && j != k ==> pieces[j].Text? && Blank(pieces[j].text)
  }

  lemma CountConcat(a: string, b: string, c: char)
    ensures Count(a + b, c) == Count(a, c) + Count(b, c)
  {
    if b == "" {
      assert a + b == a;
    } else {
      assert (a + b)[..|a + b| - 1] == a + b[..|b| - 1];
      CountConcat(a, b[..|b| - 1], c);
    }
  }

  lemma CountNone(s: string, c: char)
    requires c !in s
    ensures Count(s, c) == 0
  {
  }

  lemma TrimKeepsCount(s: string, c: char)
    requires !IsSpace(c)
    ensures Count(Trim(s), c) == Count(s, c)
  {
    TrimLeftKeepsCount(s, c);
    TrimRightKeepsCount(TrimLeft(s), c);
  }

  lemma TrimLeftKeepsCount(s: string, c: char)
    requires !IsSpace(c)
    ensures Count(TrimLeft(s), c) == Count(s, c)
  {
    if s != "" && IsSpace(s[0]) {
      TrimLeftKeepsCount(s[1..], c);
      assert s == [s[0]] + s[1..];
      CountConcat([s[0]], s[1..], c);
      assert [s[0]][..0] == "";
    }
  }

  lemma TrimRightKeepsCount(s: string, c: char)
    requires !IsSpace(c)
    ensures Count(TrimRight(s), c) == Count(s, c)
  {
    if s != "" && IsSpace(Last(s)) {
      TrimRightKeepsCount(s[..|s| - 1], c);
    }
  }

  lemma FindIsFirst(s: string, c: char, k: nat)
    requires k <= |s|
    ensures var r := Find(s, c, k); (r < |s| ==> s[r] == c) && forall j :: k <= j < r ==> s[j] != c
    decreases |s| - k
  {
    if k < |s| && s[k] != c {
      FindIsFirst(s, c, k + 1);
    }
  }

  /** A string that is one group from end to end has two closing braces. */
  lemma WholeGroupHasTwo(t: string)
    requires GroupEnd(t, 0) == Some(|t|)
    ensures Count(t, '}') == 2 && t[0] == '{' && Last(t) == '}'
  {
    var n := |t|;
    FindIsFirst(t, '}', 2);
    assert Find(t, '}', 2) == n - 2;
    assert forall j :: 0 <= j < n - 2 ==> t[j] != '}';
    CountNone(t[..n - 2], '}');
    TwoMore(t, '}');
  }

  lemma TwoMore(t: string, c: char)
    requires |t| >= 2 && t[|t| - 2] == c && t[|t| - 1] == c
    ensures Count(t, c) == Count(t[..|t| - 2], c) + 2
  {
    assert t[..|t| - 1][..|t| - 2] == t[..|t| - 2];
  }

  function Templates(pieces: seq<Piece>): nat {
    if pieces == [] then 0 else (if pieces[0].Template? then 1 else 0) + Templates(pieces[1..])
  }

  lemma TemplateHasTwo(id: string, path: seq<string>)
    requires Proper(id, path)
    ensures Count(Written(Template(id, path)), '}') == 2
  {
    TemplateIsWhole(id, path);
    WholeGroupHasTwo(Written(Template(id, path)));
  }

  lemma {:induction false} PiecesHaveTwoEach(pieces: seq<Piece>)
    requires WellFormed(pieces)
    ensures Count(Source(pieces), '}') == 2 * Templates(pieces)
  {
    if pieces != [] {
      var p := pieces[0];
      PiecesHaveTwoEach(pieces[1..]);
      CountConcat(Written(p), Source(pieces[1..]), '}');
      if p.Text? {
        CountNone(p.text, '}');
      } else {
        TemplateHasTwo(p.id, p.path);
      }
    }
  }

  /** With one template, everything before and after it is text. */
  lemma {:induction false} OneTemplate(pieces: seq<Piece>) returns (k: nat)
    requires Templates(pieces) == 1
    ensures k < |pieces| && pieces[k].Template? && forall j :: 0 <= j < |pieces| && j != k ==> pieces[j].Text?
  {
    if pieces[0].Template? {
      NoTemplates(pieces[1..]);
      k := 0;
      assert forall j :: 1 <= j < |pieces| ==> pieces[j] == pieces[1..][j - 1];
    } else {
      var r := OneTemplate(pieces[1..]);
      k := r + 1;
      assert forall j :: 1 <= j < |pieces| ==> pieces[j] == pieces[1..][j - 1];
    }
  }

  lemma NoTemplates(pieces: seq<Piece>)
    requires Templates(pieces) == 0
    ensures forall j :: 0 <= j < |pieces| ==> pieces[j].Text?
  {
  }

  /** What stands first after trimming is the first character that is not white space. */
  lemma TrimHead(s: string, k: nat)
    requires k < |s| && !IsSpace(s[k]) && Blank(s[..k])
    ensures Trim(s) != "" && Trim(s)[0] == s[k]
  {
    assert s == s[..k] + s[k..];
    TrimLeftBlank(s[..k], s[k..]);
    TrimRightHead(s[k..]);
  }

  lemma TrimRightHead(s: string)
    requires s != "" && !IsSpace(s[0])
    ensures TrimRight(s) != "" && TrimRight(s)[0] == s[0]
  {
    if IsSpace(Last(s)) {
      TrimRightHead(s[..|s| - 1]);
    }
  }

  /** What stands last after trimming is the last character that is not white space. */
  lemma TrimTail(s: string, k: nat)
    requires k < |s| && !IsSpace(s[k]) && Blank(s[k + 1..])
    ensures Trim(s) != "" && Last(Trim(s)) == s[k]
  {
    var a, b := s[..k + 1], s[k + 1..];
    assert s == a + b && Last(a) == s[k];
    TrimLeftTail(a, b);
    TrimRightBlank(TrimLeft(a), b);
  }

  lemma TrimLeftTail(a: string, b: string)
    requires a != "" && !IsSpace(Last(a))
    ensures TrimLeft(a + b) == TrimLeft(a) + b && TrimLeft(a) != "" && Last(TrimLeft(a)) == Last(a)
  {
    if IsSpace(a[0]) {
      assert (a + b)[1..] == a[1..] + b && Last(a[1..]) == Last(a);
      TrimLeftTail(a[1..], b);
    }
  }

  lemma FirstInk(s: string) returns (k: nat)
    requires !Blank(s)
    ensures k < |s| && !IsSpace(s[k]) && Blank(s[..k])
  {
    if IsSpace(s[0]) {
      var c :| c in s && !IsSpace(c);
      assert s == [s[0]] + s[1..];
      var r := FirstInk(s[1..]);
      k := r + 1;
      assert s[..k] == [s[0]] + s[1..][..r];
    } else {
      k := 0;
    }
  }

  lemma LastInk(s: string) returns (k: nat)
    requires !Blank(s)
    ensures k < |s| && !IsSpace(s[k]) && Blank(s[k + 1..])
  {
    if IsSpace(Last(s)) {
      var c :| c in s && !IsSpace(c);
      assert s == s[..|s| - 1] + [Last(s)];
      k := LastInk(s[..|s| - 1]);
      assert s[k + 1..] == s[..|s| - 1][k + 1..] + [Last(s)];
    } else {
      k := |s| - 1;
    }
  }

  /** Text other than white space on either side keeps a template from standing alone. */
  lemma InkOutside(pre: string, t: string, post: string)
    requires Braceless(pre) && Braceless(post) && (!Blank(pre) || !Blank(post))
    ensures SingleRef(pre + t + post).None?
  {
    var s := pre + t + post;
    if SingleRef(s).Some? {
      WholeGroupHasTwo(Trim(s));
      if !Blank(pre) {
        var k := FirstInk(pre);
        assert s[..k] == pre[..k] && s[k] == pre[k] && pre[k] in pre;
        TrimHead(s, k);
      } else {
        var k := LastInk(post);
        var j := |pre + t| + k;
        assert s[j + 1..] == post[k + 1..] && s[j] == post[k] && post[k] in post;
        TrimTail(s, j);
      }
    }
  }

  function Concat(parts: seq<string>): string {
    if parts == [] then "" else parts[0] + Concat(parts[1..])
  }

  lemma {:induction false} ConcatSplit(parts: seq<string>, k: nat)
    requires k < |parts|
    ensures Concat(parts) == Concat(parts[..k]) + parts[k] + Concat(parts[k + 1..])
    decreases k
  {
    if k > 0 {
      var rest := parts[1..];
      ConcatSplit(rest, k - 1);
      assert parts[..k][1..] == rest[..k - 1] && rest[k..] == parts[k + 1..];
      Regroup(parts[0], Concat(rest[..k - 1]), rest[k - 1], Concat(rest[k..]));
    } else {
      assert parts[..0] == [];
    }
  }

  function WrittenAll(pieces: seq<Piece>): (parts: seq<string>)
    requires WellFormed(pieces)
    ensures |parts| == |pieces| && forall j :: 0 <= j < |pieces| ==> parts[j] == Written(pieces[j])
  {
    if pieces == [] then [] else [Written(pieces[0])] + WrittenAll(pieces[1..])
  }

  lemma {:induction false} SourceIsConcat(pieces: seq<Piece>)
    requires WellFormed(pieces)
    ensures Source(pieces) == Concat(WrittenAll(pieces))
  {
    if pieces != [] {
      SourceIsConcat(pieces[1..]);
      assert WrittenAll(pieces)[1..] == WrittenAll(pieces[1..]);
    }
  }

  lemma SourceSplit(pieces: seq<Piece>, k: nat)
    requires WellFormed(pieces) && k < |pieces|
    ensures Source(pieces) == Source(pieces[..k]) + Written(pieces[k]) + Source(pieces[k + 1..])
  {
    var parts := WrittenAll(pieces);
    SourceIsConcat(pieces);
    SourceIsConcat(pieces[..k]);
    SourceIsConcat(pieces[k + 1..]);
    ConcatSplit(parts, k);
    WrittenPrefix(pieces, k);
    WrittenSuffix(pieces, k + 1);
  }

  lemma {:induction false} WrittenPrefix(pieces: seq<Piece>, k: nat)
    requires WellFormed(pieces) && k <= |pieces|
    ensures WrittenAll(pieces[..k]) == WrittenAll(pieces)[..k]
    decreases k
  {
    if k > 0 {
      WrittenPrefix(pieces[1..], k - 1);
      assert pieces[..k][1..] == pieces[1..][..k - 1];
    }
  }

  lemma {:induction false} WrittenSuffix(pieces: seq<Piece>, k: nat)
    requires WellFormed(pieces) && k <= |pieces|
    ensures WrittenAll(pieces[k..]) == WrittenAll(pieces)[k..]
    decreases k
  {
    if k > 0 {
      WrittenSuffix(pieces[1..], k - 1);
      assert pieces[k..] == pieces[1..][k - 1..];
    } else {
      assert pieces[0..] == pieces;
    }
  }

  lemma Regroup(a: string, b: string, c: string, d: string)
    ensures a + (b + c + d) == (a + b) + c + d
  {
  }

  lemma TextSource(pieces: seq<Piece>)
    requires WellFormed(pieces) && forall p :: p in pieces ==> p.Text?
    ensures Braceless(Source(pieces))
    ensures Blank(Source(pieces)) ==> forall p :: p in pieces ==> Blank(p.text)
  {
    if pieces != [] {
      assert pieces == [pieces[0]] + pieces[1..];
      TextSource(pieces[1..]);
      var a, b := pieces[0].text, Source(pieces[1..]);
      assert forall c :: c in a + b <==> c in a || c in b;
    }
  }

  lemma NotAloneIsNotSingle(pieces: seq<Piece>)
    requires WellFormed(pieces) && forall k :: 0 <= k < |pieces| ==> !AloneAt(pieces, k)
    ensures SingleRef(Source(pieces)).None?
  {
    if SingleRef(Source(pieces)).Some? {
      SingleHasTwo(Source(pieces));
      PiecesHaveTwoEach(pieces);
      var k := OneTemplate(pieces);
      SourceSplit(pieces, k);
      InkSomewhere(pieces, k);
      InkOutside(Source(pieces[..k]), Written(pieces[k]), Source(pieces[k + 1..]));
    }
  }

  lemma SingleHasTwo(s: string)
    requires SingleRef(s).Some?
    ensures Count(s, '}') == 2
  {
    WholeGroupHasTwo(Trim(s));
    TrimKeepsCount(s, '}');
  }

  lemma InkSomewhere(pieces: seq<Piece>, k: nat)
    requires WellFormed(pieces) && k < |pieces| && !AloneAt(pieces, k)
    requires pieces[k].Template? && forall j :: 0 <= j < |pieces| && j != k ==> pieces[j].Text?
    ensures var a, b := Source(pieces[..k]), Source(pieces[k + 1..]);
      Braceless(a) && Braceless(b) && (!Blank(a) || !Blank(b))
  {
    TextSource(pieces[..k]);
    TextSource(pieces[k + 1..]);
    var j :| 0 <= j < |pieces| && j != k && !Blank(pieces[j].text);
    if j < k {
      assert pieces[j] in pieces[..k];
    } else {
      assert pieces[j] in pieces[k + 1..];
    }
  }

  lemma TextFillsItself(pf: Platform, outputs: Outputs, pieces: seq<Piece>)
    requires WellFormed(pieces) && forall p :: p in pieces ==> p.Text?
    ensures Filled(pf, outputs, pieces) == Source(pieces)
  {
    if pieces != [] {
      assert pieces == [pieces[0]] + pieces[1..];
      TextFillsItself(pf, outputs, pieces[1..]);
    }
  }

  /** Templates among other text, or several of them, are filled in one by one. */
  lemma {:induction false} FilledTemplates(pf: Platform, outputs: Outputs, pieces: seq<Piece>)
    requires WellFormed(pieces) && forall k :: 0 <= k < |pieces| ==> !AloneAt(pieces, k)
    ensures Resolve(pf, outputs, Str(Source(pieces))) == Some(Str(Filled(pf, outputs, pieces)))
  {
    PiecesAreRead(pf, outputs, "", pieces);
    assert "" + Source(pieces) == Source(pieces);
    ExprsAreSafe(pieces);
    NotAloneIsNotSingle(pieces);
    if Exprs(pieces) == [] {
      TextFillsItself(pf, outputs, pieces);
    }
  }

  /** The common case: one template with text around it. */
  lemma {:induction false} EmbeddedTemplate(pf: Platform, outputs: Outputs, pre: string, id: string, path: seq<string>, post: string)
    requires Proper(id, path) && Braceless(pre) && Braceless(post) && (!Blank(pre) || !Blank(post))
    ensures var t, found := Written(Template(id, path)), Found(pf, outputs, id, path);
      Resolve(pf, outputs, Str(pre + t + post)) == Some(Str(pre + (if found.Some? then pf.render(found.value) else t) + post))
  {
    var pieces := [Text(pre), Template(id, path), Text(post)];
    SourceOfThree(pre, id, path, post);
    FilledOfThree(pf, outputs, pre, id, path, post);
    forall k | 0 <= k < |pieces| ensures !AloneAt(pieces, k) {
      assert pieces[0] == Text(pre) && pieces[2] == Text(post);
    }
    FilledTemplates(pf, outputs, pieces);
  }

  lemma {:induction false} FilledOfThree(pf: Platform, outputs: Outputs, pre: string, id: string, path: seq<string>, post: string)
    requires Braceless(pre) && Braceless(post) && Proper(id, path) && WellFormed([Text(pre), Template(id, path), Text(post)])
    ensures var t, found := Written(Template(id, path)), Found(pf, outputs, id, path);
      Filled(pf, outputs, [Text(pre), Template(id, path), Text(post)])
        == pre + (if found.Some? then pf.render(found.value) else t) + post
  {
    FilledText(pf, outputs, pre, [Template(id, path), Text(post)]);
    FilledTemplate(pf, outputs, id, path, [Text(post)]);
    FilledText(pf, outputs, post, []);
    assert [Text(pre)] + [Template(id, path), Text(post)] == [Text(pre), Template(id, path), Text(post)];
    assert [Template(id, path)] + [Text(post)] == [Template(id, path), Text(post)];
    assert [Text(post)] + [] == [Text(post)];
    var found := Found(pf, outputs, id, path);
    Glue(pre, if found.Some? then pf.render(found.value) else Written(Template(id, path)), post);
  }

  lemma Glue(a: string, b: string, c: string)
    ensures a + (b + (c + "")) == a + b + c
  {
  }

  lemma {:induction false} FilledText(pf: Platform, outputs: Outputs, text: string, rest: seq<Piece>)
    requires Braceless(text) && WellFormed(rest)
    ensures WellFormed([Text(text)] + rest) && Filled(pf, outputs, [Text(text)] + rest) == text + Filled(pf, outputs, rest)
  {
    assert ([Text(text)] + rest)[1..] == rest;
  }

  lemma {:induction false} FilledTemplate(pf: Platform, outputs: Outputs, id: string, path: seq<string>, rest: seq<Piece>)
    requires Proper(id, path) && WellFormed(rest)
    ensures WellFormed([Template(id, path)] + rest)
    ensures var found := Found(pf, outputs, id, path);
      Filled(pf, outputs, [Template(id, path)] + rest)
        == (if found.Some? then pf.render(found.value) else Written(Template(id, path))) + Filled(pf, outputs, rest)
  {
    assert ([Template(id, path)] + rest)[1..] == rest;
  }
}
