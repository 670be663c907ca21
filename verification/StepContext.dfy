// WorkflowStepContext: node outputs and template substitution.
module StepContext {
  import opened Collections
  import opened WorkflowTypes

  /**
   * What the template code needs from the platform: property lookup, the text of a
   * value (JSON for objects), and the stored form of an output after redaction and
   * the size check (None when that throws).
   */
  datatype Platform = Platform(
    member: (Value, string) -> Option<Value>,
    render: Value -> string,
    store: Value -> Option<Value>)

  type Outputs = map<string, Value>

  datatype Ref = Ref(nodeId: string, keyPath: string)

  // ---- Scanning a string for {{nodes.<id>.output.<key>}} ----

  predicate IsIdChar(c: char) {
    'a' <= c <= 'z' || 'A' <= c <= 'Z' || '0' <= c <= '9' || c == '_' || c == '-'
  }

  predicate IsPathChar(c: char) {
    IsIdChar(c) || c == '.'
  }

  function TrimLeft(s: string): string {
    if s != [] && IsSpace(s[0]) then TrimLeft(s[1..]) else s
  }

  function TrimRight(s: string): string {
    if s != [] && IsSpace(Last(s)) then TrimRight(s[..|s| - 1]) else s
  }

  function Trim(s: string): string {
    TrimRight(TrimLeft(s))
  }

  /** The first index at or after k that holds c, or the length. */
  function Find(s: string, c: char, k: nat): (r: nat)
    requires k <= |s|
    ensures k <= r <= |s|
    decreases |s| - k
  {
    if k == |s| || s[k] == c then k else Find(s, c, k + 1)
  }

  function Split(s: string, c: char): seq<string>
    decreases |s|
  {
    var k := Find(s, c, 0);
    if k == |s| then [s] else [s[..k]] + Split(s[k + 1..], c)
  }

  /** The end of a `{{...}}` group that starts at i: no closing brace inside, at least one character. */
  function GroupEnd(s: string, i: nat): (r: Option<nat>)
    requires i <= |s|
    ensures r.Some? ==> i + 5 <= r.value <= |s|
  {
    if i + 2 > |s| || s[i] != '{' || s[i + 1] != '{' then None
    else
      var k := Find(s, '}', i + 2);
      if k > i + 2 && k + 1 < |s| && s[k + 1] == '}' then Some(k + 2) else None
  }

  /** The contents of all groups, left to right. */
  function Groups(s: string, i: nat): seq<string>
    requires i <= |s|
    decreases |s| - i
  {
    if i == |s| then []
    else if GroupEnd(s, i).Some? then
      var e := GroupEnd(s, i).value;
      [s[i + 2..e - 2]] + Groups(s, e)
    else Groups(s, i + 1)
  }

  /** nodes.<id>.output.<key>, where the id has no dot. */
  function ParseRef(e: string): Option<Ref> {
    if "nodes." <= e then
      var rest := e[6..];
      var k := Find(rest, '.', 0);
      if 0 < k && (forall c :: c in rest[..k] ==> IsIdChar(c)) && ".output." <= rest[k..] then
        var key := rest[k + 8..];
        if key != "" && forall c :: c in key ==> IsPathChar(c) then Some(Ref(rest[..k], key)) else None
      else None
    else None
  }

  const UNSAFE: set<string> := {"__proto__", "constructor", "prototype"}

  predicate SafeExpr(group: string) {
    && (forall part :: part in Split(Trim(group), '.') ==> part !in UNSAFE)
    && ParseRef(Trim(group)).Some?
  }

  // ---- Substitution ----

  /** Walks a key path into a value; None when some step is missing. */
  function Navigate(pf: Platform, v: Value, parts: seq<string>): Option<Value>
    decreases |parts|
  {
    if parts == [] then Some(v)
    else
      var next := pf.member(v, parts[0]);
      if next.None? then None else Navigate(pf, next.value, parts[1..])
  }

  function Lookup(pf: Platform, outputs: Outputs, ref: Ref): Option<Value> {
    if ref.nodeId in outputs then Navigate(pf, outputs[ref.nodeId], Split(ref.keyPath, '.')) else None
  }

  /** The reference of a string that is nothing but one template. */
  function SingleRef(s: string): Option<Ref> {
    var t := Trim(s);
    if GroupEnd(t, 0) == Some(|t|) then ParseRef(t[2..|t| - 2]) else None
  }

  /** Replaces every template that resolves; the others stay as they are. */
  function Replace(pf: Platform, outputs: Outputs, s: string, i: nat): string
    requires i <= |s|
    decreases |s| - i
  {
    if i == |s| then ""
    else
      var e := GroupEnd(s, i);
      if e.Some? && ParseRef(s[i + 2..e.value - 2]).Some? then
        var found := Lookup(pf, outputs, ParseRef(s[i + 2..e.value - 2]).value);
        (if found.Some? then pf.render(found.value) else s[i..e.value]) + Replace(pf, outputs, s, e.value)
      else [s[i]] + Replace(pf, outputs, s, i + 1)
  }

  function ResolveString(pf: Platform, outputs: Outputs, s: string): Option<Value> {
    var groups := Groups(s, 0);
    if groups == [] then Some(Str(s))
    else if exists g :: g in groups && !SafeExpr(g) then None
    else if SingleRef(s).Some? then
      var found := Lookup(pf, outputs, SingleRef(s).value);
      Some(if found.Some? then found.value else Str(s))
    else Some(Str(Replace(pf, outputs, s, 0)))
  }

  /** resolveInterpolation; None stands for the thrown error. */
  function Resolve(pf: Platform, outputs: Outputs, v: Value): (r: Option<Value>)
    ensures v.Obj? && r.Some? ==> r.value.Obj?
    decreases v, 0
  {
    match v
    case Str(s) => ResolveString(pf, outputs, s)
    case Arr(items) =>
      var r := ResolveItems(pf, outputs, items);
      if r.None? then None else Some(Arr(r.value))
    case Obj(fields) =>
      var r := ResolveFields(pf, outputs, fields);
      if r.None? then None else Some(Obj(r.value))
    case _ => Some(v)
  }

  function ResolveItems(pf: Platform, outputs: Outputs, items: seq<Value>): Option<seq<Value>>
    decreases items, 1
  {
    if items == [] then Some([])
    else
      var head, tail := Resolve(pf, outputs, items[0]), ResolveItems(pf, outputs, items[1..]);
      if head.None? || tail.None? then None else Some([head.value] + tail.value)
  }

  function ResolveFields(pf: Platform, outputs: Outputs, fields: seq<Field>): Option<seq<Field>>
    decreases fields, 1
  {
    if fields == [] then Some([])
    else if fields[0].key in UNSAFE then None
    else
      var head, tail := Resolve(pf, outputs, fields[0].value), ResolveFields(pf, outputs, fields[1..]);
      if head.None? || tail.None? then None else Some([Field(fields[0].key, head.value)] + tail.value)
  }

  // ---- What a value refers to ----

  function RefsFrom(s: string, i: nat): set<string>
    requires i <= |s|
    decreases |s| - i
  {
    if i == |s| then {}
    else
      var e := GroupEnd(s, i);
      if e.Some? && ParseRef(s[i + 2..e.value - 2]).Some? then
        {ParseRef(s[i + 2..e.value - 2]).value.nodeId} + RefsFrom(s, e.value)
      else RefsFrom(s, i + 1)
  }

  /** The nodes a value's templates name. */
  function Refs(v: Value): set<string>
    decreases v, 0
  {
    match v
    case Str(s) => RefsFrom(s, 0) + (if SingleRef(s).Some? then {SingleRef(s).value.nodeId} else {})
    case Arr(items) => RefsOfItems(items)
    case Obj(fields) => RefsOfFields(fields)
    case _ => {}
  }

  function RefsOfItems(items: seq<Value>): set<string>
    decreases items, 1
  {
    if items == [] then {} else Refs(items[0]) + RefsOfItems(items[1..])
  }

  function RefsOfFields(fields: seq<Field>): set<string>
    decreases fields, 1
  {
    if fields == [] then {} else Refs(fields[0].value) + RefsOfFields(fields[1..])
  }

  ghost predicate Agree(names: set<string>, a: Outputs, b: Outputs) {
    forall n :: n in names ==> (n in a <==> n in b) && (n in a ==> a[n] == b[n])
  }

  lemma {:induction false} ReplaceReadsOnlyRefs(pf: Platform, a: Outputs, b: Outputs, s: string, i: nat)
    requires i <= |s| && Agree(RefsFrom(s, i), a, b)
    ensures Replace(pf, a, s, i) == Replace(pf, b, s, i)
    decreases |s| - i
  {
    if i < |s| {
      var e := GroupEnd(s, i);
      if e.Some? && ParseRef(s[i + 2..e.value - 2]).Some? {
        var ref := ParseRef(s[i + 2..e.value - 2]).value;
        assert ref.nodeId in RefsFrom(s, i) && Lookup(pf, a, ref) == Lookup(pf, b, ref);
        ReplaceReadsOnlyRefs(pf, a, b, s, e.value);
      } else {
        ReplaceReadsOnlyRefs(pf, a, b, s, i + 1);
      }
    }
  }

  /** Substitution looks at the outputs of the named nodes and at nothing else. */
  lemma {:induction false} ResolveReadsOnlyRefs(pf: Platform, a: Outputs, b: Outputs, v: Value)
    requires Agree(Refs(v), a, b)
    ensures Resolve(pf, a, v) == Resolve(pf, b, v)
    decreases v, 0
  {
    match v
    case Str(s) => ReplaceReadsOnlyRefs(pf, a, b, s, 0);
    case Arr(items) => ItemsReadOnlyRefs(pf, a, b, items);
    case Obj(fields) => FieldsReadOnlyRefs(pf, a, b, fields);
    case _ =>
  }

  lemma {:induction false} ItemsReadOnlyRefs(pf: Platform, a: Outputs, b: Outputs, items: seq<Value>)
    requires Agree(RefsOfItems(items), a, b)
    ensures ResolveItems(pf, a, items) == ResolveItems(pf, b, items)
    decreases items, 1
  {
    if items != [] {
      ResolveReadsOnlyRefs(pf, a, b, items[0]);
      ItemsReadOnlyRefs(pf, a, b, items[1..]);
    }
  }

  lemma {:induction false} FieldsReadOnlyRefs(pf: Platform, a: Outputs, b: Outputs, fields: seq<Field>)
    requires Agree(RefsOfFields(fields), a, b)
    ensures ResolveFields(pf, a, fields) == ResolveFields(pf, b, fields)
    decreases fields, 1
  {
    if fields != [] {
      ResolveReadsOnlyRefs(pf, a, b, fields[0].value);
      FieldsReadOnlyRefs(pf, a, b, fields[1..]);
    }
  }

  /** Whether substitution throws is decided by the template text alone, never by the outputs. */
  lemma {:induction false} RejectionIgnoresOutputs(pf: Platform, a: Outputs, b: Outputs, v: Value)
    ensures Resolve(pf, a, v).Some? <==> Resolve(pf, b, v).Some?
    decreases v, 0
  {
    match v
    case Arr(items) => ItemRejection(pf, a, b, items);
    case Obj(fields) => FieldRejection(pf, a, b, fields);
    case _ =>
  }

  lemma {:induction false} ItemRejection(pf: Platform, a: Outputs, b: Outputs, items: seq<Value>)
    ensures ResolveItems(pf, a, items).Some? <==> ResolveItems(pf, b, items).Some?
    decreases items, 1
  {
    if items != [] {
      RejectionIgnoresOutputs(pf, a, b, items[0]);
      ItemRejection(pf, a, b, items[1..]);
    }
  }

  lemma {:induction false} FieldRejection(pf: Platform, a: Outputs, b: Outputs, fields: seq<Field>)
    ensures ResolveFields(pf, a, fields).Some? <==> ResolveFields(pf, b, fields).Some?
    decreases fields, 1
  {
    if fields != [] {
      RejectionIgnoresOutputs(pf, a, b, fields[0].value);
      FieldRejection(pf, a, b, fields[1..]);
    }
  }

  // ---- Payloads ----

  function SetField(fields: seq<Field>, key: string, v: Value): seq<Field> {
    if fields == [] then [Field(key, v)]
    else if fields[0].key == key then [Field(key, v)] + fields[1..]
    else [fields[0]] + SetField(fields[1..], key, v)
  }

  function ParentOutputs(outputs: Outputs, deps: seq<string>): seq<Field> {
    if deps == [] then []
    else
      var rest := ParentOutputs(outputs, deps[..|deps| - 1]);
      if Last(deps) in outputs then SetField(rest, Last(deps), outputs[Last(deps)]) else rest
  }

  /** buildNodeExecutionPayload for the given raw payload; None stands for the thrown error. */
  function BuildPayload(pf: Platform, outputs: Outputs, node: Node, raw: seq<Field>): Option<Value> {
    var resolved := Resolve(pf, outputs, Obj(raw));
    if resolved.None? then None
    else if node.dependencies.None? then resolved
    else Some(Obj(SetField(resolved.value.fields, "_dependencyOutputs", Obj(ParentOutputs(outputs, node.dependencies.value)))))
  }

  function RawPayload(node: Node): seq<Field> {
    if node.payload.Some? then node.payload.value else []
  }

  /** The nodes whose outputs a payload can show. */
  function Reads(node: Node, raw: seq<Field>): set<string> {
    Refs(Obj(raw)) + Elems(DependenciesOf(node))
  }

  lemma ParentsAgree(a: Outputs, b: Outputs, deps: seq<string>)
    requires Agree(Elems(deps), a, b)
    ensures ParentOutputs(a, deps) == ParentOutputs(b, deps)
  {
    if deps != [] {
      assert deps == deps[..|deps| - 1] + [Last(deps)];
      assert Last(deps) in Elems(deps);
      ParentsAgree(a, b, deps[..|deps| - 1]);
    }
  }

  /** A payload is determined by the outputs of the nodes it reads. */
  lemma PayloadReadsOnly(pf: Platform, a: Outputs, b: Outputs, node: Node, raw: seq<Field>)
    requires Agree(Reads(node, raw), a, b)
    ensures BuildPayload(pf, a, node, raw) == BuildPayload(pf, b, node, raw)
  {
    ResolveReadsOnlyRefs(pf, a, b, Obj(raw));
    ParentsAgree(a, b, DependenciesOf(node));
  }

  /** setNodeOutput: stores a sanitized copy, passes over what is not an object, or throws. */
  datatype Storing = Kept(value: Value) | Ignored | Refused

  function Stored(pf: Platform, output: Value): Storing {
    if !output.Obj? && !output.Arr? then Ignored
    else if output.Obj? && exists f :: f in output.fields && f.key in UNSAFE then Refused
    else if pf.store(output).None? then Refused
    else Kept(pf.store(output).value)
  }

  class WorkflowStepContext {
    const pf: Platform
    var outputs: Outputs

    constructor (pf: Platform)
      ensures this.pf == pf && outputs == map[]
    {
      this.pf := pf;
      outputs := map[];
    }

    /** Stores an acceptable output; one that is ignored or throws leaves the context as it was. */
    method SetNodeOutput(nodeId: string, output: Value) returns (ok: bool)
      modifies this
      ensures ok <==> !Stored(pf, output).Refused?
      ensures outputs == if Stored(pf, output).Kept? then old(outputs)[nodeId := Stored(pf, output).value] else old(outputs)
    {
      if !output.Obj? && !output.Arr? {
        return true;
      }
      if output.Obj? {
        for i := 0 to |output.fields|
          invariant outputs == old(outputs)
          invariant forall f :: f in output.fields[..i] ==> f.key !in UNSAFE
        {
          if output.fields[i].key in UNSAFE {
            return false;
          }
        }
      }
      var sanitized := pf.store(output);
      if sanitized.None? {
        return false;
      }
      outputs := outputs[nodeId := sanitized.value];
      return true;
    }

    method BuildNodeExecutionPayload(node: Node, raw: seq<Field>) returns (r: Option<Value>)
      ensures r == BuildPayload(pf, outputs, node, raw)
    {
      var resolved := Resolve(pf, outputs, Obj(raw));
      if resolved.None? {
        return None;
      }
      if node.dependencies.None? {
        return resolved;
      }
      var deps := node.dependencies.value;
      var parents: seq<Field> := [];
      for i := 0 to |deps|
        invariant parents == ParentOutputs(outputs, deps[..i])
      {
        assert deps[..i + 1][..i] == deps[..i];
        if deps[i] in outputs {
          parents := SetField(parents, deps[i], outputs[deps[i]]);
        }
      }
      assert deps[..|deps|] == deps;
      return Some(Obj(SetField(resolved.value.fields, "_dependencyOutputs", Obj(parents))));
    }
  }
}
