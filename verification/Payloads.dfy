// What a payload holds: templates inside arrays and objects, templates that are refused, values
// without templates, and the outputs of the dependencies.
module Payloads {
  import opened Collections
  import opened WorkflowTypes
  import opened StepContext
  import opened Templates

  // ---- Inside arrays and objects ----

  /** An array resolves element by element, and throws when one of them does. */
  lemma {:induction false} ItemsResolve(pf: Platform, outputs: Outputs, items: seq<Value>)
    ensures var r := ResolveItems(pf, outputs, items);
      && (r.Some? <==> forall k :: 0 <= k < |items| ==> Resolve(pf, outputs, items[k]).Some?)
      && (r.Some? ==> |r.value| == |items| && forall k :: 0 <= k < |items| ==> Some(r.value[k]) == Resolve(pf, outputs, items[k]))
    decreases |items|
  {
    if items != [] {
      ItemsResolve(pf, outputs, items[1..]);
      assert forall k :: 1 <= k < |items| ==> items[k] == items[1..][k - 1];
      if ResolveItems(pf, outputs, items[1..]).None? {
        var k :| 0 <= k < |items[1..]| && Resolve(pf, outputs, items[1..][k]).None?;
        assert Resolve(pf, outputs, items[k + 1]).None?;
      }
    }
  }

  /** An object keeps its keys and resolves their values; it throws when a value does, or at a key that reaches the prototype. */
  lemma {:induction false} FieldsResolve(pf: Platform, outputs: Outputs, fields: seq<Field>)
    ensures var r := ResolveFields(pf, outputs, fields);
      && (r.Some? <==> forall k :: 0 <= k < |fields| ==> IsHarmless(fields[k].key) && Resolve(pf, outputs, fields[k].value).Some?)
      && (r.Some? ==> |r.value| == |fields| && forall k :: 0 <= k < |fields| ==>
            r.value[k].key == fields[k].key && Some(r.value[k].value) == Resolve(pf, outputs, fields[k].value))
    decreases |fields|
  {
    if fields != [] {
      FieldsResolve(pf, outputs, fields[1..]);
      assert forall k :: 1 <= k < |fields| ==> fields[k] == fields[1..][k - 1];
      if ResolveFields(pf, outputs, fields[1..]).None? {
        var k :| 0 <= k < |fields[1..]| && !(IsHarmless(fields[1..][k].key) && Resolve(pf, outputs, fields[1..][k].value).Some?);
        assert !(IsHarmless(fields[k + 1].key) && Resolve(pf, outputs, fields[k + 1].value).Some?);
      }
    }
  }

  // ---- Templates that are refused ----

  predicate IsKey(key: string) {
    key != "" && forall c :: c in key ==> c == '.' || 'a' <= c <= 'z' || 'A' <= c <= 'Z' || '0' <= c <= '9' || c in "_-"
  }

  /** An expression reads as a reference in one way only. */
  lemma RefIsExact(e: string)
    requires ParseRef(e).Some?
    ensures var ref := ParseRef(e).value;
      e == "nodes." + ref.nodeId + ".output." + ref.keyPath && ref.nodeId != "" && IsName(ref.nodeId) && IsKey(ref.keyPath)
  {
    var rest := e[6..];
    var k := Find(rest, '.', 0);
    var tail := rest[k..];
    assert e == "nodes." + rest;
    assert rest == rest[..k] + tail;
    assert tail == ".output." + tail[8..] && tail[8..] == rest[k + 8..];
  }

  /** The text between the braces, trimmed, names a node and a key, and no dotted part of it reaches the prototype. */
  ghost predicate Acceptable(x: string) {
    && (exists id, key :: Trim(x) == "nodes." + id + ".output." + key && id != "" && IsName(id) && IsKey(key))
    && forall part :: part in Split(Trim(x), '.') ==> IsHarmless(part)
  }

  lemma SafeIsAcceptable(x: string)
    requires SafeExpr(x)
    ensures Acceptable(x)
  {
    RefIsExact(Trim(x));
    var ref := ParseRef(Trim(x)).value;
    assert Trim(x) == "nodes." + ref.nodeId + ".output." + ref.keyPath;
    forall part | part in Split(Trim(x), '.') ensures IsHarmless(part) {
      assert part !in UNSAFE;
    }
  }

  /** Anything else between double braces makes the substitution throw, whatever stands around it. */
  lemma BadTemplateThrows(pf: Platform, outputs: Outputs, pre: string, x: string, post: string)
    requires '{' !in pre && x != "" && '}' !in x && !Acceptable(x)
    ensures Resolve(pf, outputs, Str(pre + "{{" + x + "}}" + post)).None?
  {
    var s := pre + "{{" + x + "}}" + post;
    forall k | 0 <= k < |pre| ensures s[k] != '{' {
      assert s[k] == pre[k] && pre[k] in pre;
    }
    TextHoldsNoGroup(s, 0, |pre|);
    GroupSpans(pre, x, post);
    GroupsGroup(s, |pre|, |pre| + |x| + 4, x);
    assert Groups(s, 0)[0] == x;
    if SafeExpr(x) {
      SafeIsAcceptable(x);
    }
  }

  lemma GroupSpans(pre: string, x: string, post: string)
    requires x != "" && '}' !in x
    ensures var s := pre + "{{" + x + "}}" + post;
      GroupEnd(s, |pre|) == Some(|pre| + |x| + 4) && s[|pre| + 2..|pre| + |x| + 2] == x
  {
    var s := pre + "{{" + x + "}}" + post;
    assert forall j :: 0 <= j < |x| ==> s[|pre| + 2 + j] == x[j];
    assert s[|pre|] == '{' && s[|pre| + 1] == '{' && s[|pre| + 2 + |x|] == '}' && s[|pre| + 3 + |x|] == '}';
    forall j | |pre| + 2 <= j < |pre| + 2 + |x| ensures s[j] != '}' {
      assert s[j] == x[j - |pre| - 2] && x[j - |pre| - 2] in x;
    }
    FindAt(s, '}', |pre| + 2, |pre| + 2 + |x|);
  }

  // ---- Values without templates ----

  predicate NoTemplate(s: string) {
    forall i :: 0 <= i < |s| - 1 ==> s[i] != '{' || s[i + 1] != '{'
  }

  lemma {:induction false} NoGroups(s: string, i: nat)
    requires NoTemplate(s) && i <= |s|
    ensures Groups(s, i) == []
    decreases |s| - i
  {
    if i < |s| {
      NoGroups(s, i + 1);
      assert GroupEnd(s, i).None?;
    }
  }

  /** No double brace in any string, and no key that reaches the prototype. */
  predicate Plain(v: Value)
    decreases v
  {
    match v
    case Str(s) => NoTemplate(s)
    case Arr(items) => forall x :: x in items ==> Plain(x)
    case Obj(fields) => forall f :: f in fields ==> IsHarmless(f.key) && Plain(f.value)
    case _ => true
  }

  /** A plain value stays as it is. */
  lemma {:induction false} PlainIsUnchanged(pf: Platform, outputs: Outputs, v: Value)
    requires Plain(v)
    ensures Resolve(pf, outputs, v) == Some(v)
    decreases v
  {
    match v
    case Str(s) => NoGroups(s, 0);
    case Arr(items) =>
      ItemsResolve(pf, outputs, items);
      forall k | 0 <= k < |items| ensures Resolve(pf, outputs, items[k]) == Some(items[k]) {
        PlainIsUnchanged(pf, outputs, items[k]);
      }
      assert ResolveItems(pf, outputs, items).value == items;
    case Obj(fields) =>
      FieldsResolve(pf, outputs, fields);
      forall k | 0 <= k < |fields| ensures IsHarmless(fields[k].key) && Resolve(pf, outputs, fields[k].value) == Some(fields[k].value) {
        assert fields[k] in fields;
        PlainIsUnchanged(pf, outputs, fields[k].value);
      }
      assert ResolveFields(pf, outputs, fields).value == fields;
    case _ =>
  }

  // ---- Fields of a payload ----

  /** The value of a field, if the object has it. */
  function FieldOf(fields: seq<Field>, key: string): Option<Value> {
    var i := FirstIndex(fields, (f: Field) => f.key == key);
    if i < |fields| then Some(fields[i].value) else None
  }

  lemma FieldOfCons(f: Field, rest: seq<Field>, key: string)
    ensures FieldOf([f] + rest, key) == if f.key == key then Some(f.value) else FieldOf(rest, key)
  {
    assert ([f] + rest)[1..] == rest;
  }

  /** Setting a field sets that field, and no other. */
  lemma {:induction false} SetFieldSets(fields: seq<Field>, key: string, v: Value, other: string)
    ensures FieldOf(SetField(fields, key, v), other) == if other == key then Some(v) else FieldOf(fields, other)
  {
    if fields == [] {
      FieldOfCons(Field(key, v), [], other);
      assert [Field(key, v)] + [] == [Field(key, v)];
    } else {
      var f, rest := fields[0], fields[1..];
      assert fields == [f] + rest;
      FieldOfCons(f, rest, other);
      if f.key == key {
        FieldOfCons(Field(key, v), rest, other);
      } else {
        SetFieldSets(rest, key, v, other);
        FieldOfCons(f, SetField(rest, key, v), other);
      }
    }
  }

  /** The parent outputs are those of the dependencies that have one. */
  lemma {:induction false} ParentOutputsHold(outputs: Outputs, deps: seq<string>, d: string)
    ensures FieldOf(ParentOutputs(outputs, deps), d) == if d in deps && d in outputs then Some(outputs[d]) else None
  {
    if deps != [] {
      var init, last := deps[..|deps| - 1], Last(deps);
      ParentOutputsHold(outputs, init, d);
      assert deps == init + [last];
      if last in outputs {
        SetFieldSets(ParentOutputs(outputs, init), last, outputs[last], d);
      }
    }
  }

  lemma {:induction false} SameKeysSameField(a: seq<Field>, b: seq<Field>, key: string)
    requires |a| == |b| && forall k :: 0 <= k < |a| ==> a[k].key == b[k].key
    ensures FieldOf(a, key).Some? <==> FieldOf(b, key).Some?
    ensures FieldOf(a, key).Some? ==>
      exists k :: 0 <= k < |a| && a[k].key == key && FieldOf(a, key) == Some(a[k].value) && FieldOf(b, key) == Some(b[k].value)
  {
    if a != [] {
      assert a == [a[0]] + a[1..] && b == [b[0]] + b[1..];
      FieldOfCons(a[0], a[1..], key);
      FieldOfCons(b[0], b[1..], key);
      SameKeysSameField(a[1..], b[1..], key);
      if a[0].key != key && FieldOf(a, key).Some? {
        var k :| 0 <= k < |a[1..]| && a[1..][k].key == key && FieldOf(a[1..], key) == Some(a[1..][k].value) && FieldOf(b[1..], key) == Some(b[1..][k].value);
        assert a[k + 1] == a[1..][k] && b[k + 1] == b[1..][k];
      }
    }
  }

  const PARENTS := "_dependencyOutputs"

  /** The one field is the other with its templates filled in. */
  ghost predicate HoldsResolved(pf: Platform, outputs: Outputs, field: Option<Value>, raw: Option<Value>) {
    field == if raw.Some? then Resolve(pf, outputs, raw.value) else None
  }

  /** The value is an object that maps exactly the dependencies that have an output to that output. */
  ghost predicate HoldsParents(v: Option<Value>, outputs: Outputs, deps: seq<string>) {
    && v.Some? && v.value.Obj?
    && forall d :: FieldOf(v.value.fields, d) == if d in deps && d in outputs then Some(outputs[d]) else None
  }

  /**
   * A payload holds the raw fields with their templates filled in; and when the node lists
   * dependencies, one field with the outputs of those that have one.
   */
  lemma PayloadHolds(pf: Platform, outputs: Outputs, node: Node, raw: seq<Field>, key: string)
    requires BuildPayload(pf, outputs, node, raw).Some?
    ensures var p := BuildPayload(pf, outputs, node, raw).value;
      && p.Obj?
      && (key == PARENTS && node.dependencies.Some? ==> HoldsParents(FieldOf(p.fields, key), outputs, node.dependencies.value))
      && (key != PARENTS || node.dependencies.None? ==> HoldsResolved(pf, outputs, FieldOf(p.fields, key), FieldOf(raw, key)))
  {
    var resolved := ResolveFields(pf, outputs, raw).value;
    FieldsResolve(pf, outputs, raw);
    SameKeysSameField(raw, resolved, key);
    if node.dependencies.Some? {
      var parents := ParentOutputs(outputs, node.dependencies.value);
      SetFieldSets(resolved, PARENTS, Obj(parents), key);
      forall d ensures FieldOf(parents, d) == if d in node.dependencies.value && d in outputs then Some(outputs[d]) else None {
        ParentOutputsHold(outputs, node.dependencies.value, d);
      }
    }
  }

  /** A raw payload without templates is always built, and holds exactly its own fields besides the parents' outputs. */
  lemma PlainPayloadHolds(pf: Platform, outputs: Outputs, node: Node, raw: seq<Field>)
    requires Plain(Obj(raw))
    ensures BuildPayload(pf, outputs, node, raw).Some?
    ensures var p := BuildPayload(pf, outputs, node, raw).value;
      && p.Obj?
      && (node.dependencies.None? ==> p == Obj(raw))
      && forall key :: key != PARENTS ==> FieldOf(p.fields, key) == FieldOf(raw, key)
  {
    PlainIsUnchanged(pf, outputs, Obj(raw));
    if node.dependencies.Some? {
      var parents := Obj(ParentOutputs(outputs, node.dependencies.value));
      forall key | key != PARENTS ensures FieldOf(SetField(raw, PARENTS, parents), key) == FieldOf(raw, key) {
        SetFieldSets(raw, PARENTS, parents, key);
      }
    }
  }
}
