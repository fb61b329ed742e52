/** Rendering the compiled plan is the reference interpreter: same values, same key order, same types,
    same fallbacks, and the same error first. */
module TemplateTheorems {
  import opened Dicts
  import opened Templates
  import opened Values
  import opened Paths
  import opened Variables
  import opened Wrappers

  // ------------------------------------------------------------ matches

  lemma {:induction false} FindMarkFinds(s: string, mark: string, from: nat, k: nat)
    requires from <= k && Stands(s, k, mark) && mark != []
    ensures FindMark(s, mark, from) <= k
    decreases |s| - from
  {
    if from < k { FindMarkFinds(s, mark, from + 1, k); }
  }

  lemma RunEndUnique(text: string, i: nat, j: nat)
    requires i <= j < |text| && BraceFree(text[i..j]) && IsBrace(text[j])
    ensures RunEnd(text, i) == j
  {
    var k := RunEnd(text, i);
  }

  lemma MatchAtIff(text: string, i: nat, end: nat)
    ensures MatchAt(text, i) == Some(end) <==> IsReference(text, i, end)
  {
    if IsReference(text, i, end) {
      assert text[end - 2] == text[end - 2..end][0] == '}';
      RunEndUnique(text, i + 2, end - 2);
    }
  }

  /** The scan finds the leftmost reference, if there is one. */
  lemma {:induction false} NextMatchIsLeftmost(text: string, from: nat, start: nat, end: nat)
    ensures NextMatch(text, from) == Some((start, end)) <==>
      from <= start && IsReference(text, start, end)
      && forall i, e :: from <= i < start ==> !IsReference(text, i, e)
    decreases |text| - from
  {
    if from < |text| {
      MatchAtIff(text, from, end);
      if MatchAt(text, from).Some? {
        MatchAtIff(text, from, MatchAt(text, from).value);
      } else {
        NextMatchIsLeftmost(text, from + 1, start, end);
        forall e ensures !IsReference(text, from, e) { MatchAtIff(text, from, e); }
      }
    }
  }

  lemma {:induction false} NoMatchMeansNoReference(text: string, from: nat, start: nat, end: nat)
    requires NextMatch(text, from).None? && from <= start
    ensures !IsReference(text, start, end)
    decreases |text| - from
  {
    if from < |text| {
      if from == start { MatchAtIff(text, from, end); } else { NoMatchMeansNoReference(text, from + 1, start, end); }
    }
  }

  /** Stripping cuts something off either end. */
  lemma {:induction false} StripLeftIsSuffix(s: string)
    ensures |StripLeft(s)| <= |s| && StripLeft(s) == s[|s| - |StripLeft(s)|..]
  {
    if s != [] && IsSpace(s[0]) { StripLeftIsSuffix(s[1..]); }
  }

  lemma {:induction false} StripRightIsPrefix(s: string)
    ensures |StripRight(s)| <= |s| && StripRight(s) == s[..|StripRight(s)|]
  {
    if s != [] && IsSpace(s[|s| - 1]) { StripRightIsPrefix(s[..|s| - 1]); }
  }

  lemma StripIsInside(s: string) returns (a: nat)
    ensures a + |Strip(s)| <= |s| && s[a..a + |Strip(s)|] == Strip(s)
  {
    StripLeftIsSuffix(s);
    StripRightIsPrefix(StripLeft(s));
    a := |s| - |StripLeft(s)|;
  }

  /** A string that is one reference, margins apart, has a match. */
  lemma WholeHasMatch(text: string)
    requires Whole(text).Some?
    ensures NextMatch(text, 0).Some?
  {
    hide Strip;
    var t := Strip(text);
    var a := StripIsInside(text);
    ReferenceInside(text, a, t);
    if NextMatch(text, 0).None? { NoMatchMeansNoReference(text, 0, a, a + |t|); }
  }

  lemma ReferenceInside(text: string, a: nat, t: string)
    requires a + |t| <= |text| && text[a..a + |t|] == t && IsReference(t, 0, |t|)
    ensures IsReference(text, a, a + |t|)
  {
    var b := a + |t|;
    assert text[a..b][0..2] == text[a..a + 2];
    assert text[a..b][|t| - 2..] == text[b - 2..b];
    var inner, inner' := t[2..|t| - 2], text[a + 2..b - 2];
    forall i | 0 <= i < |inner| ensures inner[i] == inner'[i] {
      assert inner[i] == t[i + 2] == text[a..b][i + 2] == text[a + i + 2];
    }
    assert inner == inner';
  }

  /** Without a double brace there is nothing to find. */
  lemma NoDoubleBrace(text: string)
    requires FindMark(text, "{{", 0) == |text|
    ensures NextMatch(text, 0).None? && Whole(text).None?
  {
    if NextMatch(text, 0).Some? {
      FindMarkFinds(text, "{{", 0, NextMatch(text, 0).value.0);
    }
    if Whole(text).Some? { WholeHasMatch(text); }
  }

  // ------------------------------------------------------------ strings

  /** The two-segment fast path, and a fallback parsed ahead of time, change nothing. */
  lemma ReferenceAgrees(values: Namespaces, host: Host, body: string)
    ensures RenderReference(values, host, CompileReference(host, body)) == LookupBody(values, host, body)
  {
    hide Partition;
    hide Segments;
    hide Strip;
    hide Step;
    var ref := CompileReference(host, body);
    if |ref.segments| == 2 && ref.segments[0] in values {
      var cursor := Obj(values[ref.segments[0]]);
      DictHit(host, cursor, ref.segments[1], ref.path, ref.segments[..1]);
      var hit := Find(cursor.fields, ref.segments[1]);
      if hit.Some? {
        assert Walk(host, hit.value, ref.segments, 2, ref.path) == Success(hit.value);
      }
    }
  }

  lemma RenderBetween(values: Namespaces, host: Host, text: string, from: nat, to: nat, rest: seq<Piece>)
    requires from <= to <= |text|
    ensures RenderParts(values, host, Between(text, from, to) + rest)
         == match RenderParts(values, host, rest)
            case Success(s) => Success(text[from..to] + s)
            case Failure(e) => Failure(e)
  {
    hide RenderReference;
    if from < to {
      assert (Between(text, from, to) + rest)[1..] == rest;
    } else {
      assert Between(text, from, to) + rest == rest;
      var r := RenderParts(values, host, rest);
      if r.Success? { assert text[from..to] + r.value == r.value; }
    }
  }

  lemma RenderSlot(values: Namespaces, host: Host, body: string, rest: seq<Piece>)
    ensures RenderParts(values, host, [Slot(CompileReference(host, body))] + rest)
         == match Printed(values, host, body)
            case Failure(e) => Failure(e)
            case Success(text) =>
              match RenderParts(values, host, rest)
              case Success(s) => Success(text + s)
              case Failure(e) => Failure(e)
  {
    hide RenderReference;
    hide LookupBody;
    hide CompileReference;
    hide Stringify;
    ReferenceAgrees(values, host, body);
    var ref := CompileReference(host, body);
    assert ([Slot(ref)] + rest)[1..] == rest && ([Slot(ref)] + rest)[0] == Slot(ref);
  }

  lemma NextPartAgrees(values: Namespaces, host: Host, text: string, position: nat, m: (nat, nat))
    requires NextMatch(text, position) == Some(m)
    requires RenderParts(values, host, Parts(host, text, m.1)) == Substitute(values, host, text, m.1)
    ensures RenderParts(values, host, Parts(host, text, position)) == Substitute(values, host, text, position)
  {
    hide Printed;
    hide CompileReference;
    hide RenderParts;
    hide NextMatch;
    hide Between;
    hide Body;
    var body := BodyAt(text, m);
    var slot, rest := [Slot(CompileReference(host, body))], Parts(host, text, m.1);
    assert Parts(host, text, position) == Between(text, position, m.0) + (slot + rest);
    RenderBetween(values, host, text, position, m.0, slot + rest);
    RenderSlot(values, host, body, rest);
    var t, s := Printed(values, host, body), Substitute(values, host, text, m.1);
    if t.Success? && s.Success? {
      assert text[position..m.0] + (t.value + s.value) == text[position..m.0] + t.value + s.value;
    }
  }

  lemma LastPartAgrees(values: Namespaces, host: Host, text: string, position: nat)
    requires position <= |text| && NextMatch(text, position).None?
    ensures RenderParts(values, host, Parts(host, text, position)) == Substitute(values, host, text, position)
  {
    hide NextMatch;
    hide Between;
    hide LookupBody;
    hide RenderReference;
    RenderBetween(values, host, text, position, |text|, []);
    assert Between(text, position, |text|) + [] == Between(text, position, |text|);
    assert text[position..|text|] + "" == text[position..];
  }

  /** Joining the rendered parts is substituting the matches. */
  lemma {:induction false} PartsAgree(values: Namespaces, host: Host, text: string, position: nat)
    requires position <= |text|
    ensures RenderParts(values, host, Parts(host, text, position)) == Substitute(values, host, text, position)
    decreases |text| - position
  {
    hide RenderParts;
    hide Parts;
    hide Substitute;
    var found := NextMatch(text, position);
    if found.None? {
      LastPartAgrees(values, host, text, position);
    } else {
      PartsAgree(values, host, text, found.value.1);
      NextPartAgrees(values, host, text, position, found.value);
    }
  }

  lemma SlotsMeanMatches(host: Host, text: string, position: nat)
    requires position <= |text|
    ensures HasSlot(Parts(host, text, position)) <==> NextMatch(text, position).Some?
  {
    hide CompileReference;
    hide Body;
    var found := NextMatch(text, position);
    if found.Some? {
      var slot := Slot(CompileReference(host, BodyAt(text, found.value)));
      var before := Between(text, position, found.value.0);
      assert Parts(host, text, position)[|before|] == slot;
    }
  }

  lemma StringAgrees(values: Namespaces, host: Host, text: string)
    ensures Render(values, host, CompiledString(host, text)) == ResolveString(values, host, text)
  {
    hide LookupBody;
    hide CompileReference;
    hide RenderReference;
    hide RenderParts;
    hide Parts;
    if FindMark(text, "{{", 0) == |text| {
      NoDoubleBrace(text);
      assert text[0..] == text;
    } else if Whole(text).Some? {
      ReferenceAgrees(values, host, Whole(text).value);
    } else {
      PartsAgree(values, host, text, 0);
      SlotsMeanMatches(host, text, 0);
      assert text[0..] == text;
    }
  }

  // ------------------------------------------------------------ whole values

  /** Every object in the value is a dict: no key stands twice. */
  ghost predicate IsValue(v: Json) {
    match v
    case Obj(fields) => DistinctKeys(fields) && forall f :: f in fields ==> IsValue(f.1)
    case Arr(items, _) => forall i :: i in items ==> IsValue(i)
    case _ => true
  }

  lemma {:induction false} CompiledField(host: Host, fields: Fields, i: nat)
    requires i < |fields|
    ensures |CompileFields(host, fields)| == |fields|
    ensures CompileFields(host, fields)[i] == (fields[i].0, Compile(host, fields[i].1))
  {
    hide Compile;
    if |fields| > 1 { CompiledField(host, fields[1..], if i == 0 then 0 else i - 1); }
  }

  lemma {:induction false} CompiledItem(host: Host, items: seq<Json>, i: nat)
    requires i < |items|
    ensures |CompileItems(host, items)| == |items|
    ensures CompileItems(host, items)[i] == Compile(host, items[i])
  {
    hide Compile;
    if |items| > 1 { CompiledItem(host, items[1..], if i == 0 then 0 else i - 1); }
  }

  /** What is known of one value below the one at hand. */
  ghost predicate Agrees(values: Namespaces, host: Host, v: Json) {
    && Render(values, host, Compile(host, v)) == Resolve(values, host, v)
    && (Compile(host, v).Static? ==> Compile(host, v).value == v)
  }

  /** Fields whose plans are all static resolve to themselves. */
  lemma {:induction false} StaticFields(values: Namespaces, host: Host, fields: Fields)
    requires forall f :: f in fields ==> Agrees(values, host, f.1) && Compile(host, f.1).Static?
    ensures ResolveFields(values, host, fields) == Success(fields)
  {
    hide Compile;
    if fields != [] {
      assert fields[0] in fields;
      assert Agrees(values, host, fields[0].1);
      StaticRender(values, host, Compile(host, fields[0].1));
      StaticFields(values, host, fields[1..]);
      assert fields == [(fields[0].0, fields[0].1)] + fields[1..];
    }
  }

  lemma {:induction false} StaticItems(values: Namespaces, host: Host, items: seq<Json>)
    requires forall v :: v in items ==> Agrees(values, host, v) && Compile(host, v).Static?
    ensures ResolveItems(values, host, items) == Success(items)
  {
    hide Compile;
    if items != [] {
      assert Agrees(values, host, items[0]);
      StaticRender(values, host, Compile(host, items[0]));
      StaticItems(values, host, items[1..]);
      assert items == [items[0]] + items[1..];
    }
  }

  /** With the first fields done and the holes of the others open, overwriting the holes resolves the rest. */
  lemma {:induction false} OverwriteAgrees(values: Namespaces, host: Host, done: Fields, fields: Fields)
    requires DistinctKeys(done + fields)
    requires forall f :: f in fields ==> Agrees(values, host, f.1)
    ensures Overwrite(values, host, done + Slots(CompileFields(host, fields)), Dynamic(CompileFields(host, fields)))
         == match ResolveFields(values, host, fields)
            case Success(rest) => Success(done + rest)
            case Failure(e) => Failure(e)
    decreases |fields|
  {
    hide Compile;
    hide Resolve;
    hide Render;
    if fields == [] {
      assert done + [] == done;
    } else {
      var (key, v) := fields[0];
      var plan, rest := Compile(host, v), CompileFields(host, fields[1..]);
      var items := [(key, plan)] + rest;
      assert items == CompileFields(host, fields) && items[1..] == rest;
      assert fields[0] in fields;
      assert Agrees(values, host, v);
      KeyIsNew(done, fields);
      var resolved := Resolve(values, host, v);
      if plan.Static? {
        StaticRender(values, host, plan);
        assert Dynamic(items) == Dynamic(rest);
        assert done + Slots(items) == done + [(key, v)] + Slots(rest);
        NextFields(done, fields, v);
        OverwriteAgrees(values, host, done + [(key, v)], fields[1..]);
        Prepended(done, (key, v), ResolveFields(values, host, fields[1..]));
      } else {
        assert Dynamic(items) == [(key, plan)] + Dynamic(rest) && Dynamic(items)[1..] == Dynamic(rest);
        if resolved.Success? {
          assert done + Slots(items) == done + [(key, Null)] + Slots(rest);
          PutPresent(done, key, Null, resolved.value, Slots(rest));
          NextFields(done, fields, resolved.value);
          OverwriteAgrees(values, host, done + [(key, resolved.value)], fields[1..]);
          Prepended(done, (key, resolved.value), ResolveFields(values, host, fields[1..]));
        }
      }
    }
  }

  lemma StaticRender(values: Namespaces, host: Host, plan: Plan)
    requires plan.Static?
    ensures Render(values, host, plan) == Success(plan.value)
  {}

  lemma KeyIsNew(done: Fields, fields: Fields)
    requires DistinctKeys(done + fields) && fields != []
    ensures !HasKey(done, fields[0].0)
  {
    forall i | 0 <= i < |done| ensures done[i].0 != fields[0].0 {
      assert (done + fields)[i] == done[i] && (done + fields)[|done|] == fields[0];
    }
  }

  lemma NextFields(done: Fields, fields: Fields, v: Json)
    requires DistinctKeys(done + fields) && fields != []
    ensures DistinctKeys(done + [(fields[0].0, v)] + fields[1..])
  {
    var next := done + [(fields[0].0, v)] + fields[1..];
    forall i, j | 0 <= i < j < |next| ensures next[i].0 != next[j].0 {
      assert next[i].0 == (done + fields)[i].0 && next[j].0 == (done + fields)[j].0;
    }
  }

  lemma Prepended<T>(done: seq<T>, x: T, rest: Result<seq<T>, Trouble>)
    ensures rest.Success? ==> done + [x] + rest.value == done + ([x] + rest.value)
  {}

  lemma {:induction false} UpdateAgrees(values: Namespaces, host: Host, done: seq<Json>, items: seq<Json>)
    requires forall v :: v in items ==> Agrees(values, host, v)
    ensures Update(values, host, done + Cells(CompileItems(host, items)), Updates(CompileItems(host, items), |done|))
         == match ResolveItems(values, host, items)
            case Success(rest) => Success(done + rest)
            case Failure(e) => Failure(e)
    decreases |items|
  {
    hide Compile;
    hide Resolve;
    hide Render;
    if items == [] {
      assert done + [] == done;
    } else {
      var v := items[0];
      var plan, rest := Compile(host, v), CompileItems(host, items[1..]);
      var plans := [plan] + rest;
      assert plans == CompileItems(host, items) && plans[1..] == rest;
      assert Agrees(values, host, v);
      var resolved := Resolve(values, host, v);
      if plan.Static? {
        StaticRender(values, host, plan);
        assert Updates(plans, |done|) == Updates(rest, |done| + 1);
        assert done + Cells(plans) == done + [v] + Cells(rest);
        UpdateAgrees(values, host, done + [v], items[1..]);
        Prepended(done, v, ResolveItems(values, host, items[1..]));
      } else {
        var updates := Updates(rest, |done| + 1);
        assert Updates(plans, |done|) == [(|done|, plan)] + updates && ([(|done|, plan)] + updates)[1..] == updates;
        if resolved.Success? {
          assert Place(done + Cells(plans), |done|, resolved.value) == done + [resolved.value] + Cells(rest);
          UpdateAgrees(values, host, done + [resolved.value], items[1..]);
          Prepended(done, resolved.value, ResolveItems(values, host, items[1..]));
        }
      }
    }
  }

  lemma ObjectAgrees(values: Namespaces, host: Host, fields: Fields)
    requires DistinctKeys(fields) && forall f :: f in fields ==> Agrees(values, host, f.1)
    ensures Agrees(values, host, Obj(fields))
  {
    hide CompiledString;
    hide ResolveString;
    hide RenderParts;
    hide RenderReference;
    hide Slots;
    hide Dynamic;
    hide Overwrite;
    var items := CompileFields(host, fields);
    if forall item :: item in items ==> item.1.Static? {
      forall f | f in fields ensures Compile(host, f.1).Static? {
        var i :| 0 <= i < |fields| && fields[i] == f;
        CompiledField(host, fields, i);
      }
      StaticFields(values, host, fields);
    } else {
      assert [] + fields == fields && [] + Slots(items) == Slots(items);
      OverwriteAgrees(values, host, [], fields);
      var r := ResolveFields(values, host, fields);
      if r.Success? { assert [] + r.value == r.value; }
    }
  }

  lemma ArrayAgrees(values: Namespaces, host: Host, items: seq<Json>, asTuple: bool)
    requires forall v :: v in items ==> Agrees(values, host, v)
    ensures Agrees(values, host, Arr(items, asTuple))
  {
    hide Cells;
    hide Updates;
    hide Update;
    hide CompiledString;
    hide ResolveString;
    hide RenderParts;
    hide RenderReference;
    var plans := CompileItems(host, items);
    if forall plan :: plan in plans ==> plan.Static? {
      forall v | v in items ensures Compile(host, v).Static? {
        var i :| 0 <= i < |items| && items[i] == v;
        CompiledItem(host, items, i);
      }
      StaticItems(values, host, items);
    } else {
      assert [] + Cells(plans) == Cells(plans);
      UpdateAgrees(values, host, [], items);
      var r := ResolveItems(values, host, items);
      if r.Success? { assert [] + r.value == r.value; }
    }
  }

  lemma LeafAgrees(values: Namespaces, host: Host, v: Json)
    requires !v.Obj? && !v.Arr?
    ensures Agrees(values, host, v)
  {
    hide ResolveString;
    hide RenderParts;
    hide RenderReference;
    hide FindMark;
    hide Whole;
    if v.Str? { StringAgrees(values, host, v.text); }
  }

  lemma {:induction false} PlanAgrees(values: Namespaces, host: Host, v: Json)
    requires IsValue(v)
    ensures Agrees(values, host, v)
    decreases v
  {
    hide Agrees;
    match v
    case Obj(fields) =>
      forall f | f in fields ensures Agrees(values, host, f.1) { PlanAgrees(values, host, f.1); }
      ObjectAgrees(values, host, fields);
    case Arr(items, asTuple) =>
      forall i | i in items ensures Agrees(values, host, i) { PlanAgrees(values, host, i); }
      ArrayAgrees(values, host, items, asTuple);
    case _ =>
      LeafAgrees(values, host, v);
  }

  // ------------------------------------------------------------ the main results

  /** A reference stands somewhere inside. */
  ghost predicate Mentions(v: Json) {
    match v
    case Str(text) => exists start, end :: IsReference(text, start, end)
    case Obj(fields) => exists f :: f in fields && Mentions(f.1)
    case Arr(items, _) => exists i :: i in items && Mentions(i)
    case _ => false
  }

  lemma StringStatic(host: Host, text: string)
    ensures CompiledString(host, text).Static? <==> NextMatch(text, 0).None?
  {
    hide Parts;
    hide CompileReference;
    if FindMark(text, "{{", 0) == |text| {
      NoDoubleBrace(text);
    } else if Whole(text).Some? {
      WholeHasMatch(text);
    } else {
      SlotsMeanMatches(host, text, 0);
    }
  }

  lemma MatchMeansMention(text: string)
    ensures NextMatch(text, 0).Some? <==> Mentions(Str(text))
  {
    var m := NextMatch(text, 0);
    if m.Some? {
      assert IsReference(text, m.value.0, m.value.1);
    } else {
      forall start, end ensures !IsReference(text, start, end) { NoMatchMeansNoReference(text, 0, start, end); }
    }
  }

  /** A plan is static, and so rendered without looking at the pool, exactly if no reference stands in the value. */
  lemma {:induction false} StaticMeansNoReference(host: Host, v: Json)
    ensures Compile(host, v).Static? <==> !Mentions(v)
    decreases v
  {
    hide CompiledString;
    match v
    case Str(text) =>
      StringStatic(host, text);
      MatchMeansMention(text);
    case Obj(fields) =>
      forall i: nat | i < |fields|
        ensures |CompileFields(host, fields)| == |fields|
        ensures CompileFields(host, fields)[i].1.Static? <==> !Mentions(fields[i].1)
      {
        CompiledField(host, fields, i);
        StaticMeansNoReference(host, fields[i].1);
      }
    case Arr(items, _) =>
      forall i: nat | i < |items|
        ensures |CompileItems(host, items)| == |items|
        ensures CompileItems(host, items)[i].Static? <==> !Mentions(items[i])
      {
        CompiledItem(host, items, i);
        StaticMeansNoReference(host, items[i]);
      }
    case _ =>
  }

  /** So a value without references resolves to itself, in every pool. */
  lemma NothingToResolve(values: Namespaces, host: Host, v: Json)
    requires IsValue(v) && !Mentions(v)
    ensures Resolve(values, host, v) == Success(v)
  {
    hide Compile;
    hide Resolve;
    hide Mentions;
    hide IsValue;
    PlanAgrees(values, host, v);
    StaticMeansNoReference(host, v);
    StaticRender(values, host, Compile(host, v));
  }

  /** Resolving an object keeps its keys and their order, so the result is again a dict. */
  lemma {:induction false} KeysKept(values: Namespaces, host: Host, fields: Fields)
    requires ResolveFields(values, host, fields).Success?
    ensures var resolved := ResolveFields(values, host, fields).value;
            |resolved| == |fields| && forall i :: 0 <= i < |fields| ==> resolved[i].0 == fields[i].0
  {
    hide Resolve;
    if fields != [] { KeysKept(values, host, fields[1..]); }
  }

  // ------------------------------------------------------------ which error is raised

  function ErrorOf<T>(r: Result<T, Trouble>): Option<Trouble> { if r.Failure? then Some(r.error) else None }

  /** What one reference can raise: it is looked up, and inside a text its value is printed. */
  function TroubleOf(values: Namespaces, host: Host, use: Use): Option<Trouble> {
    if use.inText then ErrorOf(Printed(values, host, use.body)) else ErrorOf(LookupBody(values, host, use.body))
  }

  function FirstTrouble(values: Namespaces, host: Host, uses: seq<Use>): Option<Trouble> {
    if uses == [] then None
    else
      match TroubleOf(values, host, uses[0])
      case Some(e) => Some(e)
      case None => FirstTrouble(values, host, uses[1..])
  }

  lemma {:induction false} FirstTroubleAppend(values: Namespaces, host: Host, a: seq<Use>, b: seq<Use>)
    ensures FirstTrouble(values, host, a + b)
         == if FirstTrouble(values, host, a).Some? then FirstTrouble(values, host, a) else FirstTrouble(values, host, b)
  {
    hide TroubleOf;
    if a == [] {
      assert a + b == b;
    } else {
      assert (a + b)[1..] == a[1..] + b;
      FirstTroubleAppend(values, host, a[1..], b);
    }
  }

  lemma {:induction false} SubstituteError(values: Namespaces, host: Host, text: string, position: nat)
    requires position <= |text|
    ensures ErrorOf(Substitute(values, host, text, position)) == FirstTrouble(values, host, MatchUses(text, position))
    decreases |text| - position
  {
    hide Printed;
    hide LookupBody;
    hide Body;
    var found := NextMatch(text, position);
    if found.Some? {
      var rest := MatchUses(text, found.value.1);
      assert MatchUses(text, position)[1..] == rest;
      SubstituteError(values, host, text, found.value.1);
    }
  }

  lemma StringError(values: Namespaces, host: Host, text: string)
    ensures ErrorOf(ResolveString(values, host, text)) == FirstTrouble(values, host, Uses(Str(text)))
  {
    hide LookupBody;
    if Whole(text).Some? {
      assert Uses(Str(text))[1..] == [];
    } else {
      SubstituteError(values, host, text, 0);
    }
  }

  ghost predicate RaisesFirst(values: Namespaces, host: Host, v: Json) {
    ErrorOf(Resolve(values, host, v)) == FirstTrouble(values, host, Uses(v))
  }

  lemma {:induction false} FieldsError(values: Namespaces, host: Host, fields: Fields)
    requires forall f :: f in fields ==> RaisesFirst(values, host, f.1)
    ensures ErrorOf(ResolveFields(values, host, fields)) == FirstTrouble(values, host, FieldUses(fields))
  {
    hide Resolve;
    hide Uses;
    if fields != [] {
      assert fields[0] in fields;
      assert RaisesFirst(values, host, fields[0].1);
      FieldsError(values, host, fields[1..]);
      FirstTroubleAppend(values, host, Uses(fields[0].1), FieldUses(fields[1..]));
    }
  }

  lemma {:induction false} ItemsError(values: Namespaces, host: Host, items: seq<Json>)
    requires forall v :: v in items ==> RaisesFirst(values, host, v)
    ensures ErrorOf(ResolveItems(values, host, items)) == FirstTrouble(values, host, ItemUses(items))
  {
    hide Resolve;
    hide Uses;
    if items != [] {
      assert RaisesFirst(values, host, items[0]);
      ItemsError(values, host, items[1..]);
      FirstTroubleAppend(values, host, Uses(items[0]), ItemUses(items[1..]));
    }
  }

  /** Resolving raises the error of the first failing reference in the order of the text, keys and items,
      and none if every reference can be looked up. */
  lemma {:induction false} FirstErrorWins(values: Namespaces, host: Host, v: Json)
    ensures ErrorOf(Resolve(values, host, v)) == FirstTrouble(values, host, Uses(v))
    decreases v
  {
    hide ResolveString;
    hide LookupBody;
    match v
    case Str(text) =>
      StringError(values, host, text);
    case Obj(fields) =>
      forall f | f in fields ensures RaisesFirst(values, host, f.1) { FirstErrorWins(values, host, f.1); }
      FieldsError(values, host, fields);
    case Arr(items, _) =>
      forall i | i in items ensures RaisesFirst(values, host, i) { FirstErrorWins(values, host, i); }
      ItemsError(values, host, items);
    case _ =>
  }

  // ------------------------------------------------------------ the compiler is the interpreter

  lemma {:induction false} FirstUnparsedAppend(host: Host, a: seq<Use>, b: seq<Use>)
    ensures FirstUnparsed(host, a + b)
         == if FirstUnparsed(host, a).Some? then FirstUnparsed(host, a) else FirstUnparsed(host, b)
  {
    hide CompileReference;
    if a == [] {
      assert a + b == b;
    } else {
      assert (a + b)[1..] == a[1..] + b;
      FirstUnparsedAppend(host, a[1..], b);
    }
  }

  ghost predicate CompilesOrRaises(host: Host, v: Json) {
    TryCompile(host, v) == Checked(host, Uses(v), Compile(host, v))
  }

  lemma {:induction false} FieldsRaise(host: Host, fields: Fields)
    requires forall f :: f in fields ==> CompilesOrRaises(host, f.1)
    ensures TryFields(host, fields)
         == match FirstUnparsed(host, FieldUses(fields))
            case Some(literal) => Failure(BadLiteral(literal))
            case None => Success(CompileFields(host, fields))
  {
    hide TryCompile;
    hide Compile;
    hide Uses;
    if fields != [] {
      assert fields[0] in fields;
      assert CompilesOrRaises(host, fields[0].1);
      FieldsRaise(host, fields[1..]);
      FirstUnparsedAppend(host, Uses(fields[0].1), FieldUses(fields[1..]));
    }
  }

  lemma {:induction false} ItemsRaise(host: Host, items: seq<Json>)
    requires forall v :: v in items ==> CompilesOrRaises(host, v)
    ensures TryItems(host, items)
         == match FirstUnparsed(host, ItemUses(items))
            case Some(literal) => Failure(BadLiteral(literal))
            case None => Success(CompileItems(host, items))
  {
    hide TryCompile;
    hide Compile;
    hide Uses;
    if items != [] {
      assert CompilesOrRaises(host, items[0]);
      ItemsRaise(host, items[1..]);
      FirstUnparsedAppend(host, Uses(items[0]), ItemUses(items[1..]));
    }
  }

  /** Compiling raises for the first fallback in the order of the text that cannot be parsed, needed or not. */
  lemma {:induction false} CompileRaises(host: Host, v: Json)
    ensures TryCompile(host, v) == Checked(host, Uses(v), Compile(host, v))
    decreases v
  {
    hide MappingPlan;
    hide SequencePlan;
    match v
    case Str(text) =>
      hide CompiledString;
      hide FirstUnparsed;
      if FindMark(text, "{{", 0) == |text| { StringUnmarked(host, text); }
    case Obj(fields) =>
      forall f | f in fields ensures CompilesOrRaises(host, f.1) { CompileRaises(host, f.1); }
      FieldsRaise(host, fields);
    case Arr(items, _) =>
      forall i | i in items ensures CompilesOrRaises(host, i) { CompileRaises(host, i); }
      ItemsRaise(host, items);
    case _ =>
  }

  lemma StringUnmarked(host: Host, text: string)
    requires FindMark(text, "{{", 0) == |text|
    ensures Checked(host, Uses(Str(text)), CompiledString(host, text)) == Success(Static(Str(text)))
  {
    NoDoubleBrace(text);
    assert Uses(Str(text)) == [];
  }

  /** For every value and every pool the compiled form resolves to what the interpreter does, value or error,
      except that a fallback which cannot be parsed is found out before any lookup: the results are the same
      exactly if there is none, or if falling back on it is what the first failing lookup comes to. */
  lemma CompilerCorrect(values: Namespaces, host: Host, v: Json)
    requires IsValue(v)
    ensures ResolveCompiled(values, host, v) == Resolve(values, host, v) <==>
      match FirstUnparsed(host, Uses(v))
      case None => true
      case Some(literal) => FirstTrouble(values, host, Uses(v)) == Some(BadLiteral(literal))
  {
    hide Render;
    hide Compile;
    hide Resolve;
    hide IsValue;
    hide Uses;
    hide TryCompile;
    hide FirstUnparsed;
    hide FirstTrouble;
    PlanAgrees(values, host, v);
    CompileRaises(host, v);
    FirstErrorWins(values, host, v);
  }

  /** No white space at either end. */
  predicate Tight(s: string) { s != [] && !IsSpace(s[0]) && !IsSpace(s[|s| - 1]) }

  lemma PartsOf(literal: string)
    ensures Partition("a.b??" + literal) == ("a.b", literal)
  {
    var body := "a.b??" + literal;
    assert body[2..4] == "b?" && body[1..3] == ".b" && body[0..2] == "a.";
    assert FindMark(body, "??", 3) == 3 by { assert body[3..5] == "??"; }
    assert FindMark(body, "??", 2) == 3;
    assert FindMark(body, "??", 1) == 3;
    assert body[..3] == "a.b" && body[5..] == literal;
  }

  lemma SegmentsOf()
    ensures Segments("a.b") == ["a", "b"]
  {
    var path, last := "a.b", "b";
    assert path[0..1] == "a" && path[1..2] == "." && path[..1] == "a" && path[2..] == last;
    assert last[0..1] == "b" && last[..1] == last;
    assert FindMark(last, ".", 1) == 1 && Segments(last) == [last];
    assert FindMark(path, ".", 1) == 1;
  }

  lemma WholeOf(body: string, text: string)
    requires Tight(body) && BraceFree(body) && text == "{{" + body + "}}"
    ensures Whole(text) == Some(body)
  {
    assert Tight(text) && Strip(text) == text;
    assert text[0..2] == "{{" && text[|text| - 2..|text|] == "}}" && text[2..|text| - 2] == body;
    assert Strip(body) == body;
  }

  /** A value that the interpreter resolves and the compiler refuses: a reference that can be looked up, with a
      fallback that raises when parsed, say an integer of more digits than `int` takes. */
  lemma RefusedThoughResolved(values: Namespaces, host: Host, found: Json, literal: string)
    requires Tight(literal) && BraceFree(literal) && host.parse(literal).None?
    requires values == map["a" := [("b", found)]]
    ensures var v := Str("{{" + ("a.b??" + literal) + "}}");
            && Resolve(values, host, v) == Success(found)
            && ResolveCompiled(values, host, v) == Failure(BadLiteral(literal))
  {
    hide Segments;
    hide Partition;
    hide Strip;
    hide Whole;
    hide TryCompile;
    hide Compile;
    hide LookupBody;
    hide FirstUnparsed;
    var body := "a.b??" + literal;
    var v := Str("{{" + body + "}}");
    PartsOf(literal);
    SegmentsOf();
    TightKept("a.b");
    TightKept(literal);
    WholeOf(body, v.text);
    CompileRaises(host, v);
    assert Uses(v) == [Use(body, false)];
    LookupFound(values, host, body, found);
    OneUnparsed(host, Use(body, false), []);
    assert Uses(v) == [Use(body, false)] + [];
  }

  lemma TightKept(s: string)
    requires Tight(s)
    ensures Strip(s) == s
  {}

  lemma LookupFound(values: Namespaces, host: Host, body: string, found: Json)
    requires Strip(Partition(body).0) == "a.b" && Segments("a.b") == ["a", "b"]
    requires values == map["a" := [("b", found)]]
    ensures LookupBody(values, host, body) == Success(found)
  {
    hide Segments;
    hide Partition;
    hide Strip;
    var segments := ["a", "b"];
    var cursor := Obj([("b", found)]);
    assert Step(host, cursor, "b", "a.b", segments[..1]) == Success(found);
    assert Walk(host, found, segments, 2, "a.b") == Success(found);
    assert Walk(host, cursor, segments, 1, "a.b") == Success(found);
  }

  // ------------------------------------------------------------ what a fallback does not cover

  /** `int` refuses this segment although it looks like an index: two signs or more, a digit that is no decimal
      digit, or too many digits. */
  predicate BadIndex(host: Host, segment: string) {
    var digits := StripDashes(segment);
    && LooksLikeIndex(host, segment)
    && (|digits| + 2 <= |segment|
        || (exists c :: c in digits && host.decimal(c).None?)
        || (host.maxDigits.Some? && |digits| > host.maxDigits.value))
  }

  /** The first `k` segments of the path lead to a list. */
  predicate ListAt(values: Namespaces, host: Host, segments: seq<string>, k: nat) {
    k <= |segments| && var found := Looked(values, host, segments[..k], ""); found.Success? && found.value.Arr?
  }

  lemma {:induction false} DigitsIff(host: Host, s: string)
    ensures Digits(host, s).None? <==> exists c :: c in s && host.decimal(c).None?
  {
    if s != [] {
      var front, last := s[..|s| - 1], s[|s| - 1];
      DigitsIff(host, front);
      assert forall c :: c in s <==> c in front || c == last;
    }
  }

  lemma {:induction false} StripDashesShorter(s: string)
    ensures |StripDashes(s)| <= |s|
  {
    if s != [] && s[0] == '-' { StripDashesShorter(s[1..]); }
  }

  lemma StepRefuses(host: Host, cursor: Json, segment: string, path: string, walked: seq<string>)
    ensures var r := Step(host, cursor, segment, path, walked);
            (r.Failure? && r.error.BadInteger? <==> cursor.Arr? && BadIndex(host, segment))
            && (r.Failure? ==> r.error.Variable? || r.error.BadInteger?)
  {
    DigitsIff(host, StripDashes(segment));
    StripDashesShorter(segment);
    hide Digits;
    hide StripDashes;
    hide Find;
  }

  /** Walking is walking a prefix and then the rest; what errors say does not change where they occur. */
  lemma {:induction false} WalkPrefix(
    host: Host, cursor: Json, segments: seq<string>, index: nat, k: nat, path: string, path': string)
    requires index <= k <= |segments|
    ensures var part := Walk(host, cursor, segments[..k], index, path');
            && (part.Failure? ==> Walk(host, cursor, segments, index, path).Failure?)
            && (part.Success? ==>
              Walk(host, cursor, segments, index, path) == Walk(host, part.value, segments, k, path))
    decreases k - index
  {
    if index < k {
      assert segments[..k][index] == segments[index];
      PathOnlyNames(host, cursor, segments[index], path, segments[..index], path', segments[..k][..index]);
      var next := Step(host, cursor, segments[index], path, segments[..index]);
      hide Step;
      if next.Success? { WalkPrefix(host, next.value, segments, index + 1, k, path, path'); }
    }
  }

  lemma PathOnlyNames(
    host: Host, cursor: Json, segment: string, path: string, walked: seq<string>, path': string, walked': seq<string>)
    ensures var r, r' := Step(host, cursor, segment, path, walked), Step(host, cursor, segment, path', walked');
            if r.Success? then r' == r else r'.Failure?
  {
    hide LooksLikeIndex;
    hide ToInteger;
    hide Find;
  }

  lemma {:induction false} WalkRefuses(host: Host, cursor: Json, segments: seq<string>, index: nat, path: string)
    requires index <= |segments|
    ensures var r := Walk(host, cursor, segments, index, path);
            (r.Failure? && r.error.BadInteger? ==>
              exists k: nat :: index <= k < |segments| && BadIndex(host, segments[k])
                && var part := Walk(host, cursor, segments[..k], index, ""); part.Success? && part.value.Arr?)
            && (r.Failure? ==> r.error.Variable? || r.error.BadInteger?)
    decreases |segments| - index
  {
    if index < |segments| {
      var next := Step(host, cursor, segments[index], path, segments[..index]);
      StepRefuses(host, cursor, segments[index], path, segments[..index]);
      if next.Failure? {
        assert Walk(host, cursor, segments[..index], index, "") == Success(cursor);
      } else {
        WalkRefuses(host, next.value, segments, index + 1, path);
        var r := Walk(host, cursor, segments, index, path);
        if r.Failure? && r.error.BadInteger? {
          var k: nat :| index + 1 <= k < |segments| && BadIndex(host, segments[k])
            && var part := Walk(host, next.value, segments[..k], index + 1, ""); part.Success? && part.value.Arr?;
          PathOnlyNames(host, cursor, segments[index], path, segments[..index], "", segments[..k][..index]);
          assert segments[..k][index] == segments[index];
          assert Walk(host, cursor, segments[..k], index, "") == Walk(host, next.value, segments[..k], index + 1, "");
        }
      }
    }
  }

  lemma LookedRefuses(values: Namespaces, host: Host, segments: seq<string>, path: string)
    ensures var r := Looked(values, host, segments, path);
            (r.Failure? && r.error.BadInteger? ==>
              exists k: nat :: k < |segments| && ListAt(values, host, segments, k) && BadIndex(host, segments[k]))
            && (r.Failure? ==> r.error.Variable? || r.error.BadInteger?)
  {
    hide BadIndex;
    if segments != [] && segments[0] in values {
      var cursor := Obj(values[segments[0]]);
      WalkRefuses(host, cursor, segments, 1, path);
      var r := Walk(host, cursor, segments, 1, path);
      if r.Failure? && r.error.BadInteger? {
        var k: nat :| 1 <= k < |segments| && BadIndex(host, segments[k])
          && var part := Walk(host, cursor, segments[..k], 1, ""); part.Success? && part.value.Arr?;
        assert segments[..k][0] == segments[0];
        assert ListAt(values, host, segments, k);
      }
    }
  }

  lemma ListRefuses(values: Namespaces, host: Host, segments: seq<string>, path: string, k: nat)
    requires k < |segments| && ListAt(values, host, segments, k) && BadIndex(host, segments[k])
    ensures Looked(values, host, segments, path).Failure? && Looked(values, host, segments, path).error.BadInteger?
  {
    hide BadIndex;
    var cursor := Obj(values[segments[0]]);
    assert segments[..k][0] == segments[0];
    var part := Walk(host, cursor, segments[..k], 1, "");
    WalkPrefix(host, cursor, segments, 1, k, path, "");
    StepRefuses(host, part.value, segments[k], path, segments[..k]);
    hide Step;
  }

  /** The reference's path leads to a list at a segment that `int` refuses. */
  ghost predicate Strays(values: Namespaces, host: Host, body: string) {
    var segments := Segments(Strip(Partition(body).0));
    exists k: nat :: k < |segments| && ListAt(values, host, segments, k) && BadIndex(host, segments[k])
  }

  /** The reference carries a fallback, and one that can be parsed. */
  predicate Covered(host: Host, body: string) {
    var literal := Strip(Partition(body).1);
    literal != "" && host.parse(literal).Some?
  }

  lemma CoveredFails(values: Namespaces, host: Host, body: string)
    requires Covered(host, body)
    ensures LookupBody(values, host, body).Failure? <==> Strays(values, host, body)
  {
    hide Segments;
    hide Strip;
    hide Partition;
    hide ListAt;
    hide BadIndex;
    hide Looked;
    var path := Strip(Partition(body).0);
    var segments := Segments(path);
    LookedRefuses(values, host, segments, path);
    if Strays(values, host, body) {
      var k: nat :| k < |segments| && ListAt(values, host, segments, k) && BadIndex(host, segments[k]);
      ListRefuses(values, host, segments, path, k);
    }
  }

  /** A value that is to stand in a text and cannot be printed. */
  ghost predicate Garbles(values: Namespaces, host: Host, use: Use) {
    use.inText && LookupBody(values, host, use.body).Success?
    && Stringify(host, LookupBody(values, host, use.body).value).Failure?
  }

  lemma {:induction false} TroubleMeansStray(values: Namespaces, host: Host, uses: seq<Use>)
    requires forall use :: use in uses ==> Covered(host, use.body)
    ensures FirstTrouble(values, host, uses).Some? <==>
              exists use :: use in uses && (Strays(values, host, use.body) || Garbles(values, host, use))
  {
    hide Covered;
    hide Strays;
    hide LookupBody;
    hide Stringify;
    if uses != [] {
      assert uses[0] in uses;
      CoveredFails(values, host, uses[0].body);
      TroubleMeansStray(values, host, uses[1..]);
      assert forall use :: use in uses <==> use == uses[0] || use in uses[1..];
    }
  }

  /** If every reference carries a fallback, nothing that is missing can make resolving fail. It fails exactly
      if some reference's path leads to a list at a segment that looks like an index but that `int` refuses, or
      if a value found for a reference inside a text cannot be printed. */
  lemma FallbacksCover(values: Namespaces, host: Host, v: Json)
    requires forall use :: use in Uses(v) ==> Covered(host, use.body)
    ensures Resolve(values, host, v).Failure? <==>
              exists use :: use in Uses(v) && (Strays(values, host, use.body) || Garbles(values, host, use))
  {
    hide Resolve;
    hide Uses;
    hide Strays;
    hide Garbles;
    hide Covered;
    FirstErrorWins(values, host, v);
    TroubleMeansStray(values, host, Uses(v));
  }

  lemma InText(body: string, text: string)
    requires Tight(body) && BraceFree(body) && text == "{{" + body + "}} items"
    ensures NextMatch(text, 0) == Some((0, |body| + 4)) && Whole(text).None?
    ensures IsReference(text, 0, |body| + 4) && BodyAt(text, (0, |body| + 4)) == body
  {
    var end := |body| + 4;
    assert text[0..2] == "{{" && text[end - 2..end] == "}}" && text[2..end - 2] == body;
    TightKept(body);
    NextMatchIsLeftmost(text, 0, 0, end);
    hide NextMatch;
    assert Tight(text);
    TightKept(text);
    hide Strip;
    assert text[|text| - 2..|text|] == "ms" && "ms"[0] != "}}"[0];
  }

  lemma PrintFails(values: Namespaces, host: Host, text: string, m: (nat, nat), e: Trouble)
    requires NextMatch(text, 0) == Some(m) && Printed(values, host, BodyAt(text, m)) == Failure(e)
    requires Whole(text).None?
    ensures Resolve(values, host, Str(text)) == Failure(e)
  {
    hide NextMatch;
    hide Printed;
    hide Whole;
    hide Body;
  }

  /** Such a value: an integer of more digits than `str` converts, although a fallback stands beside it. */
  lemma LongNumberUnprintable(values: Namespaces, host: Host, number: string)
    requires TooLong(host, number) && values == map["a" := [("b", Number(number))]]
    ensures Resolve(values, host, Str("{{" + "a.b??0" + "}} items")) == Failure(Unprintable(Number(number)))
  {
    hide LookupBody;
    hide NextMatch;
    hide Segments;
    hide Strip;
    hide Whole;
    hide Partition;
    hide Resolve;
    var body := "a.b??0";
    var text := "{{" + body + "}} items";
    PartsOf("0");
    assert "a.b??" + "0" == body;
    SegmentsOf();
    TightKept("a.b");
    InText(body, text);
    LookupFound(values, host, body, Number(number));
    PrintFails(values, host, text, (0, |body| + 4), Unprintable(Number(number)));
  }

  /** Two such indices: a doubled sign, and a digit without decimal value such as a superscript. */
  lemma UnreadableIndices(values: Namespaces, host: Host, rows: seq<Json>, raised: char)
    requires host.isDigit('5') && host.isDigit(raised) && raised != '-' && host.decimal(raised).None?
    requires values == map["rows" := [("all", Arr(rows, false))]]
    ensures Looked(values, host, ["rows", "all", "--5"], "rows.all.--5") == Failure(BadInteger("--5"))
    ensures Looked(values, host, ["rows", "all", [raised]], "") == Failure(BadInteger([raised]))
  {
    var dashed := "--5";
    assert dashed[1..] == "-5" && dashed[1..][1..] == "5";
    assert StripDashes(dashed) == "5" by { assert StripDashes(dashed[1..]) == StripDashes("5") == "5"; }
    assert StripDashes([raised]) == [raised];
    forall segment | segment in {dashed, [raised]}
      ensures BadIndex(host, segment)
    {}
    var first := Obj([("all", Arr(rows, false))]);
    hide StripDashes;
    hide Digits;
    var a, b := ["rows", "all", dashed], ["rows", "all", [raised]];
    assert Walk(host, first, a, 1, "rows.all.--5") == Walk(host, Arr(rows, false), a, 2, "rows.all.--5");
    assert Walk(host, first, b, 1, "") == Walk(host, Arr(rows, false), b, 2, "");
    StepRefuses(host, Arr(rows, false), dashed, "rows.all.--5", a[..2]);
    StepRefuses(host, Arr(rows, false), [raised], "", b[..2]);
  }
}
