/** The template compiler: plans that are made once from a config value and rendered many times. */
module Templates {
  import opened Dicts
  import opened Values
  import opened Paths
  import opened Variables
  import opened Wrappers

  /** A fallback is parsed when the template is compiled. One that cannot be parsed stops the compilation
      (`TryCompile`), so no plan that is used holds an `Unparsed`. */
  datatype Fallback = Absent | Parsed(value: Json) | Unparsed(literal: string)

  datatype Ref = Ref(path: string, segments: seq<string>, fallback: Fallback)

  datatype Piece = Text(text: string) | Slot(ref: Ref)

  /** `Mapping` and `Sequence` carry the static entries in place, with holes where a plan must be rendered. */
  datatype Plan =
    | Static(value: Json)
    | Reference(ref: Ref)
    | Interpolation(parts: seq<Piece>)
    | Mapping(slots: Fields, dynamic: seq<(string, Plan)>)
    | Sequence(cells: seq<Json>, updates: seq<(nat, Plan)>, asTuple: bool)

  // ------------------------------------------------------------ compiling

  function FallbackOf(host: Host, literal: string): Fallback {
    if literal == "" then Absent
    else
      match host.parse(literal)
      case Some(v) => Parsed(v)
      case None => Unparsed(literal)
  }

  function CompileReference(host: Host, body: string): Ref {
    var (before, after) := Partition(body);
    var path := Strip(before);
    Ref(path, Segments(path), FallbackOf(host, Strip(after)))
  }

  /** The text between `from` and `to` as a piece, unless it is empty. */
  function Between(text: string, from: nat, to: nat): seq<Piece>
    requires from <= to <= |text|
  {
    if from < to then [Text(text[from..to])] else []
  }

  function Parts(host: Host, text: string, position: nat): seq<Piece>
    requires position <= |text|
    decreases |text| - position
  {
    match NextMatch(text, position)
    case None => Between(text, position, |text|)
    case Some(m) =>
      Between(text, position, m.0) + [Slot(CompileReference(host, BodyAt(text, m)))] + Parts(host, text, m.1)
  }

  predicate HasSlot(parts: seq<Piece>) { exists p :: p in parts && p.Slot? }

  function CompiledString(host: Host, text: string): Plan {
    if FindMark(text, "{{", 0) == |text| then Static(Str(text))
    else
      match Whole(text)
      case Some(body) => Reference(CompileReference(host, body))
      case None =>
        var parts := Parts(host, text, 0);
        if HasSlot(parts) then Interpolation(parts) else Static(Str(text))
  }

  /** The first fallback that cannot be parsed. */
  function FirstUnparsed(host: Host, uses: seq<Use>): Option<string> {
    if uses == [] then None
    else
      match CompileReference(host, uses[0].body).fallback
      case Unparsed(literal) => Some(literal)
      case _ => FirstUnparsed(host, uses[1..])
  }

  function Checked(host: Host, uses: seq<Use>, plan: Plan): Result<Plan, Trouble> {
    match FirstUnparsed(host, uses)
    case Some(literal) => Failure(BadLiteral(literal))
    case None => Success(plan)
  }

  function TryString(host: Host, text: string): Result<Plan, Trouble> {
    if FindMark(text, "{{", 0) == |text| then Success(Static(Str(text)))
    else Checked(host, Uses(Str(text)), CompiledString(host, text))
  }

  lemma OneUnparsed(host: Host, use: Use, rest: seq<Use>)
    ensures FirstUnparsed(host, [use] + rest)
         == match CompileReference(host, use.body).fallback
            case Unparsed(literal) => Some(literal)
            case _ => FirstUnparsed(host, rest)
  {
    hide CompileReference;
    assert ([use] + rest)[1..] == rest;
  }

  lemma WholeParsed(host: Host, text: string)
    requires FindMark(text, "{{", 0) < |text| && Whole(text).Some?
    ensures var ref := CompileReference(host, Whole(text).value);
            TryString(host, text)
              == if ref.fallback.Unparsed? then Failure(BadLiteral(ref.fallback.literal)) else Success(Reference(ref))
  {
    hide CompileReference;
    hide Whole;
    hide FindMark;
    OneUnparsed(host, Use(Whole(text).value, false), []);
    assert Uses(Str(text)) == [Use(Whole(text).value, false)] + [];
  }

  lemma NextParsed(host: Host, text: string, position: nat, m: (nat, nat))
    requires NextMatch(text, position) == Some(m)
    ensures var ref := CompileReference(host, BodyAt(text, m));
            && Parts(host, text, position) == Between(text, position, m.0) + [Slot(ref)] + Parts(host, text, m.1)
            && FirstUnparsed(host, MatchUses(text, position))
               == if ref.fallback.Unparsed? then Some(ref.fallback.literal)
                  else FirstUnparsed(host, MatchUses(text, m.1))
  {
    hide CompileReference;
    hide NextMatch;
    hide Between;
    hide Body;
    OneUnparsed(host, Use(BodyAt(text, m), true), MatchUses(text, m.1));
  }

  lemma LastParsed(host: Host, text: string, position: nat)
    requires position <= |text| && NextMatch(text, position).None?
    ensures Parts(host, text, position) == Between(text, position, |text|) && MatchUses(text, position) == []
  {
    hide NextMatch;
  }

  lemma AllParsed(host: Host, text: string)
    requires FindMark(text, "{{", 0) < |text| && Whole(text).None?
    ensures TryString(host, text)
         == match FirstUnparsed(host, MatchUses(text, 0))
            case Some(literal) => Failure(BadLiteral(literal))
            case None =>
              var parts := Parts(host, text, 0);
              Success(if HasSlot(parts) then Interpolation(parts) else Static(Str(text)))
  {
    hide FindMark;
    hide Whole;
    hide Parts;
    hide MatchUses;
    hide FirstUnparsed;
  }

  /** `compile_string`. */
  method CompileString(host: Host, text: string) returns (r: Result<Plan, Trouble>)
    ensures r == TryString(host, text)
  {
    hide CompileReference;
    hide Whole;
    hide FindMark;
    hide NextMatch;
    hide Parts;
    hide MatchUses;
    hide FirstUnparsed;
    hide Between;
    if FindMark(text, "{{", 0) == |text| {
      return Success(Static(Str(text)));
    }
    hide TryString;
    var whole := Whole(text);
    if whole.Some? {
      WholeParsed(host, text);
      var ref := CompileReference(host, whole.value);
      return if ref.fallback.Unparsed? then Failure(BadLiteral(ref.fallback.literal)) else Success(Reference(ref));
    }
    AllParsed(host, text);
    var parts, position := [], 0;
    while true
      invariant position <= |text|
      invariant parts + Parts(host, text, position) == Parts(host, text, 0)
      invariant FirstUnparsed(host, MatchUses(text, position)) == FirstUnparsed(host, MatchUses(text, 0))
      decreases |text| - position
    {
      var found := NextMatch(text, position);
      if found.None? {
        break;
      }
      var m := found.value;
      var ref := CompileReference(host, BodyAt(text, m));
      NextParsed(host, text, position, m);
      if ref.fallback.Unparsed? {
        return Failure(BadLiteral(ref.fallback.literal));
      }
      parts := parts + (Between(text, position, m.0) + [Slot(ref)]);
      position := m.1;
    }
    LastParsed(host, text, position);
    assert FirstUnparsed(host, []).None? by { NoneUnparsed(host); }
    parts := parts + Between(text, position, |text|);
    r := Success(if HasSlot(parts) then Interpolation(parts) else Static(Str(text)));
  }

  lemma NoneUnparsed(host: Host)
    ensures FirstUnparsed(host, []).None?
  {}

  function Slots(items: seq<(string, Plan)>): Fields {
    if items == [] then []
    else
      var (key, plan) := items[0];
      [(key, if plan.Static? then plan.value else Null)] + Slots(items[1..])
  }

  function Dynamic(items: seq<(string, Plan)>): seq<(string, Plan)> {
    if items == [] then []
    else (if items[0].1.Static? then [] else [items[0]]) + Dynamic(items[1..])
  }

  function Cells(plans: seq<Plan>): seq<Json> {
    if plans == [] then []
    else [if plans[0].Static? then plans[0].value else Null] + Cells(plans[1..])
  }

  /** The plans to render, with their places, counting from `index`. */
  function Updates(plans: seq<Plan>, index: nat): seq<(nat, Plan)> {
    if plans == [] then []
    else (if plans[0].Static? then [] else [(index, plans[0])]) + Updates(plans[1..], index + 1)
  }

  function MappingPlan(value: Json, items: seq<(string, Plan)>): Plan {
    if forall item :: item in items ==> item.1.Static? then Static(value) else Mapping(Slots(items), Dynamic(items))
  }

  function SequencePlan(value: Json, plans: seq<Plan>, asTuple: bool): Plan {
    if forall plan :: plan in plans ==> plan.Static? then Static(value)
    else Sequence(Cells(plans), Updates(plans, 0), asTuple)
  }

  /** `compile_template`. */
  function TryCompile(host: Host, value: Json): Result<Plan, Trouble>
    decreases value, 0
  {
    match value
    case Str(text) => TryString(host, text)
    case Obj(fields) =>
      var items :- TryFields(host, fields);
      Success(MappingPlan(value, items))
    case Arr(items, asTuple) =>
      var plans :- TryItems(host, items);
      Success(SequencePlan(value, plans, asTuple))
    case _ => Success(Static(value))
  }

  function TryFields(host: Host, fields: Fields): Result<seq<(string, Plan)>, Trouble>
    decreases fields
  {
    if fields == [] then Success([])
    else
      var (key, item) := fields[0];
      assert item < fields[0] && fields[0] in fields;
      var first :- TryCompile(host, item);
      var rest :- TryFields(host, fields[1..]);
      Success([(key, first)] + rest)
  }

  function TryItems(host: Host, items: seq<Json>): Result<seq<Plan>, Trouble>
    decreases items
  {
    if items == [] then Success([])
    else
      var first :- TryCompile(host, items[0]);
      var rest :- TryItems(host, items[1..]);
      Success([first] + rest)
  }

  /** The plan there would be if every fallback could be parsed. */
  function Compile(host: Host, value: Json): Plan
    decreases value, 0
  {
    match value
    case Str(text) => CompiledString(host, text)
    case Obj(fields) => MappingPlan(value, CompileFields(host, fields))
    case Arr(items, asTuple) => SequencePlan(value, CompileItems(host, items), asTuple)
    case _ => Static(value)
  }

  function CompileFields(host: Host, fields: Fields): seq<(string, Plan)>
    decreases fields
  {
    if fields == [] then []
    else
      var (key, item) := fields[0];
      assert item < fields[0] && fields[0] in fields;
      [(key, Compile(host, item))] + CompileFields(host, fields[1..])
  }

  function CompileItems(host: Host, items: seq<Json>): seq<Plan>
    decreases items
  {
    if items == [] then []
    else [Compile(host, items[0])] + CompileItems(host, items[1..])
  }

  // ------------------------------------------------------------ rendering

  /** `_Reference.render`: two segments hit a dict of a dict without further ado. */
  function RenderReference(values: Namespaces, host: Host, ref: Ref): Result<Json, Trouble> {
    if |ref.segments| == 2 && ref.segments[0] in values && Find(values[ref.segments[0]], ref.segments[1]).Some? then
      Success(Find(values[ref.segments[0]], ref.segments[1]).value)
    else
      match Looked(values, host, ref.segments, ref.path)
      case Success(v) => Success(v)
      case Failure(e) =>
        if !e.Variable? then Failure(e)
        else
          match ref.fallback
          case Absent => Failure(e)
          case Parsed(v) => Success(v)
          case Unparsed(literal) => Failure(BadLiteral(literal))
  }

  function RenderParts(values: Namespaces, host: Host, parts: seq<Piece>): Result<string, Trouble> {
    if parts == [] then Success("")
    else
      match parts[0]
      case Text(text) =>
        var rest :- RenderParts(values, host, parts[1..]);
        Success(text + rest)
      case Slot(ref) =>
        var v :- RenderReference(values, host, ref);
        var text :- Stringify(host, v);
        var rest :- RenderParts(values, host, parts[1..]);
        Success(text + rest)
  }

  function Render(values: Namespaces, host: Host, plan: Plan): Result<Json, Trouble>
    decreases plan, 0
  {
    match plan
    case Static(value) => Success(value)
    case Reference(ref) => RenderReference(values, host, ref)
    case Interpolation(parts) =>
      var text :- RenderParts(values, host, parts);
      Success(Str(text))
    case Mapping(slots, dynamic) =>
      var rendered :- Overwrite(values, host, slots, dynamic);
      Success(Obj(rendered))
    case Sequence(cells, updates, asTuple) =>
      var rendered :- Update(values, host, cells, updates);
      Success(Arr(rendered, asTuple))
  }

  function Overwrite(values: Namespaces, host: Host, rendered: Fields, dynamic: seq<(string, Plan)>)
      : Result<Fields, Trouble>
    decreases dynamic
  {
    if dynamic == [] then Success(rendered)
    else
      var (key, plan) := dynamic[0];
      assert plan < dynamic[0] && dynamic[0] in dynamic;
      var v :- Render(values, host, plan);
      Overwrite(values, host, Put(rendered, key, v), dynamic[1..])
  }

  /** `rendered[index] = value`; compiled indices are always in range. */
  function Place(rendered: seq<Json>, index: nat, value: Json): seq<Json> {
    if index < |rendered| then rendered[index := value] else rendered
  }

  function Update(values: Namespaces, host: Host, rendered: seq<Json>, updates: seq<(nat, Plan)>)
      : Result<seq<Json>, Trouble>
    decreases updates
  {
    if updates == [] then Success(rendered)
    else
      var (index, plan) := updates[0];
      assert plan < updates[0] && updates[0] in updates;
      var v :- Render(values, host, plan);
      Update(values, host, Place(rendered, index, v), updates[1..])
  }

  /** `VariablePool.resolve`. */
  function ResolveCompiled(values: Namespaces, host: Host, value: Json): Result<Json, Trouble> {
    var plan :- TryCompile(host, value);
    Render(values, host, plan)
  }

  method RenderMapping(values: Namespaces, host: Host, slots: Fields, dynamic: seq<(string, Plan)>)
      returns (r: Result<Fields, Trouble>)
    ensures r == Overwrite(values, host, slots, dynamic)
    decreases dynamic, 0
  {
    var rendered := slots;
    for i := 0 to |dynamic|
      invariant Overwrite(values, host, rendered, dynamic[i..]) == Overwrite(values, host, slots, dynamic)
    {
      var (key, plan) := dynamic[i];
      assert plan < dynamic[i] && dynamic[i] in dynamic;
      assert dynamic[i..][1..] == dynamic[i + 1..];
      var v :- RenderPlan(values, host, plan);
      rendered := Put(rendered, key, v);
    }
    r := Success(rendered);
  }

  method RenderSequence(values: Namespaces, host: Host, cells: seq<Json>, updates: seq<(nat, Plan)>)
      returns (r: Result<seq<Json>, Trouble>)
    ensures r == Update(values, host, cells, updates)
    decreases updates, 0
  {
    var rendered := cells;
    for i := 0 to |updates|
      invariant Update(values, host, rendered, updates[i..]) == Update(values, host, cells, updates)
    {
      var (index, plan) := updates[i];
      assert plan < updates[i] && updates[i] in updates;
      assert updates[i..][1..] == updates[i + 1..];
      var v :- RenderPlan(values, host, plan);
      rendered := Place(rendered, index, v);
    }
    r := Success(rendered);
  }

  /** `render`, for each kind of plan. */
  method RenderPlan(values: Namespaces, host: Host, plan: Plan) returns (r: Result<Json, Trouble>)
    ensures r == Render(values, host, plan)
    decreases plan, 1
  {
    match plan
    case Static(value) =>
      r := Success(value);
    case Reference(ref) =>
      r := RenderReference(values, host, ref);
    case Interpolation(parts) =>
      var text :- RenderParts(values, host, parts);
      r := Success(Str(text));
    case Mapping(slots, dynamic) =>
      var rendered :- RenderMapping(values, host, slots, dynamic);
      r := Success(Obj(rendered));
    case Sequence(cells, updates, asTuple) =>
      var rendered :- RenderSequence(values, host, cells, updates);
      r := Success(Arr(rendered, asTuple));
  }
}
