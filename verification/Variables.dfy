/** The variable pool, and the reference interpreter of `{{node.field ?? fallback}}`. */
module Variables {
  import opened Dicts
  import opened Values
  import opened Wrappers
  import opened Paths

  // ------------------------------------------------------------ strings

  /** `str.isspace`. */
  predicate IsSpace(c: char) {
    || c == ' ' || '\t' <= c <= '\r' || '\U{001c}' <= c <= '\U{001f}' || c == '\U{0085}' || c == '\U{00a0}'
    || c == '\U{1680}' || '\U{2000}' <= c <= '\U{200a}' || c == '\U{2028}' || c == '\U{2029}' || c == '\U{202f}'
    || c == '\U{205f}' || c == '\U{3000}'
  }

  function StripLeft(s: string): string {
    if s != [] && IsSpace(s[0]) then StripLeft(s[1..]) else s
  }

  function StripRight(s: string): string {
    if s != [] && IsSpace(s[|s| - 1]) then StripRight(s[..|s| - 1]) else s
  }

  /** `s.strip()`. */
  function Strip(s: string): string { StripRight(StripLeft(s)) }

  /** Where the first occurrence of `mark`, at `from` or later, begins; the length if there is none. */
  function FindMark(s: string, mark: string, from: nat): (i: nat)
    requires from <= |s|
    ensures from <= i <= |s|
    decreases |s| - from
  {
    if from == |s| || (from + |mark| <= |s| && s[from..from + |mark|] == mark) then from
    else FindMark(s, mark, from + 1)
  }

  /** `body.partition("??")`, without the separator. */
  function Partition(body: string): (string, string) {
    var i := FindMark(body, "??", 0);
    if i + 2 <= |body| then (body[..i], body[i + 2..]) else (body, "")
  }

  /** The non-empty pieces of `path.split(".")`. */
  function Segments(path: string): seq<string>
    decreases |path|
  {
    var i := FindMark(path, ".", 0);
    var head := if i == 0 then [] else [path[..i]];
    if i == |path| then head else head + Segments(path[i + 1..])
  }

  // ------------------------------------------------------------ the pool

  class VariablePool {
    var values: Namespaces

    constructor (inputs: Option<Fields>)
      ensures values == if inputs.Some? then map["inputs" := inputs.value] else map[]
    {
      values := if inputs.Some? then map["inputs" := inputs.value] else map[];
    }

    method SetOutputs(namespace: string, outputs: Fields)
      modifies this
      ensures values == old(values)[namespace := outputs]
    {
      values := values[namespace := outputs];
    }

    /** `lookup`: the dict hit is tried first, everything else goes through `_step`. */
    method Lookup(host: Host, segments: seq<string>, path: string) returns (r: Result<Json, Trouble>)
      ensures r == Looked(values, host, segments, path)
      ensures forall x :: x == r <==> Found(values, host, segments, path, x)
    {
      hide Step;
      hide Found;
      LookedMeansFound(values, host, segments, path);
      if segments == [] {
        return Failure(Variable(EmptyReference));
      }
      if segments[0] !in values {
        return Failure(Variable(UnknownNamespace(segments[0], path, values.Keys)));
      }
      var cursor := Obj(values[segments[0]]);
      for index := 1 to |segments|
        invariant Walk(host, cursor, segments, index, path) == Looked(values, host, segments, path)
      {
        var segment := segments[index];
        DictHit(host, cursor, segment, path, segments[..index]);
        if cursor.Obj? && Find(cursor.fields, segment).Some? {
          cursor := Find(cursor.fields, segment).value;
          continue;
        }
        cursor :- Step(host, cursor, segment, path, segments[..index]);
      }
      r := Success(cursor);
    }
  }

  lemma DictHit(host: Host, cursor: Json, segment: string, path: string, walked: seq<string>)
    ensures cursor.Obj? && Find(cursor.fields, segment).Some? ==>
      Step(host, cursor, segment, path, walked) == Success(Find(cursor.fields, segment).value)
  {}

  // ------------------------------------------------------------ finding references

  predicate IsBrace(c: char) { c == '{' || c == '}' }

  predicate BraceFree(s: string) { forall c :: c in s ==> !IsBrace(c) }

  predicate Stands(text: string, i: nat, mark: string) { i + |mark| <= |text| && text[i..i + |mark|] == mark }

  /** `text[start..end]` is one reference: `{{`, something without braces, `}}`. */
  predicate IsReference(text: string, start: nat, end: nat) {
    && start + 5 <= end <= |text|
    && Stands(text, start, "{{") && Stands(text, end - 2, "}}")
    && BraceFree(text[start + 2..end - 2])
  }

  /** The end of the brace-free run from `i` on. */
  function RunEnd(text: string, i: nat): (j: nat)
    requires i <= |text|
    ensures i <= j <= |text| && BraceFree(text[i..j]) && (j < |text| ==> IsBrace(text[j]))
    decreases |text| - i
  {
    if i == |text| || IsBrace(text[i]) then i
    else
      var j := RunEnd(text, i + 1);
      assert text[i..j] == [text[i]] + text[i + 1..j];
      j
  }

  /** The pattern tried at one place. */
  function MatchAt(text: string, i: nat): Option<nat> {
    if i + 2 <= |text| && Stands(text, i, "{{") then
      var j := RunEnd(text, i + 2);
      if j > i + 2 && Stands(text, j, "}}") then Some(j + 2) else None
    else None
  }

  /** The leftmost match at `from` or later. */
  function NextMatch(text: string, from: nat): (m: Option<(nat, nat)>)
    ensures m.Some? ==> from <= m.value.0 && IsReference(text, m.value.0, m.value.1)
    decreases |text| - from
  {
    if from >= |text| then None
    else
      match MatchAt(text, from)
      case Some(end) => Some((from, end))
      case None => NextMatch(text, from + 1)
  }

  /** The named group: the inside without its margins, but never less than one character. */
  function Body(inside: string): string
    requires inside != []
  {
    if Strip(inside) != [] then Strip(inside) else inside[|inside| - 1..]
  }

  function BodyAt(text: string, m: (nat, nat)): string
    requires IsReference(text, m.0, m.1)
  {
    Body(text[m.0 + 2..m.1 - 2])
  }

  /** `fullmatch` on the stripped text. */
  function Whole(text: string): Option<string> {
    var t := Strip(text);
    if IsReference(t, 0, |t|) then Some(BodyAt(t, (0, |t|))) else None
  }

  // ------------------------------------------------------------ the reference interpreter

  /** `_lookup`: a path, and what to use instead if it is missing. */
  function LookupBody(values: Namespaces, host: Host, body: string): Result<Json, Trouble> {
    var (before, after) := Partition(body);
    var path := Strip(before);
    match Looked(values, host, Segments(path), path)
    case Success(v) => Success(v)
    case Failure(e) =>
      if !e.Variable? || Strip(after) == "" then Failure(e)
      else
        match host.parse(Strip(after))
        case Some(v) => Success(v)
        case None => Failure(BadLiteral(Strip(after)))
  }

  /** An integer of more digits than `str` converts. */
  predicate TooLong(host: Host, number: string) {
    var digits := if number != [] && number[0] == '-' then number[1..] else number;
    && host.maxDigits.Some? && |digits| > host.maxDigits.value
    && forall c :: c in digits ==> '0' <= c <= '9'
  }

  /** `_stringify`. */
  function Stringify(host: Host, v: Json): Result<string, Trouble> {
    match v
    case Str(s) => Success(s)
    case Null => Success("")
    case Bool(b) => Success(if b then "true" else "false")
    case Number(n) => if TooLong(host, n) then Failure(Unprintable(v)) else Success(n)
    case _ =>
      match host.dump(v)
      case Some(s) => Success(s)
      case None => Failure(Unprintable(v))
  }

  /** A reference inside a text. */
  function Printed(values: Namespaces, host: Host, body: string): Result<string, Trouble> {
    var v :- LookupBody(values, host, body);
    Stringify(host, v)
  }

  /** `_REFERENCE.sub`, from `position` on. */
  function Substitute(values: Namespaces, host: Host, text: string, position: nat): Result<string, Trouble>
    requires position <= |text|
    decreases |text| - position
  {
    match NextMatch(text, position)
    case None => Success(text[position..])
    case Some(m) =>
      var s :- Printed(values, host, BodyAt(text, m));
      var rest :- Substitute(values, host, text, m.1);
      Success(text[position..m.0] + s + rest)
  }

  function ResolveString(values: Namespaces, host: Host, text: string): Result<Json, Trouble> {
    match Whole(text)
    case Some(body) => LookupBody(values, host, body)
    case None =>
      var s :- Substitute(values, host, text, 0);
      Success(Str(s))
  }

  /** `resolve_uncached`. */
  function Resolve(values: Namespaces, host: Host, value: Json): Result<Json, Trouble>
    decreases value, 0
  {
    match value
    case Str(text) => ResolveString(values, host, text)
    case Obj(fields) =>
      var resolved :- ResolveFields(values, host, fields);
      Success(Obj(resolved))
    case Arr(items, asTuple) =>
      var resolved :- ResolveItems(values, host, items);
      Success(Arr(resolved, asTuple))
    case _ => Success(value)
  }

  function ResolveFields(values: Namespaces, host: Host, fields: Fields): Result<Fields, Trouble>
    decreases fields
  {
    if fields == [] then Success([])
    else
      var (key, item) := fields[0];
      assert item < fields[0] && fields[0] in fields;
      var first :- Resolve(values, host, item);
      var rest :- ResolveFields(values, host, fields[1..]);
      Success([(key, first)] + rest)
  }

  function ResolveItems(values: Namespaces, host: Host, items: seq<Json>): Result<seq<Json>, Trouble>
    decreases items
  {
    if items == [] then Success([])
    else
      var first :- Resolve(values, host, items[0]);
      var rest :- ResolveItems(values, host, items[1..]);
      Success([first] + rest)
  }

  // ------------------------------------------------------------ the references of a value

  /** A reference, alone or inside a text. */
  datatype Use = Use(body: string, inText: bool)

  function MatchUses(text: string, position: nat): seq<Use>
    requires position <= |text|
    decreases |text| - position
  {
    match NextMatch(text, position)
    case None => []
    case Some(m) => [Use(BodyAt(text, m), true)] + MatchUses(text, m.1)
  }

  /** All references in a value, in the order in which they stand. */
  function Uses(v: Json): seq<Use>
    decreases v, 0
  {
    match v
    case Str(text) => if Whole(text).Some? then [Use(Whole(text).value, false)] else MatchUses(text, 0)
    case Obj(fields) => FieldUses(fields)
    case Arr(items, _) => ItemUses(items)
    case _ => []
  }

  function FieldUses(fields: Fields): seq<Use>
    decreases fields
  {
    if fields == [] then []
    else
      var (key, item) := fields[0];
      assert item < fields[0] && fields[0] in fields;
      Uses(item) + FieldUses(fields[1..])
  }

  function ItemUses(items: seq<Json>): seq<Use>
    decreases items
  {
    if items == [] then [] else Uses(items[0]) + ItemUses(items[1..])
  }
}
