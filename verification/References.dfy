/** What a template means, told from its parts: plain text, and references made of a path and a fallback. */
module References {
  import opened Values
  import opened Wrappers
  import opened Paths
  import opened Variables
  import opened TemplateTheorems

  // ------------------------------------------------------------ references as they are written

  ghost predicate Blank(s: string) { forall c :: c in s ==> IsSpace(c) }

  /** No white space at either end. */
  ghost predicate Trimmed(s: string) { s != [] ==> !IsSpace(s[0]) && !IsSpace(s[|s| - 1]) }

  /** The pieces with dots between them. */
  function Dotted(pieces: seq<string>): string {
    if pieces == [] then []
    else if |pieces| == 1 then pieces[0]
    else pieces[0] + "." + Dotted(pieces[1..])
  }

  /** Empty pieces, as of `a..b`, do not count. */
  function Counting(pieces: seq<string>): seq<string> {
    if pieces == [] then []
    else (if pieces[0] == [] then [] else [pieces[0]]) + Counting(pieces[1..])
  }

  /** `{{ a.b ?? literal }}`: margins, the pieces of the path, and the fallback with the space around its mark. */
  datatype Mention = Mention(
    left: string, pieces: seq<string>, fallback: Option<(string, string, string)>, right: string)
  {
    function Path(): string { Dotted(pieces) }

    function Body(): string {
      match fallback
      case None => Path()
      case Some((before, after, literal)) => Path() + before + "??" + after + literal
    }

    function Text(): string { "{{" + left + Body() + right + "}}" }

    /** Margins are white space and nothing else is at an end; the fallback's mark is the first of its kind. */
    ghost predicate Legal() {
      && Blank(left) && Blank(right) && Trimmed(Path()) && Body() != [] && BraceFree(left + Body() + right)
      && (forall p :: p in pieces ==> '.' !in p)
      && match fallback
         case None => forall i :: 0 <= i <= |Body()| ==> !Stands(Body(), i, "??")
         case Some((before, after, literal)) =>
           && Blank(before) && Blank(after) && Trimmed(literal)
           && (Path() == [] ==> before == []) && (literal == [] ==> after == [])
           && forall i :: 0 <= i < |Path() + before| ==> !Stands(Body(), i, "??")
    }
  }

  /** What a reference gives: what its path finds; or its fallback, if that is not empty and the path is missing. */
  ghost predicate Gives(values: Namespaces, host: Host, m: Mention, r: Result<Json, Trouble>) {
    exists found :: Found(values, host, Counting(m.pieces), m.Path(), found) &&
      if found.Failure? && found.error.Variable? && m.fallback.Some? && m.fallback.value.2 != [] then
        r == match host.parse(m.fallback.value.2)
             case Some(v) => Success(v)
             case None => Failure(BadLiteral(m.fallback.value.2))
      else r == found
  }

  // ------------------------------------------------------------ margins

  lemma {:induction false} LeftStripped(left: string, s: string)
    requires Blank(left) && (s != [] ==> !IsSpace(s[0]))
    ensures StripLeft(left + s) == s
  {
    if left == [] {
      assert left + s == s;
    } else {
      assert left[0] in left && (left + s)[1..] == left[1..] + s;
      LeftStripped(left[1..], s);
    }
  }

  lemma {:induction false} RightStripped(s: string, right: string)
    requires Blank(right) && (s != [] ==> !IsSpace(s[|s| - 1]))
    ensures StripRight(s + right) == s
  {
    if right == [] {
      assert s + right == s;
    } else {
      var front := right[..|right| - 1];
      assert right[|right| - 1] in right && (s + right)[..|s + right| - 1] == s + front;
      RightStripped(s, front);
    }
  }

  /** Stripping takes off exactly the margins. */
  lemma MarginsStripped(left: string, core: string, right: string)
    requires Blank(left) && Trimmed(core) && Blank(right)
    ensures Strip(left + core + right) == core
  {
    hide IsSpace;
    if core == [] {
      assert left + core + right == left + right + [];
      LeftStripped(left + right, []);
    } else {
      assert left + core + right == left + (core + right);
      LeftStripped(left, core + right);
      RightStripped(core, right);
    }
  }

  // ------------------------------------------------------------ paths and fallbacks

  lemma {:induction false} FirstMark(s: string, mark: string, from: nat, k: nat)
    requires from <= k <= |s| && mark != [] && (k < |s| ==> Stands(s, k, mark))
    requires forall i :: from <= i < k ==> !Stands(s, i, mark)
    ensures FindMark(s, mark, from) == k
    decreases |s| - from
  {
    if from < k {
      assert !Stands(s, from, mark);
      FirstMark(s, mark, from + 1, k);
    }
  }

  lemma {:induction false} PiecesSplit(pieces: seq<string>)
    requires forall p :: p in pieces ==> '.' !in p
    ensures Segments(Dotted(pieces)) == Counting(pieces)
    decreases |pieces|
  {
    if pieces != [] {
      var p, path := pieces[0], Dotted(pieces);
      assert p in pieces;
      forall i | 0 <= i < |p| ensures !Stands(path, i, ".") {
        assert path[i] == p[i];
      }
      if |pieces| == 1 {
        FirstMark(path, ".", 0, |p|);
        assert path[..|p|] == p && Counting(pieces[1..]) == [];
      } else {
        PiecesSplit(pieces[1..]);
        assert path[|p|..|p| + 1] == ".";
        FirstMark(path, ".", 0, |p|);
        assert path[..|p|] == p && path[|p| + 1..] == Dotted(pieces[1..]);
      }
    } else {
      FirstMark([], ".", 0, 0);
    }
  }

  lemma Bare(s: string)
    ensures "" + s + "" == s
  {}

  /** A body without a fallback, and one with a fallback, fall into their parts. */
  lemma PlainBody(path: string)
    requires Trimmed(path) && forall i :: 0 <= i <= |path| ==> !Stands(path, i, "??")
    ensures Strip(Partition(path).0) == path && Strip(Partition(path).1) == ""
  {
    hide IsSpace;
    hide Strip;
    hide Stands;
    FirstMark(path, "??", 0, |path|);
    Bare(path);
    Bare("");
    MarginsStripped("", path, "");
    MarginsStripped("", "", "");
  }

  lemma FallbackBody(path: string, before: string, after: string, literal: string)
    requires Trimmed(path) && Blank(before) && Blank(after) && Trimmed(literal)
    requires forall i :: 0 <= i < |path + before| ==> !Stands(path + before + "??" + after + literal, i, "??")
    ensures var parts := Partition(path + before + "??" + after + literal);
            Strip(parts.0) == path && Strip(parts.1) == literal
  {
    hide IsSpace;
    hide Strip;
    var body, mark := path + before + "??" + after + literal, |path + before|;
    assert body == (path + before) + ("??" + (after + literal));
    assert Stands(body, mark, "??");
    FirstMark(body, "??", 0, mark);
    assert body[..mark] == "" + path + before && body[mark + 2..] == after + literal + "";
    MarginsStripped("", path, before);
    MarginsStripped(after, literal, "");
  }

  lemma BodyTrimmed(m: Mention)
    requires m.Legal()
    ensures Trimmed(m.Body())
  {
    assert !IsSpace('?');
    hide IsSpace;
    if m.fallback.Some? {
      var (before, after, literal) := m.fallback.value;
      var body := m.Body();
      assert body[|body| - 1] == if literal != [] then literal[|literal| - 1] else '?';
      assert body[0] == if m.Path() != [] then m.Path()[0] else '?';
    }
  }

  lemma BodyOfMargins(left: string, body: string, right: string)
    requires Blank(left) && Trimmed(body) && Blank(right) && body != []
    ensures left + body + right != [] && Body(left + body + right) == body
  {
    hide IsSpace;
    hide Strip;
    MarginsStripped(left, body, right);
  }

  lemma MentionParts(m: Mention)
    requires m.Legal()
    ensures m.left + m.Body() + m.right != [] && BraceFree(m.left + m.Body() + m.right)
    ensures Body(m.left + m.Body() + m.right) == m.Body()
    ensures Strip(Partition(m.Body()).0) == m.Path()
    ensures Strip(Partition(m.Body()).1) == if m.fallback.Some? then m.fallback.value.2 else ""
  {
    hide Strip;
    hide Partition;
    hide IsSpace;
    hide Body;
    hide Stands;
    hide BraceFree;
    BodyTrimmed(m);
    BodyOfMargins(m.left, m.Body(), m.right);
    match m.fallback
    case None => PlainBody(m.Path());
    case Some((before, after, literal)) => FallbackBody(m.Path(), before, after, literal);
  }

  lemma MentionGives(values: Namespaces, host: Host, m: Mention)
    requires m.Legal()
    ensures forall r :: r == LookupBody(values, host, m.Body()) <==> Gives(values, host, m, r)
  {
    hide Found;
    hide Partition;
    hide Strip;
    hide Segments;
    hide Looked;
    MentionParts(m);
    PiecesSplit(m.pieces);
    LookedMeansFound(values, host, Counting(m.pieces), m.Path());
    hide Mention.Legal;
    hide Mention.Body;
    hide Mention.Path;
    hide BraceFree;
    hide Body;
    var found := Looked(values, host, Counting(m.pieces), m.Path());
    assert Found(values, host, Counting(m.pieces), m.Path(), found);
    var given := LookupBody(values, host, m.Body());
    assert Gives(values, host, m, given);
    forall r | Gives(values, host, m, r) ensures r == given {}
  }

  /** A string that is one reference and white space around it gives what the reference gives, as it is. */
  lemma AloneGives(values: Namespaces, host: Host, before: string, m: Mention, after: string)
    requires m.Legal() && Blank(before) && Blank(after)
    ensures forall r :: r == ResolveString(values, host, before + m.Text() + after) <==> Gives(values, host, m, r)
  {
    hide Strip;
    hide Body;
    hide Gives;
    hide Mention.Legal;
    hide Mention.Body;
    hide LookupBody;
    hide BraceFree;
    var text, inside := m.Text(), m.left + m.Body() + m.right;
    assert text == "{{" + inside + "}}";
    assert !IsSpace('{') && !IsSpace('}');
    hide IsSpace;
    MarginsStripped(before, text, after);
    MentionParts(m);
    MentionGives(values, host, m);
    hide Mention.Text;
    assert text[2..|text| - 2] == inside && text[..2] == "{{" && text[|text| - 2..] == "}}";
    assert IsReference(text, 0, |text|);
  }

  // ------------------------------------------------------------ texts

  /** Plain text and the reference behind it. */
  datatype Part = Part(plain: string, mention: Mention)

  ghost predicate AllLegal(parts: seq<Part>) {
    forall p :: p in parts ==> BraceFree(p.plain) && p.mention.Legal()
  }

  function Written(parts: seq<Part>, tail: string): string {
    if parts == [] then tail else parts[0].plain + parts[0].mention.Text() + Written(parts[1..], tail)
  }

  /** A value inside a text: strings as they are, nothing for null, numbers as they print unless they are integers
      of too many digits, and everything else as JSON. */
  function Shown(host: Host, v: Json): Result<string, Trouble> {
    match v
    case Str(s) => Success(s)
    case Null => Success("")
    case Bool(true) => Success("true")
    case Bool(false) => Success("false")
    case Number(n) =>
      var sign := if "-" <= n then 1 else 0;
      if host.maxDigits.Some? && |n| - sign > host.maxDigits.value
        && (forall i :: sign <= i < |n| ==> '0' <= n[i] <= '9')
      then Failure(Unprintable(v)) else Success(n)
    case _ =>
      match host.dump(v)
      case Some(s) => Success(s)
      case None => Failure(Unprintable(v))
  }

  /** Plain text, what a reference gives, and the rest of the text; the first trouble wins. */
  function Continued(host: Host, plain: string, given: Result<Json, Trouble>, rest: Result<string, Trouble>)
      : Result<string, Trouble>
  {
    if given.Failure? then Failure(given.error)
    else if Shown(host, given.value).Failure? then Failure(Shown(host, given.value).error)
    else if rest.Failure? then rest
    else Success(plain + Shown(host, given.value).value + rest.value)
  }

  /** The text with each reference replaced by what it gives, or the first trouble. */
  ghost predicate Reads(values: Namespaces, host: Host, parts: seq<Part>, tail: string, r: Result<string, Trouble>) {
    if parts == [] then r == Success(tail)
    else
      exists given, rest :: Gives(values, host, parts[0].mention, given)
                              && Reads(values, host, parts[1..], tail, rest)
                              && r == Continued(host, parts[0].plain, given, rest)
  }

  lemma ShownIsPrinted(host: Host, v: Json)
    ensures Shown(host, v) == Stringify(host, v)
  {
    if v.Number? {
      var n := v.literal;
      var digits := if n != [] && n[0] == '-' then n[1..] else n;
      var sign := if "-" <= n then 1 else 0;
      assert digits == n[sign..];
      assert forall i :: sign <= i < |n| ==> n[i] == digits[i - sign];
      assert forall i :: 0 <= i < |digits| ==> digits[i] == n[i + sign];
    }
  }

  lemma NoBraceNoReference(text: string, i: nat, end: nat)
    requires i < |text| ==> !IsBrace(text[i])
    ensures !IsReference(text, i, end)
  {
    if i + 2 <= |text| { assert text[i..i + 2][0] == text[i]; }
  }

  lemma Cut(text: string, from: nat, plain: string, inside: string, rest: string)
    requires from <= |text| && text[from..] == plain + ("{{" + inside + "}}") + rest
    ensures var start, end := from + |plain|, from + |plain| + |inside| + 4;
      && end <= |text| && text[from..start] == plain && text[end..] == rest
      && Stands(text, start, "{{") && text[start + 2..end - 2] == inside && Stands(text, end - 2, "}}")
  {
    var start, end, there := from + |plain|, from + |plain| + |inside| + 4, text[from..];
    assert there == plain + ("{{" + (inside + ("}}" + rest)));
    assert text[from..start] == there[..|plain|] && text[end..] == there[end - from..];
    assert text[start..start + 2] == there[|plain|..|plain| + 2] == "{{";
    assert text[start + 2..end - 2] == there[|plain| + 2..end - from - 2] == inside;
    assert text[end - 2..end] == there[end - from - 2..end - from] == "}}";
  }

  lemma NextBraces(text: string, from: nat, plain: string, inside: string, rest: string)
    requires from <= |text| && text[from..] == plain + ("{{" + inside + "}}") + rest
    requires BraceFree(plain) && BraceFree(inside) && inside != []
    ensures var start, end := from + |plain|, from + |plain| + |inside| + 4;
      && NextMatch(text, from) == Some((start, end)) && end <= |text| && text[start + 2..end - 2] == inside
      && text[from..start] == plain && text[end..] == rest
  {
    hide NextMatch;
    var start, end := from + |plain|, from + |plain| + |inside| + 4;
    Cut(text, from, plain, inside, rest);
    assert IsReference(text, start, end);
    forall i, e | from <= i < start ensures !IsReference(text, i, e) {
      assert text[i] == text[from..start][i - from] == plain[i - from];
      assert plain[i - from] in plain;
      NoBraceNoReference(text, i, e);
    }
    hide IsReference;
    NextMatchIsLeftmost(text, from, start, end);
  }

  lemma NextMention(text: string, from: nat, plain: string, m: Mention, rest: string)
    requires from <= |text| && text[from..] == plain + m.Text() + rest && BraceFree(plain) && m.Legal()
    ensures var start, end := from + |plain|, from + |plain| + |m.Text()|;
      && NextMatch(text, from) == Some((start, end)) && end <= |text|
      && text[start + 2..end - 2] == m.left + m.Body() + m.right
      && text[from..start] == plain && text[end..] == rest
  {
    hide Mention.Legal;
    hide Mention.Body;
    hide Body;
    hide NextMatch;
    hide BraceFree;
    hide IsReference;
    var inside := m.left + m.Body() + m.right;
    MentionParts(m);
    assert m.Text() == "{{" + inside + "}}";
    hide Mention.Text;
    NextBraces(text, from, plain, inside, rest);
  }

  lemma NoMention(text: string, from: nat)
    requires from <= |text| && BraceFree(text[from..])
    ensures NextMatch(text, from).None?
  {
    hide NextMatch;
    hide IsReference;
    hide IsBrace;
    if m :| NextMatch(text, from) == Some(m) {
      assert m.0 < |text| ==> text[m.0] in text[from..];
      NoBraceNoReference(text, m.0, m.1);
    }
  }

  lemma SubstituteStep(values: Namespaces, host: Host, text: string, from: nat, m: (nat, nat))
    requires from <= |text| && NextMatch(text, from) == Some(m)
    ensures Substitute(values, host, text, from)
         == Continued(host, text[from..m.0], LookupBody(values, host, BodyAt(text, m)),
                      Substitute(values, host, text, m.1))
  {
    hide LookupBody;
    hide Shown;
    hide Stringify;
    hide BodyAt;
    hide NextMatch;
    var given := LookupBody(values, host, BodyAt(text, m));
    if given.Success? { ShownIsPrinted(host, given.value); }
  }

  /** One reference further: what the text reads is fixed by what the reference gives and what the rest reads. */
  lemma ReadsStep(
    values: Namespaces, host: Host, parts: seq<Part>, tail: string,
    given: Result<Json, Trouble>, rest: Result<string, Trouble>)
    requires parts != [] && forall r :: r == given <==> Gives(values, host, parts[0].mention, r)
    requires forall r :: r == rest <==> Reads(values, host, parts[1..], tail, r)
    ensures forall r :: r == Continued(host, parts[0].plain, given, rest) <==> Reads(values, host, parts, tail, r)
  {
    hide Gives;
    hide Continued;
    assert Gives(values, host, parts[0].mention, given);
    assert Reads(values, host, parts[1..], tail, rest);
  }

  /** What the interpreter does at the next reference. */
  lemma MentionStep(values: Namespaces, host: Host, text: string, from: nat, p: Part, rest: string) returns (end: nat)
    requires from <= |text| && text[from..] == p.plain + p.mention.Text() + rest
    requires BraceFree(p.plain) && p.mention.Legal()
    ensures from <= end <= |text| && text[end..] == rest
    ensures Substitute(values, host, text, from)
         == Continued(host, p.plain, LookupBody(values, host, p.mention.Body()), Substitute(values, host, text, end))
  {
    hide NextMatch;
    hide LookupBody;
    hide Continued;
    hide Substitute;
    hide Body;
    hide BraceFree;
    hide Mention.Legal;
    hide Mention.Body;
    var start := from + |p.plain|;
    end := start + |p.mention.Text()|;
    NextMention(text, from, p.plain, p.mention, rest);
    MentionParts(p.mention);
    SubstituteStep(values, host, text, from, (start, end));
  }

  lemma {:induction false} TextReads(
    values: Namespaces, host: Host, text: string, from: nat, parts: seq<Part>, tail: string)
    requires from <= |text| && text[from..] == Written(parts, tail) && AllLegal(parts) && BraceFree(tail)
    ensures forall r :: r == Substitute(values, host, text, from) <==> Reads(values, host, parts, tail, r)
    decreases |parts|
  {
    hide Gives;
    hide NextMatch;
    hide LookupBody;
    hide Continued;
    if parts == [] {
      NoMention(text, from);
    } else {
      hide BraceFree;
      hide Mention.Legal;
      hide Mention.Text;
      hide Mention.Body;
      hide Substitute;
      hide Reads;
      var p := parts[0];
      assert p in parts;
      var end := MentionStep(values, host, text, from, p, Written(parts[1..], tail));
      MentionGives(values, host, p.mention);
      TextReads(values, host, text, end, parts[1..], tail);
      ReadsStep(values, host, parts, tail, LookupBody(values, host, p.mention.Body()),
                Substitute(values, host, text, end));
    }
  }

  // ------------------------------------------------------------ a reference that is not alone

  lemma {:induction false} LeftCut(s: string)
    ensures var a := |s| - |StripLeft(s)|; 0 <= a && s[a..] == StripLeft(s) && Blank(s[..a])
  {
    if s != [] && IsSpace(s[0]) {
      LeftCut(s[1..]);
      var a := |s| - |StripLeft(s)|;
      assert s[..a] == [s[0]] + s[1..][..a - 1];
    }
  }

  lemma {:induction false} RightCut(s: string)
    ensures var b := |StripRight(s)|; b <= |s| && s[..b] == StripRight(s) && Blank(s[b..])
  {
    if s != [] && IsSpace(s[|s| - 1]) {
      var front := s[..|s| - 1];
      RightCut(front);
      var b := |StripRight(s)|;
      assert s[b..] == front[b..] + [s[|s| - 1]];
    }
  }

  /** What stripping takes away is white space. */
  lemma StripCuts(s: string) returns (a: nat, b: nat)
    ensures a <= b <= |s| && s[a..b] == Strip(s) && Blank(s[..a]) && Blank(s[b..])
  {
    hide IsSpace;
    LeftCut(s);
    RightCut(StripLeft(s));
    a := |s| - |StripLeft(s)|;
    b := a + |Strip(s)|;
    assert StripLeft(s)[|Strip(s)|..] == s[b..];
  }

  lemma NotWhite(m: Mention, plain: string, rest: string, a: nat)
    requires a <= |plain + m.Text() + rest| && Blank((plain + m.Text() + rest)[..a])
    ensures a <= |plain|
  {
    hide Mention.Body;
    assert !IsSpace('{');
    var text := plain + m.Text() + rest;
    assert m.Text()[0] == '{' && text[|plain|] == '{';
    forall i | 0 <= i < a ensures IsSpace(text[i]) { assert text[..a][i] in text[..a]; }
  }

  lemma MentionNotBlank(m: Mention, plain: string, rest: string)
    ensures !Blank(plain + m.Text() + rest)
  {
    hide Mention.Body;
    assert !IsSpace('{');
    var text := plain + m.Text() + rest;
    assert m.Text()[0] == '{' && text[|plain|] == '{';
    assert text[|plain|] in text;
  }

  /** The reference that is all of a string, margins apart, is the first one in it. */
  lemma FirstIsWhole(text: string, p: Part, rest: string)
    requires text == p.plain + p.mention.Text() + rest && BraceFree(p.plain) && p.mention.Legal()
    requires Whole(text).Some?
    ensures Blank(p.plain) && Blank(rest)
  {
    hide Strip;
    hide NextMatch;
    hide IsSpace;
    hide Mention.Legal;
    hide Mention.Body;
    hide Body;
    hide BraceFree;
    assert text[0..] == text;
    NextMention(text, 0, p.plain, p.mention, rest);
    var a, b := StripCuts(text);
    ReferenceInside(text, a, Strip(text));
    NotWhite(p.mention, p.plain, rest, a);
    hide Mention.Text;
    hide IsReference;
    var start, end := |p.plain|, |p.plain| + |p.mention.Text()|;
    NextMatchIsLeftmost(text, 0, start, end);
    assert a == start;
    NextMatchIsLeftmost(text, 0, a, b);
    assert text[0..start] == text[..a];
  }

  lemma NothingWhole(tail: string)
    requires BraceFree(tail)
    ensures Whole(tail).None?
  {
    hide Whole;
    hide NextMatch;
    if Whole(tail).Some? {
      WholeHasMatch(tail);
      assert tail[0..] == tail;
      NoMention(tail, 0);
    }
  }

  /** Only white space stands around the reference of a string that is one. */
  lemma WholeIsAlone(parts: seq<Part>, tail: string)
    requires AllLegal(parts) && BraceFree(tail) && Whole(Written(parts, tail)).Some?
    ensures |parts| == 1 && Blank(parts[0].plain) && Blank(tail)
  {
    hide Whole;
    hide Mention.Legal;
    hide Mention.Text;
    hide BraceFree;
    hide Blank;
    NothingWhole(tail);
    var rest := Written(parts[1..], tail);
    assert parts[0] in parts;
    FirstIsWhole(Written(parts, tail), parts[0], rest);
    if |parts| > 1 { MentionNotBlank(parts[1].mention, parts[1].plain, Written(parts[1..][1..], tail)); }
  }

  /** Any other text is read piece by piece: what stands between the references is kept, each reference is
      replaced by what it gives as a text, and the first trouble is the result. */
  lemma TextResolves(values: Namespaces, host: Host, parts: seq<Part>, tail: string)
    requires AllLegal(parts) && BraceFree(tail) && !(|parts| == 1 && Blank(parts[0].plain) && Blank(tail))
    ensures forall r :: Reads(values, host, parts, tail, r) <==>
      ResolveString(values, host, Written(parts, tail))
        == if r.Failure? then Failure(r.error) else Success(Str(r.value))
  {
    hide Reads;
    hide Written;
    hide Whole;
    hide Substitute;
    hide Blank;
    hide AllLegal;
    hide BraceFree;
    var text := Written(parts, tail);
    if Whole(text).Some? { WholeIsAlone(parts, tail); }
    assert text[0..] == text;
    TextReads(values, host, text, 0, parts, tail);
  }
}
