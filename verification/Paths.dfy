/** What a path of segments finds in nested values: the lookup as the code computes it, and an account of it
    that does not walk. */
module Paths {
  import opened Dicts
  import opened Values
  import opened Wrappers

  type Namespaces = map<string, Fields>

  /** A `VariableError`, with what its message names. */
  datatype Missing =
    | EmptyReference
    | UnknownNamespace(namespace: string, path: string, available: set<string>)
    | NoField(walked: seq<string>, segment: string, path: string)
    | NotAnIndex(walked: seq<string>, segment: string, path: string)
    | IndexOutOfRange(walked: seq<string>, count: nat, index: int)
    | NotReadable(walked: seq<string>, cursor: Json, segment: string)

  /** What resolving can raise. An index that `int` refuses raises a ValueError, a literal can, say an integer
      of too many digits, and so can printing a value: none of them is a `VariableError`. */
  datatype Trouble =
    | Variable(missing: Missing)
    | BadInteger(segment: string)
    | BadLiteral(literal: string)
    | Unprintable(value: Json)

  /** What Python supplies: `_literal` and `json.dumps` (`None` where they raise), `str.isdigit` of one character,
      its decimal value if it has one (a superscript has none), and the number of digits up to which integers
      are converted to text and back. */
  datatype Host = Host(
    parse: string -> Option<Json>, dump: Json -> Option<string>,
    isDigit: char -> bool, decimal: char -> Option<nat>, maxDigits: Option<nat>)

  // ------------------------------------------------------------ lookup

  function StripDashes(s: string): string {
    if s != [] && s[0] == '-' then StripDashes(s[1..]) else s
  }

  /** `segment.lstrip("-").isdigit()`. */
  predicate LooksLikeIndex(host: Host, segment: string) {
    var digits := StripDashes(segment);
    digits != [] && forall c :: c in digits ==> host.isDigit(c)
  }

  function Digits(host: Host, s: string): Option<nat> {
    if s == [] then Some(0)
    else
      match (Digits(host, s[..|s| - 1]), host.decimal(s[|s| - 1]))
      case (Some(high), Some(low)) => Some(10 * high + low)
      case _ => None
  }

  /** `int(segment)`: at most one sign, every digit a decimal one, and not too many; `None` where it raises. */
  function ToInteger(host: Host, segment: string): Option<int> {
    var digits := StripDashes(segment);
    if host.maxDigits.Some? && |digits| > host.maxDigits.value then None
    else
      match Digits(host, digits)
      case None => None
      case Some(n) =>
        if |digits| == |segment| then Some(n)
        else if |digits| == |segment| - 1 then Some(0 - n)
        else None
  }

  /** `_step`: one segment further. */
  function Step(host: Host, cursor: Json, segment: string, path: string, walked: seq<string>): Result<Json, Trouble> {
    match cursor
    case Obj(fields) =>
      (match Find(fields, segment)
       case Some(found) => Success(found)
       case None => Failure(Variable(NoField(walked, segment, path))))
    case Arr(items, _) =>
      if !LooksLikeIndex(host, segment) then Failure(Variable(NotAnIndex(walked, segment, path)))
      else
        (match ToInteger(host, segment)
         case None => Failure(BadInteger(segment))
         case Some(index) =>
           if 0 <= index < |items| then Success(items[index])
           else if -|items| <= index < 0 then Success(items[|items| + index])
           else Failure(Variable(IndexOutOfRange(walked, |items|, index))))
    case _ => Failure(Variable(NotReadable(walked, cursor, segment)))
  }

  function Walk(host: Host, cursor: Json, segments: seq<string>, index: nat, path: string): Result<Json, Trouble>
    decreases |segments| - index
  {
    if index >= |segments| then Success(cursor)
    else
      var next :- Step(host, cursor, segments[index], path, segments[..index]);
      Walk(host, next, segments, index + 1, path)
  }

  function Looked(values: Namespaces, host: Host, segments: seq<string>, path: string): Result<Json, Trouble> {
    if segments == [] then Failure(Variable(EmptyReference))
    else if segments[0] !in values then Failure(Variable(UnknownNamespace(segments[0], path, values.Keys)))
    else Walk(host, Obj(values[segments[0]]), segments, 1, path)
  }

  // ------------------------------------------------------------ the number a segment writes

  function Tens(k: nat): nat { if k == 0 then 1 else 10 * Tens(k - 1) }

  ghost predicate Decimal(host: Host, digits: string) { forall c :: c in digits ==> host.decimal(c).Some? }

  /** The value of a numeral: each digit times its power of ten. */
  ghost function Positional(host: Host, digits: string): nat
    requires Decimal(host, digits)
  {
    if digits == [] then 0
    else host.decimal(digits[0]).value * Tens(|digits| - 1) + Positional(host, digits[1..])
  }

  /** Digits that `int` converts. */
  ghost predicate Readable(host: Host, digits: string) {
    && digits != [] && digits[0] != '-'
    && (forall c :: c in digits ==> host.isDigit(c)) && Decimal(host, digits)
    && (host.maxDigits.Some? ==> |digits| <= host.maxDigits.value)
  }

  /** The segment is a numeral for `index`, or a dash and a numeral for what `index` lies below zero. */
  ghost predicate Writes(host: Host, segment: string, index: int) {
    || (Readable(host, segment) && index == Positional(host, segment))
    || (segment != [] && segment[0] == '-' && Readable(host, segment[1..])
        && index == 0 - Positional(host, segment[1..]))
  }

  ghost function Dashes(count: nat): string { seq(count, _ => '-') }

  /** Dashes first, then something that does not begin with one. */
  ghost predicate Dashed(segment: string, dashes: nat, rest: string) {
    segment == Dashes(dashes) + rest && (rest != [] ==> rest[0] != '-')
  }

  // ------------------------------------------------------------ where a path leads

  /** An object leads to the value under the key; a list to the item with this number, counted from its end
      if it is negative. */
  ghost predicate Leads(host: Host, cursor: Json, segment: string, next: Json) {
    match cursor
    case Obj(fields) =>
      exists k :: 0 <= k < |fields| && fields[k] == (segment, next) && forall j :: 0 <= j < k ==> fields[j].0 != segment
    case Arr(items, _) =>
      exists k :: 0 <= k < |items| && items[k] == next
                    && (Writes(host, segment, k) || Writes(host, segment, k - |items|))
    case _ => false
  }

  /** Why a segment of so many dashes and these digits does not lead to one of `count` items. */
  ghost predicate NoItem(
    host: Host, count: nat, segment: string, dashes: nat, digits: string,
    path: string, walked: seq<string>, trouble: Trouble)
  {
    if digits == [] || exists c :: c in digits && !host.isDigit(c) then
      trouble == Variable(NotAnIndex(walked, segment, path))
    else if dashes > 1 || !Readable(host, digits) then trouble == BadInteger(segment)
    else
      exists i :: Writes(host, segment, i) && (i >= count || i + count < 0)
                    && trouble == Variable(IndexOutOfRange(walked, count, i))
  }

  /** Why it leads nowhere. */
  ghost predicate Stuck(
    host: Host, cursor: Json, segment: string, path: string, walked: seq<string>, trouble: Trouble)
  {
    match cursor
    case Obj(fields) => !HasKey(fields, segment) && trouble == Variable(NoField(walked, segment, path))
    case Arr(items, _) =>
      exists dashes, digits ::
        Dashed(segment, dashes, digits) && NoItem(host, |items|, segment, dashes, digits, path, walked, trouble)
    case _ => trouble == Variable(NotReadable(walked, cursor, segment))
  }

  ghost predicate Reaches(host: Host, cursor: Json, segments: seq<string>, target: Json)
    decreases |segments|
  {
    if segments == [] then target == cursor
    else exists next :: Leads(host, cursor, segments[0], next) && Reaches(host, next, segments[1..], target)
  }

  /** The outcome of a lookup: what the segments after the namespace reach, or the trouble at the first one
      that leads nowhere, with the segments walked so far. */
  ghost predicate Found(
    values: Namespaces, host: Host, segments: seq<string>, path: string, r: Result<Json, Trouble>)
  {
    if segments == [] then r == Failure(Variable(EmptyReference))
    else if segments[0] !in values then r == Failure(Variable(UnknownNamespace(segments[0], path, values.Keys)))
    else
      match r
      case Success(found) => Reaches(host, Obj(values[segments[0]]), segments[1..], found)
      case Failure(trouble) =>
        exists k, cursor :: 1 <= k < |segments| && Reaches(host, Obj(values[segments[0]]), segments[1..k], cursor)
                              && Stuck(host, cursor, segments[k], path, segments[..k], trouble)
  }

  // ------------------------------------------------------------ the lookup does just that

  lemma {:induction false} PositionalGrows(host: Host, digits: string, c: char)
    requires Decimal(host, digits + [c])
    ensures Decimal(host, digits) && host.decimal(c).Some?
    ensures Positional(host, digits + [c]) == 10 * Positional(host, digits) + host.decimal(c).value
  {
    var longer := digits + [c];
    assert c in longer;
    forall d | d in digits ensures host.decimal(d).Some? { assert d in longer; }
    if digits == [] {
      assert longer[1..] == [] && Tens(0) == 1;
    } else {
      assert longer[1..] == digits[1..] + [c];
      PositionalGrows(host, digits[1..], c);
      assert Tens(|digits|) == 10 * Tens(|digits| - 1);
      Regrouped(host.decimal(digits[0]).value, Tens(|digits| - 1));
    }
  }

  lemma Regrouped(d: nat, weight: nat)
    ensures d * (10 * weight) == 10 * (d * weight)
  {}

  lemma {:induction false} DigitsValue(host: Host, s: string)
    ensures Digits(host, s) == if Decimal(host, s) then Some(Positional(host, s)) else None
  {
    if s != [] {
      var front, c := s[..|s| - 1], s[|s| - 1];
      assert s == front + [c];
      DigitsValue(host, front);
      if Decimal(host, s) {
        PositionalGrows(host, front, c);
      } else if Decimal(host, front) {
        assert host.decimal(c).None?;
      }
    }
  }

  lemma {:induction false} DashesStripped(segment: string)
    ensures |StripDashes(segment)| <= |segment|
    ensures Dashed(segment, |segment| - |StripDashes(segment)|, StripDashes(segment))
  {
    if segment != [] && segment[0] == '-' {
      DashesStripped(segment[1..]);
      var rest := StripDashes(segment);
      assert Dashes(|segment| - |rest|) == ['-'] + Dashes(|segment| - 1 - |rest|);
      assert segment == ['-'] + segment[1..];
    } else {
      assert Dashes(0) == [];
    }
  }

  lemma {:induction false} DashedIsStripped(segment: string, dashes: nat, rest: string)
    requires Dashed(segment, dashes, rest)
    ensures rest == StripDashes(segment) && dashes == |segment| - |rest|
  {
    if dashes > 0 {
      assert segment[1..] == Dashes(dashes - 1) + rest;
      DashedIsStripped(segment[1..], dashes - 1, rest);
    }
  }

  /** `int` reads what the segment writes, and refuses a second dash and digits it cannot convert. */
  lemma IntegerWritten(host: Host, segment: string)
    requires LooksLikeIndex(host, segment)
    ensures ToInteger(host, segment).Some? ==> Writes(host, segment, ToInteger(host, segment).value)
    ensures ToInteger(host, segment).None? <==>
              |segment| - |StripDashes(segment)| > 1 || !Readable(host, StripDashes(segment))
  {
    hide Positional;
    var digits := StripDashes(segment);
    DashesStripped(segment);
    DigitsValue(host, digits);
    if |digits| == |segment| - 1 {
      assert segment[0] == '-' && segment[1..] == digits;
    }
  }

  lemma WrittenInteger(host: Host, segment: string, i: int)
    requires Writes(host, segment, i)
    ensures LooksLikeIndex(host, segment) && ToInteger(host, segment) == Some(i)
  {
    hide Positional;
    var dashes, digits := if Readable(host, segment) then 0 else 1,
                          if Readable(host, segment) then segment else segment[1..];
    assert Dashes(1) == ['-'];
    assert Dashed(segment, dashes, digits);
    DashedIsStripped(segment, dashes, digits);
    DigitsValue(host, digits);
  }

  lemma {:induction false} FindFirst(fields: Fields, key: string)
    ensures Find(fields, key).None? <==> !HasKey(fields, key)
    ensures forall k :: 0 <= k < |fields| && fields[k].0 == key && (forall j :: 0 <= j < k ==> fields[j].0 != key) ==>
              Find(fields, key) == Some(fields[k].1)
    ensures Find(fields, key).Some? ==>
              exists k :: 0 <= k < |fields| && fields[k] == (key, Find(fields, key).value)
                            && forall j :: 0 <= j < k ==> fields[j].0 != key
  {
    if fields != [] && fields[0].0 != key {
      var rest := fields[1..];
      FindFirst(rest, key);
      if HasKey(fields, key) {
        var i :| 0 <= i < |fields| && fields[i].0 == key;
        assert rest[i - 1].0 == key;
      }
      if HasKey(rest, key) {
        var i :| 0 <= i < |rest| && rest[i].0 == key;
        assert fields[i + 1].0 == key;
      }
      forall k | 0 <= k < |fields| && fields[k].0 == key && (forall j :: 0 <= j < k ==> fields[j].0 != key)
        ensures Find(fields, key) == Some(fields[k].1)
      {
        assert rest[k - 1] == fields[k];
        forall j | 0 <= j < k - 1 ensures rest[j].0 != key { assert fields[j + 1].0 != key; }
      }
      if Find(rest, key).Some? {
        var k :| 0 <= k < |rest| && rest[k] == (key, Find(rest, key).value)
                   && forall j :: 0 <= j < k ==> rest[j].0 != key;
        assert fields[k + 1] == rest[k];
        forall j | 0 <= j < k + 1 ensures fields[j].0 != key { assert j > 0 ==> rest[j - 1].0 != key; }
      }
    }
  }

  lemma StepFinds(host: Host, cursor: Json, segment: string, path: string, walked: seq<string>)
    ensures var r := Step(host, cursor, segment, path, walked);
            if r.Success? then Leads(host, cursor, segment, r.value)
            else Stuck(host, cursor, segment, path, walked, r.error)
  {
    hide Writes;
    hide Readable;
    match cursor
    case Obj(fields) => FindFirst(fields, segment);
    case Arr(items, _) =>
      DashesStripped(segment);
      if LooksLikeIndex(host, segment) {
        IntegerWritten(host, segment);
        if ToInteger(host, segment).Some? {
          var i := ToInteger(host, segment).value;
          if i < 0 { assert Writes(host, segment, (|items| + i) - |items|); }
        }
      }
    case _ =>
  }

  lemma LeadsSteps(host: Host, cursor: Json, segment: string, path: string, walked: seq<string>, next: Json)
    requires Leads(host, cursor, segment, next)
    ensures Step(host, cursor, segment, path, walked) == Success(next)
  {
    hide Writes;
    match cursor
    case Obj(fields) => FindFirst(fields, segment);
    case Arr(items, _) =>
      var k :| 0 <= k < |items| && items[k] == next
                 && (Writes(host, segment, k) || Writes(host, segment, k - |items|));
      WrittenInteger(host, segment, if Writes(host, segment, k) then k else k - |items|);
  }

  lemma StuckSteps(host: Host, cursor: Json, segment: string, path: string, walked: seq<string>, trouble: Trouble)
    requires Stuck(host, cursor, segment, path, walked, trouble)
    ensures Step(host, cursor, segment, path, walked) == Failure(trouble)
  {
    hide Writes;
    match cursor
    case Obj(fields) => FindFirst(fields, segment);
    case Arr(items, _) =>
      var dashes, digits :|
        Dashed(segment, dashes, digits) && NoItem(host, |items|, segment, dashes, digits, path, walked, trouble);
      DashedIsStripped(segment, dashes, digits);
      if LooksLikeIndex(host, segment) {
        IntegerWritten(host, segment);
        forall i | Writes(host, segment, i) ensures ToInteger(host, segment) == Some(i) {
          WrittenInteger(host, segment, i);
        }
      }
    case _ =>
  }

  /** From `index` on, the walk ends where the remaining segments lead, or at the first that leads nowhere. */
  ghost predicate WalkFinds(
    host: Host, cursor: Json, segments: seq<string>, index: nat, path: string, r: Result<Json, Trouble>)
    requires index <= |segments|
  {
    match r
    case Success(found) => Reaches(host, cursor, segments[index..], found)
    case Failure(trouble) =>
      exists k, last :: index <= k < |segments| && Reaches(host, cursor, segments[index..k], last)
                          && Stuck(host, last, segments[k], path, segments[..k], trouble)
  }

  lemma WalkFindsLater(host: Host, cursor: Json, next: Json, segments: seq<string>, index: nat, path: string,
                       r: Result<Json, Trouble>)
    requires index < |segments| && Leads(host, cursor, segments[index], next)
    requires WalkFinds(host, next, segments, index + 1, path, r)
    ensures WalkFinds(host, cursor, segments, index, path, r)
  {
    hide Leads;
    hide Stuck;
    if r.Success? {
      assert segments[index..][1..] == segments[index + 1..];
    } else {
      var k, last :| index + 1 <= k < |segments| && Reaches(host, next, segments[index + 1..k], last)
                       && Stuck(host, last, segments[k], path, segments[..k], r.error);
      assert segments[index..k][1..] == segments[index + 1..k] && segments[index..k][0] == segments[index];
    }
  }

  lemma {:induction false} WalkFound(host: Host, cursor: Json, segments: seq<string>, index: nat, path: string)
    requires index <= |segments|
    ensures WalkFinds(host, cursor, segments, index, path, Walk(host, cursor, segments, index, path))
    decreases |segments| - index
  {
    hide Leads;
    hide Stuck;
    hide Step;
    if index == |segments| {
      assert segments[index..] == [];
    } else {
      StepFinds(host, cursor, segments[index], path, segments[..index]);
      var r := Step(host, cursor, segments[index], path, segments[..index]);
      if r.Success? {
        WalkFound(host, r.value, segments, index + 1, path);
        WalkFindsLater(host, cursor, r.value, segments, index, path, Walk(host, cursor, segments, index, path));
      } else {
        assert segments[index..index] == [];
      }
    }
  }

  lemma {:induction false} FoundWalks(
    host: Host, cursor: Json, segments: seq<string>, index: nat, path: string, r: Result<Json, Trouble>)
    requires index <= |segments| && WalkFinds(host, cursor, segments, index, path, r)
    ensures Walk(host, cursor, segments, index, path) == r
    decreases |segments| - index
  {
    hide Leads;
    hide Stuck;
    hide Step;
    var rest := segments[index..];
    if r.Success? {
      if rest != [] {
        var next :| Leads(host, cursor, rest[0], next) && Reaches(host, next, rest[1..], r.value);
        LeadsSteps(host, cursor, segments[index], path, segments[..index], next);
        assert rest[1..] == segments[index + 1..];
        FoundWalks(host, next, segments, index + 1, path, r);
      }
    } else {
      var k, last :| index <= k < |segments| && Reaches(host, cursor, segments[index..k], last)
                       && Stuck(host, last, segments[k], path, segments[..k], r.error);
      if k == index {
        StuckSteps(host, cursor, segments[k], path, segments[..k], r.error);
      } else {
        var part := segments[index..k];
        var next :| Leads(host, cursor, part[0], next) && Reaches(host, next, part[1..], last);
        LeadsSteps(host, cursor, segments[index], path, segments[..index], next);
        assert part[1..] == segments[index + 1..k];
        FoundWalks(host, next, segments, index + 1, path, r);
      }
    }
  }

  /** Of every path the lookup gives the one outcome there is. */
  lemma LookedMeansFound(values: Namespaces, host: Host, segments: seq<string>, path: string)
    ensures forall r :: r == Looked(values, host, segments, path) <==> Found(values, host, segments, path, r)
  {
    hide Reaches;
    hide Stuck;
    hide Walk;
    if segments != [] && segments[0] in values {
      var start := Obj(values[segments[0]]);
      WalkFound(host, start, segments, 1, path);
      forall r ensures Found(values, host, segments, path, r) <==> WalkFinds(host, start, segments, 1, path, r) {}
      forall r | WalkFinds(host, start, segments, 1, path, r) ensures r == Looked(values, host, segments, path) {
        FoundWalks(host, start, segments, 1, path, r);
      }
    }
  }

  // ------------------------------------------------------------ numerals

  function DigitOf(d: nat): char
    requires d < 10
  {
    "0123456789"[d]
  }

  /** `str(k)`. */
  function DecimalText(k: nat): string {
    if k < 10 then [DigitOf(k)] else DecimalText(k / 10) + [DigitOf(k % 10)]
  }

  /** The host knows the ASCII digits. */
  ghost predicate KnowsDigits(host: Host) {
    forall d: nat :: d < 10 ==> host.isDigit(DigitOf(d)) && host.decimal(DigitOf(d)) == Some(d)
  }

  lemma {:induction false} TextReadable(host: Host, k: nat)
    requires KnowsDigits(host)
    ensures var text := DecimalText(k);
            && text != [] && text[0] != '-' && (forall c :: c in text ==> host.isDigit(c))
            && Decimal(host, text) && Positional(host, text) == k
  {
    if k < 10 {
      assert host.decimal(DigitOf(k)) == Some(k);
      assert [DigitOf(k)][1..] == [] && Tens(0) == 1;
    } else {
      TextReadable(host, k / 10);
      assert host.decimal(DigitOf(k % 10)) == Some(k % 10);
      PositionalGrows(host, DecimalText(k / 10), DigitOf(k % 10));
    }
  }

  /** A list segment that is a number in decimal leads to the item with that number, and with a dash before it
      to the item that far from the end; any other number is out of range. */
  lemma DecimalIndex(host: Host, items: seq<Json>, asTuple: bool, k: nat, path: string, walked: seq<string>)
    requires KnowsDigits(host) && (host.maxDigits.Some? ==> |DecimalText(k)| <= host.maxDigits.value)
    ensures var r := Step(host, Arr(items, asTuple), DecimalText(k), path, walked);
            r == if k < |items| then Success(items[k]) else Failure(Variable(IndexOutOfRange(walked, |items|, k)))
    ensures var r := Step(host, Arr(items, asTuple), "-" + DecimalText(k), path, walked);
            k > 0 ==> r == if k <= |items| then Success(items[|items| - k])
                           else Failure(Variable(IndexOutOfRange(walked, |items|, 0 - k)))
  {
    TextReadable(host, k);
    var text := DecimalText(k);
    assert ("-" + text)[1..] == text;
    WrittenInteger(host, text, k);
    WrittenInteger(host, "-" + text, 0 - k);
  }
}
