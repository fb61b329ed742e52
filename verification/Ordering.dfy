/** Node identifiers and the order in which Python's `sorted` puts them. */
module Ordering {

  /** A node identifier. Wrapping the name keeps comparisons of identifiers cheap to reason about. */
  datatype Id = Id(name: string)

  ghost predicate Distinct<T>(s: seq<T>) {
    forall i, j :: 0 <= i < j < |s| ==> s[i] != s[j]
  }

  /** Code-point order on strings: the `<=` of Python's `str`. */
  predicate TextAtMost(a: string, b: string) {
    a == [] || (b != [] && (a[0] < b[0] || (a[0] == b[0] && TextAtMost(a[1..], b[1..]))))
  }

  /** A text comes before another exactly if it is a beginning of it, or has the smaller code point at the first
      place where they differ. */
  lemma {:induction false} TextAtMostIff(a: string, b: string)
    ensures TextAtMost(a, b) <==>
              a <= b || exists k :: 0 <= k < |a| && k < |b| && a[..k] == b[..k] && a[k] < b[k]
  {
    if a != [] && b != [] && a[0] == b[0] {
      var a', b' := a[1..], b[1..];
      TextAtMostIff(a', b');
      assert a == [a[0]] + a' && b == [b[0]] + b';
      if k :| 0 <= k < |a'| && k < |b'| && a'[..k] == b'[..k] && a'[k] < b'[k] {
        assert a[..k + 1] == [a[0]] + a'[..k] == b[..k + 1] && a[k + 1] < b[k + 1];
      }
      if k :| 0 <= k < |a| && k < |b| && a[..k] == b[..k] && a[k] < b[k] {
        assert a'[..k - 1] == a[..k][1..] == b[..k][1..] == b'[..k - 1] && a'[k - 1] < b'[k - 1];
      }
    } else if a != [] && b != [] {
      assert a[..0] == b[..0];
    }
  }

  predicate AtMost(a: Id, b: Id) { TextAtMost(a.name, b.name) }

  lemma {:induction false} TextTotal(a: string, b: string)
    ensures TextAtMost(a, b) || TextAtMost(b, a)
  {
    if a != [] && b != [] && a[0] == b[0] {
      TextTotal(a[1..], b[1..]);
    }
  }

  lemma {:induction false} TextAntisymmetric(a: string, b: string)
    requires TextAtMost(a, b) && TextAtMost(b, a)
    ensures a == b
  {
    if a != [] {
      TextAntisymmetric(a[1..], b[1..]);
      assert a == [a[0]] + a[1..] && b == [b[0]] + b[1..];
    }
  }

  lemma {:induction false} TextTransitive(a: string, b: string, c: string)
    requires TextAtMost(a, b) && TextAtMost(b, c)
    ensures TextAtMost(a, c)
  {
    if a != [] && a[0] == b[0] && b[0] == c[0] {
      TextTransitive(a[1..], b[1..], c[1..]);
    }
  }

  ghost predicate Ascending(s: seq<Id>) {
    forall i, j :: 0 <= i < j < |s| ==> AtMost(s[i], s[j])
  }

  function Insert(x: Id, s: seq<Id>): (r: seq<Id>)
    requires Ascending(s)
    ensures Ascending(r)
    ensures multiset(r) == multiset(s) + multiset{x}
  {
    if s == [] then [x]
    else if AtMost(x, s[0]) then
      InsertFirst(x, s);
      assert [x] + s == [x] + s;
      [x] + s
    else
      assert s == [s[0]] + s[1..];
      var rest := Insert(x, s[1..]);
      InsertLater(x, s, rest);
      [s[0]] + rest
  }

  lemma InsertFirst(x: Id, s: seq<Id>)
    requires Ascending(s) && s != [] && AtMost(x, s[0])
    ensures Ascending([x] + s)
  {
    forall j | 0 <= j < |s| ensures AtMost(x, s[j]) {
      if j > 0 { TextTransitive(x.name, s[0].name, s[j].name); }
    }
  }

  lemma InsertLater(x: Id, s: seq<Id>, rest: seq<Id>)
    requires Ascending(s) && s != [] && !AtMost(x, s[0])
    requires Ascending(rest) && multiset(rest) == multiset(s[1..]) + multiset{x}
    ensures Ascending([s[0]] + rest)
  {
    TextTotal(x.name, s[0].name);
    forall j | 0 <= j < |rest| ensures AtMost(s[0], rest[j]) {
      assert rest[j] in multiset(rest);
      if rest[j] != x {
        assert rest[j] in multiset(s[1..]);
        assert rest[j] in s[1..];
      }
    }
  }

  /** Python's `sorted` on a list of identifiers. */
  function Sorted(s: seq<Id>): (r: seq<Id>)
    ensures Ascending(r)
    ensures multiset(r) == multiset(s)
  {
    if s == [] then []
    else
      assert s == [s[0]] + s[1..];
      Insert(s[0], Sorted(s[1..]))
  }

  /** An ascending list is determined by its elements and how often each occurs. */
  lemma {:induction false} AscendingUnique(s: seq<Id>, t: seq<Id>)
    requires Ascending(s) && Ascending(t) && multiset(s) == multiset(t)
    ensures s == t
  {
    if s == [] {
      assert |multiset(t)| == 0;
    } else {
      assert s[0] in multiset(t) && t[0] in multiset(s) by {
        assert |multiset(s)| == |multiset(t)|;
        assert t[0] in multiset(t);
      }
      assert AtMost(t[0], s[0]) && AtMost(s[0], t[0]) by {
        assert s[0] in t && t[0] in s;
        TextTotal(s[0].name, s[0].name); TextTotal(t[0].name, t[0].name);
      }
      TextAntisymmetric(s[0].name, t[0].name);
      assert s == [s[0]] + s[1..] && t == [t[0]] + t[1..];
      assert multiset(s[1..]) == multiset(s) - multiset{s[0]};
      assert multiset(t[1..]) == multiset(t) - multiset{t[0]};
      AscendingUnique(s[1..], t[1..]);
    }
  }

  lemma DistinctMultiset(s: seq<Id>)
    requires Distinct(s)
    ensures forall x :: multiset(s)[x] == if x in s then 1 else 0
  {
    if s != [] {
      assert s == [s[0]] + s[1..];
      DistinctMultiset(s[1..]);
    }
  }

  lemma {:induction false} DistinctFromMultiset(s: seq<Id>)
    requires forall x :: multiset(s)[x] <= 1
    ensures Distinct(s)
  {
    if s != [] {
      assert s == [s[0]] + s[1..];
      assert forall x :: multiset(s)[x] == multiset{s[0]}[x] + multiset(s[1..])[x];
      DistinctFromMultiset(s[1..]);
      assert s[0] !in multiset(s[1..]);
    }
  }

  /** Sorting a list without repetitions: same elements, still without repetitions. */
  lemma SortedDistinct(s: seq<Id>)
    requires Distinct(s)
    ensures Distinct(Sorted(s)) && |Sorted(s)| == |s|
    ensures forall x :: x in Sorted(s) <==> x in s
  {
    DistinctMultiset(s);
    DistinctFromMultiset(Sorted(s));
    assert |multiset(Sorted(s))| == |multiset(s)|;
    forall x ensures x in Sorted(s) <==> x in s {
      assert x in multiset(Sorted(s)) <==> x in multiset(s);
    }
  }

  /** Two ascending lists without repetitions that hold the same identifiers are equal. */
  lemma AscendingSetUnique(s: seq<Id>, t: seq<Id>)
    requires Ascending(s) && Ascending(t) && Distinct(s) && Distinct(t)
    requires forall x :: x in s <==> x in t
    ensures s == t
  {
    DistinctMultiset(s);
    DistinctMultiset(t);
    assert multiset(s) == multiset(t);
    AscendingUnique(s, t);
  }
}
