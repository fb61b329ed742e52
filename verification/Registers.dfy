/** Shift registers with feedback, over any carrier whose step is linear and loses nothing. */
module Registers {

  /** `xor` is an exclusive-or with `zero`. */
  ghost predicate ExclusiveOr<T(!new)>(xor: (T, T) -> T, zero: T) {
    && (forall a, b, c :: xor(xor(a, b), c) == xor(a, xor(b, c)))
    && (forall a :: xor(a, zero) == a)
    && (forall a :: xor(a, a) == zero)
  }

  ghost predicate Additive<T(!new)>(step: T -> T, xor: (T, T) -> T) {
    forall a, b :: step(xor(a, b)) == xor(step(a), step(b))
  }

  ghost predicate Injective<T(!new)>(step: T -> T) {
    forall a, b :: step(a) == step(b) ==> a == b
  }

  function Iterate<T>(step: T -> T, n: nat, x: T): T {
    if n == 0 then x else Iterate(step, n - 1, step(x))
  }

  /** Feed the words in one at a time, one step for each. */
  function Feed<T>(step: T -> T, xor: (T, T) -> T, x: T, words: seq<T>): T
    decreases words
  {
    if words == [] then x else Feed(step, xor, step(xor(x, words[0])), words[1..])
  }

  lemma {:induction false} IterateLinear<T(!new)>(step: T -> T, xor: (T, T) -> T, n: nat, a: T, b: T)
    requires Additive(step, xor)
    ensures Iterate(step, n, xor(a, b)) == xor(Iterate(step, n, a), Iterate(step, n, b))
  {
    if n > 0 { IterateLinear(step, xor, n - 1, step(a), step(b)); }
  }

  /** Stepping a word in two parts. */
  lemma IterateParts<T(!new)>(step: T -> T, xor: (T, T) -> T, n: nat, x: T, a: T, b: T, out: T)
    requires Additive(step, xor) && x == xor(a, b) && Iterate(step, n, b) == out
    ensures Iterate(step, n, x) == xor(Iterate(step, n, a), out)
  {
    IterateLinear(step, xor, n, a, b);
  }

  lemma {:induction false} IterateInjective<T(!new)>(step: T -> T, n: nat, a: T, b: T)
    requires Injective(step) && Iterate(step, n, a) == Iterate(step, n, b)
    ensures a == b
  {
    if n > 0 { IterateInjective(step, n - 1, step(a), step(b)); }
  }

  lemma {:induction false} IterateAdd<T>(step: T -> T, m: nat, n: nat, x: T)
    ensures Iterate(step, m + n, x) == Iterate(step, n, Iterate(step, m, x))
  {
    if m > 0 { IterateAdd(step, m - 1, n, step(x)); }
  }

  lemma {:induction false} FeedAppend<T>(step: T -> T, xor: (T, T) -> T, x: T, a: seq<T>, b: seq<T>)
    ensures Feed(step, xor, x, a + b) == Feed(step, xor, Feed(step, xor, x, a), b)
    decreases a
  {
    if a == [] {
      assert a + b == b;
    } else {
      assert (a + b)[0] == a[0] && (a + b)[1..] == a[1..] + b;
      FeedAppend(step, xor, step(xor(x, a[0])), a[1..], b);
    }
  }

  lemma {:induction false} FeedInjective<T(!new)>(step: T -> T, xor: (T, T) -> T, zero: T, x: T, y: T, words: seq<T>)
    requires ExclusiveOr(xor, zero) && Injective(step) && Feed(step, xor, x, words) == Feed(step, xor, y, words)
    ensures x == y
    decreases words
  {
    if words != [] {
      var w := words[0];
      FeedInjective(step, xor, zero, step(xor(x, w)), step(xor(y, w)), words[1..]);
      XorCancels(xor, zero, x, y, w);
    }
  }

  lemma XorCancels<T(!new)>(xor: (T, T) -> T, zero: T, x: T, y: T, w: T)
    requires ExclusiveOr(xor, zero) && xor(x, w) == xor(y, w)
    ensures x == y
  {
    assert x == xor(x, xor(w, w)) == xor(xor(x, w), w) == xor(xor(y, w), w) == xor(y, xor(w, w)) == y;
  }

  /** Adding the part `u` that is still to come before `n` steps is adding its image after them. */
  lemma Preload<T(!new)>(step: T -> T, xor: (T, T) -> T, zero: T, n: nat, m: nat, x: T, b: T, u: T)
    requires ExclusiveOr(xor, zero) && Additive(step, xor)
    ensures Iterate(step, m, xor(Iterate(step, n, xor(x, b)), Iterate(step, n, u)))
         == Iterate(step, n + m, xor(x, xor(b, u)))
  {
    IterateLinear(step, xor, n, xor(x, b), u);
    assert xor(xor(x, b), u) == xor(x, xor(b, u));
    IterateAdd(step, n, m, xor(x, xor(b, u)));
  }

  /** Feeding the low bit `w` of a word and stepping what is left of it with the register. */
  lemma FeedOne<T(!new)>(step: T -> T, xor: (T, T) -> T, zero: T, x: T, w: T, rest: T)
    requires ExclusiveOr(xor, zero) && Additive(step, xor)
    ensures xor(step(xor(x, w)), step(rest)) == step(xor(x, xor(w, rest)))
  {
    assert xor(xor(x, w), rest) == xor(x, xor(w, rest));
  }

  /** The `n` lowest digits of a word, lowest first. */
  function Digits<T>(low: T -> T, down: T -> T, w: T, n: nat): (digits: seq<T>)
    ensures |digits| == n
    decreases n
  {
    if n == 0 then [] else [low(w)] + Digits(low, down, down(w), n - 1)
  }

  /** A word is its low digit and the rest moved back up; stepping that rest moves it down. */
  ghost predicate Splits<T(!new)>(step: T -> T, xor: (T, T) -> T, low: T -> T, down: T -> T, up: T -> T) {
    forall w :: w == xor(low(w), up(down(w))) && step(up(down(w))) == down(w)
  }

  /** Feeding a word digit by digit is adding the word first and then stepping. */
  lemma {:induction false} FeedDigits<T(!new)>(
    step: T -> T, xor: (T, T) -> T, zero: T, low: T -> T, down: T -> T, up: T -> T, x: T, w: T, n: nat)
    requires ExclusiveOr(xor, zero) && Additive(step, xor) && Splits(step, xor, low, down, up)
    requires Iterate(down, n, w) == zero
    ensures Feed(step, xor, x, Digits(low, down, w, n)) == Iterate(step, n, xor(x, w))
    decreases n
  {
    if n > 0 {
      var after := step(xor(x, low(w)));
      FeedDigits(step, xor, zero, low, down, up, after, down(w), n - 1);
      FeedOne(step, xor, zero, x, low(w), up(down(w)));
      assert Digits(low, down, w, n)[1..] == Digits(low, down, down(w), n - 1);
    }
  }

  lemma Iterate8<T>(step: T -> T, n: nat, x: T)
    requires n == 8
    ensures Iterate(step, n, x) == step(step(step(step(step(step(step(step(x))))))))
  {
    var a := step(step(x)); var b := step(step(a)); var c := step(step(b));
    assert Iterate(step, n, x) == Iterate(step, 6, a) == Iterate(step, 4, b) == Iterate(step, 2, c);
  }
}
