/**
 * Scans that gather, element by element, what each element contributes: the links of
 * a listing page, the items of the scrapers of a run. Stated once for any element type
 * so that the facts about them do not depend on what the elements are.
 */
module Folds {
  /** What each element of `s` contributes, in order. */
  function Gather<T, U>(s: seq<T>, f: T -> seq<U>): seq<U> {
    if s == [] then [] else Gather(s[..|s| - 1], f) + f(s[|s| - 1])
  }

  /** Gathering over two parts is gathering over each, one after the other. */
  lemma {:induction false} GatherAppend<T, U>(a: seq<T>, b: seq<T>, f: T -> seq<U>)
    ensures Gather(a + b, f) == Gather(a, f) + Gather(b, f)
    decreases |b|
  {
    if b == [] {
      assert a + b == a;
    } else {
      var b' := b[..|b| - 1];
      assert (a + b)[..|a + b| - 1] == a + b' && (a + b)[|a + b| - 1] == b[|b| - 1];
      GatherAppend(a, b', f);
    }
  }

  /** One more element adds what it contributes. */
  lemma GatherStep<T, U>(s: seq<T>, f: T -> seq<U>, i: nat)
    requires i < |s|
    ensures Gather(s[..i + 1], f) == Gather(s[..i], f) + f(s[i])
  {
    assert s[..i + 1][..i] == s[..i];
  }

  /** One more element at the end adds what it contributes. */
  lemma GatherSnoc<T, U>(s: seq<T>, x: T, f: T -> seq<U>)
    ensures Gather(s + [x], f) == Gather(s, f) + f(x)
  {
    assert (s + [x])[..|s|] == s;
  }

  /** Something is gathered exactly when some element contributes it. */
  lemma {:induction false} GatherFrom<T, U>(s: seq<T>, f: T -> seq<U>, x: U)
    ensures x in Gather(s, f) <==> exists k :: 0 <= k < |s| && x in f(s[k])
  {
    if s != [] {
      var init, last := s[..|s| - 1], s[|s| - 1];
      GatherFrom(init, f, x);
      assert x in Gather(s, f) <==> x in Gather(init, f) || x in f(last);
      if exists k :: 0 <= k < |s| && x in f(s[k]) {
        var k :| 0 <= k < |s| && x in f(s[k]);
        if k < |init| {
          assert init[k] == s[k];
        }
      }
      if exists k :: 0 <= k < |init| && x in f(init[k]) {
        var k :| 0 <= k < |init| && x in f(init[k]);
        assert s[k] == init[k];
      }
    }
  }

  /** The one element of a singleton, stated for any element type so that no reasoning
      about what the elements are is brought in. */
  lemma InSingleton<U>(x: U, v: U)
    requires x in [v]
    ensures x == v
  {
  }
}
