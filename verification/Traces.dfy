/** Sequences of keyed actions: what each key sees, and when two orders have the same effect. */
module Traces {

  /** The members of `xs` that `keyOf` maps to `k`, in order. */
  ghost function Of<R, K>(xs: seq<R>, keyOf: R -> K, k: K): seq<R> {
    if xs == [] then []
    else (if keyOf(xs[0]) == k then [xs[0]] else []) + Of(xs[1..], keyOf, k)
  }

  lemma Assoc<R>(a: seq<R>, b: seq<R>, c: seq<R>)
    ensures (a + b) + c == a + (b + c)
  {
  }

  lemma {:induction false} OfConcat<R, K>(xs: seq<R>, ys: seq<R>, keyOf: R -> K, k: K)
    ensures Of(xs + ys, keyOf, k) == Of(xs, keyOf, k) + Of(ys, keyOf, k)
  {
    if xs == [] {
      assert xs + ys == ys;
    } else {
      assert (xs + ys)[1..] == xs[1..] + ys;
      OfConcat(xs[1..], ys, keyOf, k);
      Assoc(if keyOf(xs[0]) == k then [xs[0]] else [], Of(xs[1..], keyOf, k), Of(ys, keyOf, k));
    }
  }

  lemma {:induction false} OfNone<R, K>(xs: seq<R>, keyOf: R -> K, k: K)
    ensures Of(xs, keyOf, k) == [] <==> forall x :: x in xs ==> keyOf(x) != k
  {
    if xs != [] {
      OfNone(xs[1..], keyOf, k);
      assert xs == [xs[0]] + xs[1..];
    }
  }

  /** Perform the actions in order. */
  ghost function Fold<S, R>(act: (S, R) -> S, s: S, xs: seq<R>): S {
    if xs == [] then s else Fold(act, act(s, xs[0]), xs[1..])
  }

  lemma {:induction false} FoldConcat<S, R>(act: (S, R) -> S, s: S, xs: seq<R>, ys: seq<R>)
    ensures Fold(act, s, xs + ys) == Fold(act, Fold(act, s, xs), ys)
    decreases |xs|
  {
    if xs == [] {
      assert xs + ys == ys;
    } else {
      assert (xs + ys)[1..] == xs[1..] + ys;
      FoldConcat(act, act(s, xs[0]), xs[1..], ys);
    }
  }

  /** Actions on different keys may be swapped. */
  ghost predicate KeysCommute<S(!new), R(!new), K>(act: (S, R) -> S, keyOf: R -> K) {
    forall s: S, a: R, b: R ::
      keyOf(a) != keyOf(b) ==> act(act(s, a), b) == act(act(s, b), a)
  }

  /** An action may be moved to the front of actions on other keys. */
  lemma {:induction false} MoveToFront<S(!new), R(!new), K>(
    act: (S, R) -> S, keyOf: R -> K, s: S, before: seq<R>, x: R)
    requires KeysCommute(act, keyOf)
    requires forall y :: y in before ==> keyOf(y) != keyOf(x)
    ensures Fold(act, s, before + [x]) == Fold(act, s, [x] + before)
    decreases |before|
  {
    if before == [] {
      assert before + [x] == [x] + before;
    } else {
      var b, rest := before[0], before[1..];
      assert (before + [x])[1..] == rest + [x];
      MoveToFront(act, keyOf, act(s, b), rest, x);
      assert ([x] + rest)[1..] == rest;
      assert Fold(act, act(s, b), [x] + rest) == Fold(act, act(act(s, b), x), rest);
      assert ([x] + before)[1..] == before;
      assert Fold(act, s, [x] + before) == Fold(act, act(act(s, x), b), rest);
    }
  }

  /** The position of the first member of `xs` with key `k`. */
  ghost function FirstOf<R, K>(xs: seq<R>, keyOf: R -> K, k: K): (i: nat)
    requires Of(xs, keyOf, k) != []
    ensures i < |xs| && keyOf(xs[i]) == k && xs[i] == Of(xs, keyOf, k)[0]
    ensures forall j :: 0 <= j < i ==> keyOf(xs[j]) != k
  {
    if keyOf(xs[0]) == k then 0 else 1 + FirstOf(xs[1..], keyOf, k)
  }

  lemma HeadSeen<R, K>(xs: seq<R>, keyOf: R -> K)
    ensures xs != [] ==> Of(xs, keyOf, keyOf(xs[0])) != []
  {
  }

  /** Trace equivalence: if every key sees the same actions in the same order, and actions on
      different keys commute, the overall order does not matter. */
  lemma {:induction false} SameByKeyThenSameFold<S(!new), R(!new), K(!new)>(
    act: (S, R) -> S, keyOf: R -> K, s: S, xs: seq<R>, ys: seq<R>)
    requires KeysCommute(act, keyOf)
    requires forall k: K :: Of(xs, keyOf, k) == Of(ys, keyOf, k)
    ensures Fold(act, s, xs) == Fold(act, s, ys)
    decreases |xs|
  {
    if xs == [] {
      HeadSeen(ys, keyOf);
    } else {
      var x := xs[0];
      var i := FirstOf(ys, keyOf, keyOf(x));
      var before, after := ys[..i], ys[i + 1..];
      assert ys[i] == x;
      assert ys == before + [x] + after;
      FoldConcat(act, s, before + [x], after);
      MoveToFront(act, keyOf, s, before, x);
      FoldConcat(act, s, [x] + before, after);
      var rest := before + after;
      assert [x] + before + after == [x] + rest;
      forall k: K
        ensures Of(xs[1..], keyOf, k) == Of(rest, keyOf, k)
      {
        DroppedFirst(before, x, after, keyOf, k);
        assert Of(xs, keyOf, k) == Of(ys, keyOf, k);
        var head := if keyOf(x) == k then [x] else [];
        assert Of(xs[1..], keyOf, k) == (head + Of(xs[1..], keyOf, k))[|head|..];
        assert Of(rest, keyOf, k) == (head + Of(rest, keyOf, k))[|head|..];
      }
      SameByKeyThenSameFold(act, keyOf, act(s, x), xs[1..], rest);
      assert ([x] + rest)[1..] == rest;
    }
  }

  lemma DroppedFirst<R, K>(before: seq<R>, x: R, after: seq<R>, keyOf: R -> K, k: K)
    requires forall y :: y in before ==> keyOf(y) != keyOf(x)
    ensures Of(before + [x] + after, keyOf, k) ==
            (if keyOf(x) == k then [x] else []) + Of(before + after, keyOf, k)
  {
    hide Of;
    OfConcat(before + [x], after, keyOf, k);
    OfConcat(before, [x], keyOf, k);
    OfConcat(before, after, keyOf, k);
    OfOne(x, keyOf, k);
    if keyOf(x) == k {
      OfNone(before, keyOf, k);
      assert [] + [x] == [x] && [] + Of(after, keyOf, k) == Of(after, keyOf, k);
    } else {
      assert Of(before, keyOf, k) + [] == Of(before, keyOf, k);
      assert [] + Of(before + after, keyOf, k) == Of(before + after, keyOf, k);
    }
  }

  lemma OfCons<R, K>(xs: seq<R>, keyOf: R -> K, k: K)
    ensures xs != [] ==> Of(xs, keyOf, k) == (if keyOf(xs[0]) == k then [xs[0]] else []) + Of(xs[1..], keyOf, k)
    ensures xs == [] ==> Of(xs, keyOf, k) == []
  {
  }

  lemma OfOne<R, K>(x: R, keyOf: R -> K, k: K)
    ensures Of([x], keyOf, k) == if keyOf(x) == k then [x] else []
  {
    assert Of([x], keyOf, k) == (if keyOf(x) == k then [x] else []) + Of([], keyOf, k);
  }
}
