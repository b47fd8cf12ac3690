/** Invariants over the prefixes of a sequence, and the steps that break them. */
module Prefixes {

  ghost predicate AtAllPrefixes<T>(holds: seq<T> -> bool, xs: seq<T>) {
    forall i :: 0 <= i <= |xs| ==> holds(xs[..i])
  }

  ghost predicate AtNoStep<T>(breaks: (seq<T>, T) -> bool, xs: seq<T>) {
    forall i :: 0 <= i < |xs| ==> !breaks(xs[..i], xs[i])
  }

  lemma PrefixesOfSnoc<T>(holds: seq<T> -> bool, breaks: (seq<T>, T) -> bool, xs: seq<T>, x: T)
    ensures AtAllPrefixes(holds, xs + [x]) <==> AtAllPrefixes(holds, xs) && holds(xs + [x])
    ensures AtNoStep(breaks, xs + [x]) <==> AtNoStep(breaks, xs) && !breaks(xs, x)
    ensures AtAllPrefixes(holds, xs) ==> holds(xs)
  {
    var longer := xs + [x];
    assert longer[..|longer|] == longer && longer[..|xs|] == xs && xs[..|xs|] == xs && longer[|xs|] == x;
    forall i | 0 <= i <= |xs| ensures longer[..i] == xs[..i] {}
    if AtAllPrefixes(holds, longer) {
      forall i | 0 <= i <= |xs| ensures holds(xs[..i]) {
        assert holds(longer[..i]);
      }
    }
    if AtNoStep(breaks, longer) {
      forall i | 0 <= i < |xs| ensures !breaks(xs[..i], xs[i]) {
        assert !breaks(longer[..i], longer[i]);
      }
    }
  }

  /** If each step breaks an invariant exactly as told, the invariant holds throughout exactly if no step breaks it. */
  lemma {:induction false} HoldsUntilBroken<T(!new)>(holds: seq<T> -> bool, breaks: (seq<T>, T) -> bool, xs: seq<T>)
    requires holds([])
    requires forall ys: seq<T>, y: T :: holds(ys) ==> (holds(ys + [y]) <==> !breaks(ys, y))
    ensures AtAllPrefixes(holds, xs) <==> AtNoStep(breaks, xs)
  {
    if xs == [] {
      assert xs[..0] == [];
    } else {
      var n := |xs| - 1;
      HoldsUntilBroken(holds, breaks, xs[..n]);
      PrefixesOfSnoc(holds, breaks, xs[..n], xs[n]);
      assert xs == xs[..n] + [xs[n]];
    }
  }
}
