// Facts about concatenation that are cheap to prove on their own and costly in context.
module Sequences {

  lemma Assoc<T>(a: seq<T>, b: seq<T>, c: seq<T>)
    ensures a + b + c == a + (b + c)
  {
  }

  lemma NilRight<T>(a: seq<T>)
    ensures a + [] == a
  {
  }

  lemma TakeSnoc<T>(d: seq<T>, i: nat)
    requires i < |d|
    ensures d[..i + 1] == d[..i] + [d[i]]
  {
  }

  /** Cutting `out + d[..a]` behind element i of `d`. */
  lemma CutBehind<T>(out: seq<T>, d: seq<T>, a: nat, i: nat)
    requires i < a <= |d|
    ensures (out + d[..a])[..|out + d[..a]| - (a - (i + 1))] == out + d[..i] + [d[i]]
  {
  }

  lemma TakeTake<T>(d: seq<T>, a: nat, i: nat)
    requires i <= a <= |d|
    ensures d[..a][..i] == d[..i]
  {
  }

  function Sum(xs: seq<nat>): nat {
    if xs == [] then 0 else xs[0] + Sum(xs[1..])
  }

  lemma {:induction false} SumSnoc(xs: seq<nat>, x: nat)
    ensures Sum(xs + [x]) == Sum(xs) + x
  {
    if xs == [] {
      assert xs + [x] == [x];
    } else {
      SumSnoc(xs[1..], x);
      assert (xs + [x])[1..] == xs[1..] + [x];
    }
  }
}
