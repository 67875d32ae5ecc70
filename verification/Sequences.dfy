/** Small facts about concatenation and slices that the solver is better told than left to find. */
module Sequences {
  function Min(a: nat, b: nat): nat {
    if a < b then a else b
  }

  lemma Regroup<T>(a: seq<T>, b: seq<T>, c: seq<T>)
    ensures a + (b + c) == (a + b) + c
  {
  }

  lemma Chain<T>(x: seq<T>, a: seq<T>, b: seq<T>, c: seq<T>, d: seq<T>)
    ensures x + (a + b + c + d) == x + a + b + c + d
  {
    Regroup(x, a + b + c, d);
    Regroup(x, a + b, c);
    Regroup(x, a, b);
  }

  lemma SliceOfPrefix<T>(s: seq<T>, n: nat, from: nat, to: nat)
    requires from <= to <= n <= |s|
    ensures s[..n][from..to] == s[from..to]
  {
  }

  lemma BehindFront<T>(x: seq<T>, b: seq<T>)
    ensures (x + b)[|x|..] == b
  {
  }
}
