/** Equations between slices that the solver should not have to find again in every proof. */
module Slices {
  lemma DropNone<T>(s: seq<T>)
    ensures s[0..] == s
  {
  }

  lemma TakeAll<T>(s: seq<T>)
    ensures s[..|s|] == s
  {
  }

  lemma DropDrop<T>(s: seq<T>, i: nat, j: nat)
    requires i + j <= |s|
    ensures s[i..][j..] == s[i + j..]
  {
  }

  lemma SplitAppend<T>(x: seq<T>, y: seq<T>, n: nat)
    requires n <= |x|
    ensures (x + y)[..n] == x[..n] && (x + y)[n..] == x[n..] + y
  {
  }

  lemma FrontOfCons<T>(a: T, rest: seq<T>, tail: seq<T>)
    requires rest != []
    ensures var s := [a] + rest;
            s[|s| - 1] == rest[|rest| - 1] && [a] + (rest[..|rest| - 1] + tail) == s[..|s| - 1] + tail
  {
  }

  lemma DropOfCons<T>(a: T, rest: seq<T>, i: nat)
    requires 0 < i <= |rest|
    ensures var s := [a] + rest; s[i] == rest[i - 1] && s[i..] == rest[i - 1..]
  {
  }

  lemma FrontAndLast<T>(s: seq<T>, rest: seq<T>)
    requires s != []
    ensures s[..|s| - 1] + ([s[|s| - 1]] + rest) == s + rest
  {
  }

  lemma UndoAppend<T>(x: seq<T>, y: seq<T>)
    ensures (x + y)[..|x|] == x && (x + y)[|x|..] == y
  {
  }

  lemma SliceOfAppend<T>(x: seq<T>, y: seq<T>, lo: nat, hi: nat)
    requires lo <= hi <= |x|
    ensures (x + y)[lo..hi] == x[lo..hi]
  {
  }

  lemma TailOfAppend<T>(x: seq<T>, y: seq<T>)
    ensures (x + y)[|x|..|x + y|] == y
  {
  }

  lemma TakeTake<T>(s: seq<T>, i: nat, k: nat)
    requires i <= k <= |s|
    ensures s[..k][..i] == s[..i]
  {
  }

  lemma TakeOneMore<T>(s: seq<T>, i: nat)
    requires i < |s|
    ensures s[..i + 1] == s[..i] + [s[i]] && s[..i + 1][..i] == s[..i] && s[..i + 1][i] == s[i]
  {
  }
}
