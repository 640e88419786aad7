/** Small vocabulary shared by the other modules. */
module Sequences {

  datatype Option<+T> = None | Some(value: T)

  function Min(a: nat, b: nat): nat { if a < b then a else b }

  function Max(a: nat, b: nat): nat { if a < b then b else a }

  /** `s` with the elements from `at` on overwritten by `xs`. */
  function Splice<T>(s: seq<T>, at: nat, xs: seq<T>): (r: seq<T>)
    requires at + |xs| <= |s|
    ensures |r| == |s|
  {
    s[..at] + xs + s[at + |xs|..]
  }

  lemma {:induction false} SpliceNext<T>(s: seq<T>, at: nat, xs: seq<T>, x: T)
    requires at + |xs| < |s|
    ensures Splice(s, at, xs)[at + |xs| := x] == Splice(s, at, xs + [x])
  {
  }

  lemma {:induction false} SpliceNothing<T>(s: seq<T>, at: nat)
    requires at <= |s|
    ensures Splice(s, at, []) == s
  {
  }

  lemma {:induction false} SpliceSplice<T>(s: seq<T>, at: nat, xs: seq<T>, ys: seq<T>)
    requires at + |xs| + |ys| <= |s|
    ensures Splice(Splice(s, at, xs), at + |xs|, ys) == Splice(s, at, xs + ys)
  {
  }

  lemma {:induction false} SlicesJoin<T>(s: seq<T>, i: nat, j: nat)
    requires i <= j <= |s|
    ensures s[..i] + s[i..j] == s[..j]
  {
  }

  /** Splicing the next piece of a log behind the previous one; the log may have grown. */
  lemma {:induction false} SpliceLog<T>(s: seq<T>, log: seq<T>, log': seq<T>, i: nat, j: nat, k: nat)
    requires i <= j <= k <= |log| && k - i <= |s| && log <= log'
    ensures Splice(Splice(s, 0, log[i..j]), j - i, log[j..k]) == Splice(s, 0, log'[i..k])
  {
    assert log[i..j] + log[j..k] == log'[i..k];
    SpliceSplice(s, 0, log[i..j], log[j..k]);
  }
}
