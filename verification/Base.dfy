// Small shared vocabulary: optional values, octet strings, counts and consecutive
// number sequences.
module Base {

  datatype Option<+T> = None | Some(value: T)

  /** Octets are characters below 256; only FileUri depends on the bound. */
  type Octets = string

  function Bit(b: bool): nat {
    if b then 1 else 0
  }

  /** Position of the first slash, or the length. */
  function FirstSlash(s: string): (k: nat)
    ensures k <= |s|
    ensures forall i :: 0 <= i < k ==> s[i] != '/'
    ensures k < |s| ==> s[k] == '/'
  {
    if s == "" || s[0] == '/' then 0 else 1 + FirstSlash(s[1..])
  }

  /** The numbers lo, lo + 1, ..., hi - 1. */
  function Iota(lo: nat, hi: nat): (r: seq<nat>)
    requires lo <= hi
    ensures |r| == hi - lo
    ensures forall i :: 0 <= i < |r| ==> r[i] == lo + i
  {
    seq(hi - lo, i requires 0 <= i => lo + i)
  }

  lemma Reassociate<T>(a: seq<T>, b: seq<T>, c: seq<T>)
    ensures a + (b + c) == a + b + c
  {
  }

  lemma OneLess(m: multiset<nat>, n: nat)
    requires n in m
    ensures |m - multiset{n}| == |m| - 1
    ensures forall k: nat :: (m - multiset{n})[k] == m[k] - Bit(k == n)
  {
  }

  lemma OneMore(m: multiset<nat>, n: nat)
    ensures |m + multiset{n}| == |m| + 1
    ensures forall k: nat :: (m + multiset{n})[k] == m[k] + Bit(k == n)
  {
  }

  lemma SplitSeq<T>(s: seq<T>, k: nat)
    requires k <= |s|
    ensures s[..k] + s[k..] == s
  {
  }

  ghost predicate Increasing(s: seq<nat>) {
    forall i, j :: 0 <= i < j < |s| ==> s[i] < s[j]
  }

  ghost predicate Below(s: seq<nat>, bound: nat) {
    forall i :: 0 <= i < |s| ==> s[i] < bound
  }
}
