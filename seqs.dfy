/** Element-wise images of sequences, built from the back as the loops of the core build their lists. */
module Seqs {

  /** `[f(x) for x in s]`. */
  function Map<A, B>(f: A -> B, s: seq<A>): (r: seq<B>)
    ensures |r| == |s|
  {
    if s == [] then [] else Map(f, s[..|s| - 1]) + [f(s[|s| - 1])]
  }

  /** The `i`-th element of the image is the image of the `i`-th element. */
  lemma {:induction false} MapAt<A, B>(f: A -> B, s: seq<A>, i: nat)
    requires i < |s|
    ensures Map(f, s)[i] == f(s[i])
  {
    if i < |s| - 1 {
      MapAt(f, s[..|s| - 1], i);
    }
  }

  /** Extending the input by one element extends the image by its image. */
  lemma MapSnoc<A, B>(f: A -> B, s: seq<A>, i: nat)
    requires i < |s|
    ensures Map(f, s[..i + 1]) == Map(f, s[..i]) + [f(s[i])]
  {
    assert s[..i + 1][..i] == s[..i];
  }

  /** A list built by appending the images of `s` in order, after `prefix`, grows by one image per step. */
  lemma MapExtend<A, B>(f: A -> B, s: seq<A>, i: nat, prefix: seq<B>)
    requires i < |s|
    ensures prefix + Map(f, s[..i]) + [f(s[i])] == prefix + Map(f, s[..i + 1])
  {
    MapSnoc(f, s, i);
  }

  /** The length of the longest prefix of `s` whose elements all satisfy `p`. */
  function TakeWhileCount<A>(p: A -> bool, s: seq<A>): (n: nat)
    ensures n <= |s|
  {
    if s == [] || !p(s[0]) then 0 else 1 + TakeWhileCount(p, s[1..])
  }

  /** Every element of the counted prefix satisfies `p`; the element after it, if any, does not. */
  lemma {:induction false} TakeWhileCountSpec<A>(p: A -> bool, s: seq<A>)
    ensures forall i :: 0 <= i < TakeWhileCount(p, s) ==> p(s[i])
    ensures TakeWhileCount(p, s) < |s| ==> !p(s[TakeWhileCount(p, s)])
  {
    if s != [] && p(s[0]) {
      TakeWhileCountSpec(p, s[1..]);
    }
  }

  /** An element inside the counted prefix, or just past it, that satisfies `p` lies inside it. */
  lemma {:induction false} TakeWhileStep<A>(p: A -> bool, s: seq<A>, i: nat)
    requires i < |s| && i <= TakeWhileCount(p, s) && p(s[i])
    ensures i + 1 <= TakeWhileCount(p, s)
  {
    TakeWhileCountSpec(p, s);
  }

  /** An element inside the counted prefix, or just past it, that fails `p` ends it. */
  lemma {:induction false} TakeWhileStop<A>(p: A -> bool, s: seq<A>, i: nat)
    requires i < |s| && i <= TakeWhileCount(p, s) && !p(s[i])
    ensures TakeWhileCount(p, s) == i
  {
    TakeWhileCountSpec(p, s);
  }

  /** Moving the first element of `s` to the end of `a` leaves the concatenation unchanged. */
  lemma HeadSplit<T>(a: seq<T>, s: seq<T>)
    requires s != []
    ensures a + [s[0]] + s[1..] == a + s
  {
    assert s == [s[0]] + s[1..];
  }

  /** Dropping the first element of a concatenation drops it from the left part. */
  lemma TailAppend<T>(a: seq<T>, b: seq<T>)
    requires a != []
    ensures (a + b)[1..] == a[1..] + b
  {
  }

  lemma AppendAssoc<T>(a: seq<T>, b: seq<T>, c: seq<T>)
    ensures a + (b + c) == (a + b) + c
  {
  }

  /** When `b` extends `a`, whatever sits in `a` from position `n` on still sits in `b` from there. */
  lemma SuffixGrows<T>(a: seq<T>, b: seq<T>, n: nat)
    requires n <= |a| <= |b| && b[..|a|] == a
    ensures forall x :: x in a[n..] ==> x in b[n..]
  {
    forall x | x in a[n..] ensures x in b[n..] {
      var k :| 0 <= k < |a[n..]| && a[n..][k] == x;
      assert b[n..][k] == b[n + k] == a[n + k];
    }
  }
}
