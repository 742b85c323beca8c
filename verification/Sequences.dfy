/** Order-preserving selections of a sequence. */
module Sequences {

  /** `a` is `b` with some elements left out: element i of `a` is element at[i] of `b`. */
  ghost predicate Embeds<T>(at: seq<nat>, a: seq<T>, b: seq<T>) {
    && |at| == |a| && (forall i | 0 <= i < |a| :: at[i] < |b| && a[i] == b[at[i]])
    && (forall i, j | 0 <= i < j < |a| :: at[i] < at[j])
  }

  /** In order, and each element of `b` used at most once. */
  ghost predicate Subseq<T>(a: seq<T>, b: seq<T>) {
    exists at: seq<nat> :: Embeds(at, a, b)
  }

  lemma SubseqRefl<T>(a: seq<T>)
    ensures Subseq(a, a)
  {
    assert Embeds(seq(|a|, i requires 0 <= i < |a| => i), a, a);
  }

  lemma SubseqTrans<T>(a: seq<T>, b: seq<T>, c: seq<T>)
    requires Subseq(a, b) && Subseq(b, c)
    ensures Subseq(a, c)
  {
    var f: seq<nat> :| Embeds(f, a, b);
    var g: seq<nat> :| Embeds(g, b, c);
    assert Embeds(seq(|a|, i requires 0 <= i < |a| => g[f[i]]), a, c);
  }

  /** The same element at the end of both. */
  lemma SubseqSnoc<T>(a: seq<T>, b: seq<T>, x: T)
    requires Subseq(a, b)
    ensures Subseq(a + [x], b + [x])
  {
    var f: seq<nat> :| Embeds(f, a, b);
    assert Embeds(f + [|b|], a + [x], b + [x]);
  }

  /** Leaving out a stretch in the middle. */
  lemma SubseqCut<T>(a: seq<T>, b: seq<T>, c: seq<T>)
    ensures Subseq(a + c, a + b + c)
  {
    var at := seq(|a + c|, i requires 0 <= i < |a + c| => if i < |a| then i else i + |b|);
    assert Embeds(at, a + c, a + b + c);
  }

  /** The last `n` elements, or all of them. */
  function LastN<T>(s: seq<T>, n: nat): seq<T> {
    if |s| <= n then s else s[|s| - n..]
  }
}
