/** Shared vocabulary: optional values, results, and a few facts about sequences. */
module Prelude {

  datatype Option<+T> = None | Some(value: T)

  datatype Result<+T, +E> = Ok(value: T) | Err(error: E)

  function Min(a: int, b: int): int {
    if a <= b then a else b
  }

  lemma ConcatAssociates<T>(a: seq<T>, b: seq<T>, c: seq<T>)
    ensures a + b + c == a + (b + c)
  {
  }

  /** The last n elements of s, or all of s when it is shorter. */
  function LastN<T>(s: seq<T>, n: nat): (r: seq<T>)
    ensures |r| == if |s| <= n then |s| else n
  {
    if |s| <= n then s else s[|s| - n..]
  }

  /** Trimming early loses nothing: only the last n elements of the whole matter. */
  lemma LastNAbsorbs<T>(a: seq<T>, b: seq<T>, n: nat)
    ensures LastN(LastN(a, n) + b, n) == LastN(a + b, n)
  {
    if |a| > n {
      var cut := |a| - n;
      assert LastN(a, n) + b == (a + b)[cut..];
      if |b| > 0 {
        assert LastN(a, n) + b == (a + b)[cut..];
      }
    }
  }

  /** `at` names, in order, the places of `b` where the elements of `a` stand. */
  ghost predicate Embeds<T>(at: seq<nat>, a: seq<T>, b: seq<T>) {
    && |at| == |a|
    && (forall i :: 0 <= i < |at| ==> at[i] < |b| && b[at[i]] == a[i])
    && (forall i, j :: 0 <= i < j < |at| ==> at[i] < at[j])
  }

  /** `a` arises from `b` by leaving elements out. */
  ghost predicate IsSubsequence<T>(a: seq<T>, b: seq<T>) {
    exists at: seq<nat> :: Embeds(at, a, b)
  }

  lemma SubsequenceRefl<T>(a: seq<T>)
    ensures IsSubsequence(a, a)
  {
    assert Embeds(seq(|a|, i => i), a, a);
  }

  lemma SubsequenceExtend<T>(a: seq<T>, b: seq<T>, x: T)
    requires IsSubsequence(a, b)
    ensures IsSubsequence(a, b + [x])
    ensures IsSubsequence(a + [x], b + [x])
  {
    var at: seq<nat> :| Embeds(at, a, b);
    assert Embeds(at, a, b + [x]);
    assert Embeds(at + [|b|], a + [x], b + [x]);
  }
}
