/**
 * Sequence operations the model uses throughout: duplicate-freedom,
 * `OrderedSet(...)` and `a | b` on lists, and `[s[i] for i in idx]`.
 */
module SeqUtil {
  predicate Distinct<T(==)>(s: seq<T>) {
    forall i, j :: 0 <= i < j < |s| ==> s[i] != s[j]
  }

  /**
   * `OrderedSet(s)`: the elements of `s` in order of first occurrence,
   * each once.
   */
  function Dedup<T(==,!new)>(s: seq<T>): (r: seq<T>)
    ensures Distinct(r)
    ensures forall x :: x in r <==> x in s
    ensures |r| <= |s|
  {
    if s == [] then []
    else
      var d := Dedup(s[..|s| - 1]);
      assert forall x :: x in s <==> x in s[..|s| - 1] || x == s[|s| - 1];
      if s[|s| - 1] in d then d else d + [s[|s| - 1]]
  }

  /** Deduplicating a sequence that is already duplicate-free changes nothing. */
  lemma {:induction false} DedupOfDistinct<T(!new)>(s: seq<T>)
    requires Distinct(s)
    ensures Dedup(s) == s
  {
    if s != [] {
      DedupOfDistinct(s[..|s| - 1]);
      assert s[|s| - 1] !in s[..|s| - 1];
      assert s[..|s| - 1] + [s[|s| - 1]] == s;
    }
  }

  /** Adding `x` to an OrderedSet appends it unless it is already there. */
  lemma DedupSnoc<T(!new)>(s: seq<T>, x: T)
    ensures Dedup(s + [x]) == if x in s then Dedup(s) else Dedup(s) + [x]
  {
    assert (s + [x])[..|s + [x]| - 1] == s;
  }

  /** `a | b` on OrderedSets: the elements of `a`, then those of `b` not in `a`. */
  function OrderedUnion<T(==,!new)>(a: seq<T>, b: seq<T>): (r: seq<T>)
    ensures Distinct(r)
    ensures forall x :: x in r <==> x in a || x in b
  {
    Dedup(a + b)
  }

  /** An OrderedSet union keeps the left operand, in its order, as a prefix. */
  lemma {:induction false} DedupKeepsPrefix<T(!new)>(a: seq<T>, b: seq<T>)
    ensures |Dedup(a)| <= |Dedup(a + b)| && Dedup(a + b)[..|Dedup(a)|] == Dedup(a)
  {
    if b == [] {
      assert a + b == a;
    } else {
      var b' := b[..|b| - 1];
      DedupKeepsPrefix(a, b');
      assert (a + b)[..|a + b| - 1] == a + b';
    }
  }

  /** `a | b` starts with `a` itself when `a` is an OrderedSet. */
  lemma OrderedUnionPrefix<T(!new)>(a: seq<T>, b: seq<T>)
    requires Distinct(a)
    ensures |a| <= |OrderedUnion(a, b)| && OrderedUnion(a, b)[..|a|] == a
  {
    DedupOfDistinct(a);
    DedupKeepsPrefix(a, b);
  }

  /** `[s[i] for i in idx]`. */
  function Gather<T>(s: seq<T>, idx: seq<nat>): (r: seq<T>)
    requires forall k :: 0 <= k < |idx| ==> idx[k] < |s|
    ensures |r| == |idx|
    ensures forall k :: 0 <= k < |idx| ==> r[k] == s[idx[k]]
  {
    seq(|idx|, k requires 0 <= k < |idx| => s[idx[k]])
  }

  /** Gathering at one more index appends the element there. */
  lemma GatherSnoc<T>(s: seq<T>, idx: seq<nat>, j: nat)
    requires forall k :: 0 <= k < |idx| ==> idx[k] < |s|
    requires j < |s|
    ensures Gather(s, idx + [j]) == Gather(s, idx) + [s[j]]
  {
  }

  /** Gathering at indices that lie in a prefix reads only that prefix. */
  lemma GatherPrefix<T>(s: seq<T>, n: nat, idx: seq<nat>)
    requires n <= |s|
    requires forall k :: 0 <= k < |idx| ==> idx[k] < n
    ensures Gather(s, idx) == Gather(s[..n], idx)
  {
  }

}
