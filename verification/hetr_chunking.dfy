/**
 * Cutting the whole-graph op list into transport messages
 * (hetrtransform.py:121-128). An op descriptor is appended to the current
 * message, its edges are added, and the message is flushed at every index
 * `i != 0 && i % 10 == 0` and at the last index. The first message therefore
 * holds ops 0..10 (eleven of them) and every later one at most ten.
 */
module HetrChunking {

  /** `_OPS_PER_MSG` (hetrtransform.py:33). */
  const OPS_PER_MSG: nat := 10

  /** One transport message: op descriptors and the edge list built beside them. */
  datatype Chunk<T, E> = Chunk(ops: seq<T>, edges: seq<E>)

  function Min(a: int, b: int): int { if a <= b then a else b }

  /** Index of the first op of message `k`. */
  function Bound(k: nat): nat
  {
    if k == 0 then 0 else OPS_PER_MSG * k + 1
  }

  /** Number of messages the loop produces for `n` ops: 0, 1, or ceil((n-1)/10). */
  function ChunkCount(n: nat): nat
  {
    if n == 0 then 0
    else if n == 1 then 1
    else (n - 1 + OPS_PER_MSG - 1) / OPS_PER_MSG
  }

  /** The message count is the least `m` whose bound reaches past the last op. */
  lemma ChunkCountIsLeastCover(n: nat, m: nat)
    requires n > 0
    ensures m == ChunkCount(n) <==> (m > 0 && Bound(m - 1) < n <= Bound(m))
  {
  }

  lemma ChunkStartInRange(n: nat, k: nat)
    requires k < ChunkCount(n)
    ensures Bound(k) < n && Bound(k) < Bound(k + 1)
  {
  }

  /** The ops of message `k`. */
  function ChunkOps<T>(s: seq<T>, k: nat): (r: seq<T>)
    requires k < ChunkCount(|s|)
  {
    ChunkStartInRange(|s|, k);
    s[Bound(k)..Min(Bound(k + 1), |s|)]
  }

  /**
   * The edge list `add_edges` leaves after each op of `ops` was appended in
   * turn; `addEdges(edges, opsSoFar, op)` is the serialiser's `add_edges`,
   * which is not part of this model.
   */
  function EdgesOf<T, E>(addEdges: (seq<E>, seq<T>, T) -> seq<E>, ops: seq<T>): seq<E>
  {
    if ops == [] then []
    else addEdges(EdgesOf(addEdges, ops[..|ops| - 1]), ops, ops[|ops| - 1])
  }

  /** The flush condition of hetrtransform.py:126 at index `i` of `n` ops. */
  predicate Flush(i: nat, n: nat)
  {
    (i != 0 && i % OPS_PER_MSG == 0) || i == n - 1
  }

  /** The flush condition holds exactly at the last index of message `m`, or of the graph. */
  lemma FlushAt(i: nat, n: nat, m: nat)
    requires Bound(m) <= i < Bound(m + 1) && i < n
    ensures Flush(i, n) <==> (i + 1 == Bound(m + 1) || i + 1 == n)
  {
  }

  /**
   * The position of the chunking loop before index `i`: the current message
   * is number `m` and began at `start`.
   */
  ghost predicate Cursor(i: nat, n: nat, start: nat, m: nat)
  {
    start <= i <= n &&
    (i < n ==> start == Bound(m) && i < Bound(m + 1)) &&
    (i == n ==> start == n) &&
    (m == 0 ==> start == 0) &&
    (m > 0 ==> Bound(m - 1) < start <= Bound(m))
  }

  /** One turn of the loop: a flush closes message `m` as the slice `Bound(m) .. min(Bound(m + 1), n)`. */
  lemma CursorStep(i: nat, n: nat, start: nat, m: nat)
    requires Cursor(i, n, start, m) && i < n
    ensures Flush(i, n) ==>
      Cursor(i + 1, n, i + 1, m + 1) && start == Bound(m) &&
      Bound(m) < Min(Bound(m + 1), n) && i + 1 == Min(Bound(m + 1), n)
    ensures !Flush(i, n) ==> Cursor(i + 1, n, start, m)
  {
    FlushAt(i, n, m);
  }

  /** When the loop ends, it has emitted `ChunkCount(n)` messages. */
  lemma CursorEnd(n: nat, start: nat, m: nat)
    requires Cursor(n, n, start, m)
    ensures m == ChunkCount(n)
  {
    if n > 0 {
      ChunkCountIsLeastCover(n, m);
    }
  }

  /** Message `k` of `chunks` carries the ops of slice `k` and their edges. */
  ghost predicate ChunkMatches<T, E>(chunks: seq<Chunk<T, E>>, k: nat, s: seq<T>,
                                     addEdges: (seq<E>, seq<T>, T) -> seq<E>)
    requires k < |chunks|
  {
    Bound(k) < Min(Bound(k + 1), |s|) &&
    chunks[k].ops == s[Bound(k)..Min(Bound(k + 1), |s|)] &&
    chunks[k].edges == EdgesOf(addEdges, chunks[k].ops)
  }

  ghost predicate AllMatch<T, E>(chunks: seq<Chunk<T, E>>, s: seq<T>,
                                 addEdges: (seq<E>, seq<T>, T) -> seq<E>)
  {
    forall k :: 0 <= k < |chunks| ==> ChunkMatches(chunks, k, s, addEdges)
  }

  lemma AllMatchAppend<T, E>(chunks: seq<Chunk<T, E>>, c: Chunk<T, E>, s: seq<T>,
                             addEdges: (seq<E>, seq<T>, T) -> seq<E>)
    requires AllMatch(chunks, s, addEdges)
    requires Bound(|chunks|) < Min(Bound(|chunks| + 1), |s|)
    requires c.ops == s[Bound(|chunks|)..Min(Bound(|chunks| + 1), |s|)]
    requires c.edges == EdgesOf(addEdges, c.ops)
    ensures AllMatch(chunks + [c], s, addEdges)
  {
    forall k | 0 <= k < |chunks| + 1
      ensures ChunkMatches(chunks + [c], k, s, addEdges)
    {
      if k < |chunks| {
        assert ChunkMatches(chunks, k, s, addEdges);
        assert (chunks + [c])[k] == chunks[k];
      }
    }
  }

  lemma EdgesOfSnoc<T, E>(addEdges: (seq<E>, seq<T>, T) -> seq<E>, ops: seq<T>, o: T)
    ensures EdgesOf(addEdges, ops + [o]) == addEdges(EdgesOf(addEdges, ops), ops + [o], o)
  {
    assert (ops + [o])[..|ops|] == ops;
  }

  /**
   * The state of the chunking loop before index `i`: the messages sent so
   * far match their slices, and the pending message holds the ops from
   * `start` with their edges.
   */
  ghost predicate ChunkLoop<T, E>(s: seq<T>, addEdges: (seq<E>, seq<T>, T) -> seq<E>, i: nat, start: nat,
                                  chunks: seq<Chunk<T, E>>, pbOps: seq<T>, pbEdges: seq<E>)
  {
    Cursor(i, |s|, start, |chunks|) &&
    pbOps == s[start..i] &&
    pbEdges == EdgesOf(addEdges, pbOps) &&
    AllMatch(chunks, s, addEdges)
  }

  /** A turn of the chunking loop that does not flush keeps its state. */
  lemma ChunkLoopKeep<T, E>(s: seq<T>, addEdges: (seq<E>, seq<T>, T) -> seq<E>, i: nat, start: nat,
                            chunks: seq<Chunk<T, E>>, pbOps: seq<T>, pbEdges: seq<E>)
    requires ChunkLoop(s, addEdges, i, start, chunks, pbOps, pbEdges) && i < |s| && !Flush(i, |s|)
    ensures ChunkLoop(s, addEdges, i + 1, start, chunks, pbOps + [s[i]], addEdges(pbEdges, pbOps + [s[i]], s[i]))
  {
    assert s[start..i + 1] == pbOps + [s[i]];
    EdgesOfSnoc(addEdges, pbOps, s[i]);
    CursorStep(i, |s|, start, |chunks|);
  }

  /** A turn of the chunking loop that flushes sends the pending message as the next slice. */
  lemma ChunkLoopFlush<T, E>(s: seq<T>, addEdges: (seq<E>, seq<T>, T) -> seq<E>, i: nat, start: nat,
                             chunks: seq<Chunk<T, E>>, pbOps: seq<T>, pbEdges: seq<E>)
    requires ChunkLoop(s, addEdges, i, start, chunks, pbOps, pbEdges) && i < |s| && Flush(i, |s|)
    ensures ChunkLoop(s, addEdges, i + 1, i + 1,
                      chunks + [Chunk(pbOps + [s[i]], addEdges(pbEdges, pbOps + [s[i]], s[i]))], [], [])
  {
    var ops := pbOps + [s[i]];
    assert s[start..i + 1] == ops;
    EdgesOfSnoc(addEdges, pbOps, s[i]);
    CursorStep(i, |s|, start, |chunks|);
    AllMatchAppend(chunks, Chunk(ops, addEdges(pbEdges, ops, s[i])), s, addEdges);
  }

  /** The chunking loop of hetrtransform.py:121-128. */
  method ChunkWholeGraph<T, E>(wholeGraph: seq<T>, addEdges: (seq<E>, seq<T>, T) -> seq<E>)
    returns (pbWholeGraph: seq<Chunk<T, E>>)
    ensures |pbWholeGraph| == ChunkCount(|wholeGraph|)
    ensures forall k :: 0 <= k < |pbWholeGraph| ==>
      pbWholeGraph[k].ops == ChunkOps(wholeGraph, k) &&
      pbWholeGraph[k].edges == EdgesOf(addEdges, pbWholeGraph[k].ops)
  {
    var n := |wholeGraph|;
    pbWholeGraph := [];
    var pbOps: seq<T> := [];
    var pbEdges: seq<E> := [];
    ghost var start := 0;
    for i := 0 to n
      invariant ChunkLoop(wholeGraph, addEdges, i, start, pbWholeGraph, pbOps, pbEdges)
    {
      var o := wholeGraph[i];
      if (i != 0 && i % OPS_PER_MSG == 0) || i == n - 1 {
        ChunkLoopFlush(wholeGraph, addEdges, i, start, pbWholeGraph, pbOps, pbEdges);
      } else {
        ChunkLoopKeep(wholeGraph, addEdges, i, start, pbWholeGraph, pbOps, pbEdges);
      }
      pbOps := pbOps + [o];
      pbEdges := addEdges(pbEdges, pbOps, o);
      if (i != 0 && i % OPS_PER_MSG == 0) || i == n - 1 {
        pbWholeGraph := pbWholeGraph + [Chunk(pbOps, pbEdges)];
        pbOps, pbEdges := [], [];
        start := i + 1;
      }
    }
    CursorEnd(n, start, |pbWholeGraph|);
    forall k | 0 <= k < |pbWholeGraph|
      ensures pbWholeGraph[k].ops == ChunkOps(wholeGraph, k)
      ensures pbWholeGraph[k].edges == EdgesOf(addEdges, pbWholeGraph[k].ops)
    {
      assert ChunkMatches(pbWholeGraph, k, wholeGraph, addEdges);
    }
  }

  /** Concatenation of a list of op lists. */
  function Concat<T>(ss: seq<seq<T>>): seq<T>
  {
    if ss == [] then [] else Concat(ss[..|ss| - 1]) + ss[|ss| - 1]
  }

  /** The op lists of the messages, in order. */
  function AllChunkOps<T>(s: seq<T>): (r: seq<seq<T>>)
    ensures |r| == ChunkCount(|s|)
  {
    seq(ChunkCount(|s|), k requires 0 <= k < ChunkCount(|s|) => ChunkOps(s, k))
  }

  lemma {:induction false} ConcatPrefix<T>(s: seq<T>, m: nat)
    requires m <= ChunkCount(|s|)
    ensures Concat(AllChunkOps(s)[..m]) == s[..Min(Bound(m), |s|)]
  {
    var all := AllChunkOps(s);
    if m == 0 {
      assert all[..0] == [];
    } else {
      ConcatPrefix(s, m - 1);
      assert all[..m][..m - 1] == all[..m - 1];
      ChunkStartInRange(|s|, m - 1);
      assert all[m - 1] == s[Bound(m - 1)..Min(Bound(m), |s|)];
      assert s[..Bound(m - 1)] + s[Bound(m - 1)..Min(Bound(m), |s|)] == s[..Min(Bound(m), |s|)];
    }
  }

  /**
   * Reassembly: concatenating the messages' op lists reproduces the whole
   * graph in order, so every op is sent exactly once.
   */
  lemma ChunksReassemble<T>(s: seq<T>)
    ensures Concat(AllChunkOps(s)) == s
  {
    var all := AllChunkOps(s);
    ConcatPrefix(s, |all|);
    assert all[..|all|] == all;
    if |s| > 0 {
      ChunkCountIsLeastCover(|s|, ChunkCount(|s|));
    }
  }

  /**
   * Message sizes: none is empty, the first holds at most 11 ops and every
   * later one at most `OPS_PER_MSG`; an empty graph gives no message.
   */
  lemma ChunkSizes<T>(s: seq<T>, k: nat)
    requires k < ChunkCount(|s|)
    ensures 0 < |ChunkOps(s, k)| <= (if k == 0 then OPS_PER_MSG + 1 else OPS_PER_MSG)
  {
    ChunkStartInRange(|s|, k);
  }

  /** Eleven ops travel in a single message, not in ceil(11/10) = 2. */
  lemma ElevenOpsOneMessage()
    ensures ChunkCount(11) == 1 && ChunkCount(12) == 2 && ChunkCount(0) == 0
  {
  }
}
