/**
 * Splitting the parameters and returns of a heterogeneous computation among
 * the child transformers (hetrtransform.py:109-111,130-133), the positions
 * of each child's parameters (hetrtransform.py:148-149) and each child's
 * return-slot map (hetrtransform.py:152-157).
 */
module HetrPartition {
  import opened Wrappers
  import opened SeqUtil
  import opened Text
  import opened OpGraph
  import opened HetrGraph

  /**
   * `is_my_op` as written (hetrtransform.py:109-111): `name == op_trans or
   * name in op_trans`. On a string `in` is a substring test; on a list it is
   * membership. An op with no `transformer` metadata raises `KeyError`.
   */
  function IsMyOpAsWritten(p: Placement, name: string): (r: Result<bool, string>)
    ensures r.Failure? <==> p.Unplaced?
  {
    match p
    case Unplaced => Failure("KeyError: 'transformer'")
    case OnTransformer(t) => Success(name == t || Contains(t, name))
    case OnTransformers(names) => Success(name in names)
  }

  /**
   * `is_my_op` as intended: an op placed on one transformer belongs to that
   * transformer alone, and an op placed on several belongs to each of them.
   */
  function IsMyOp(p: Placement, name: string): (r: Result<bool, string>)
    ensures r.Failure? <==> p.Unplaced?
  {
    match p
    case Unplaced => Failure("KeyError: 'transformer'")
    case OnTransformer(t) => Success(name == t)
    case OnTransformers(names) => Success(name in names)
  }

  /** With eleven or more CPU workers, an op placed on "cpu10" is also taken by "cpu1". */
  lemma IsMyOpAsWrittenOverlaps()
    ensures IsMyOpAsWritten(OnTransformer("cpu10"), "cpu1") == Success(true)
    ensures IsMyOp(OnTransformer("cpu10"), "cpu1") == Success(false)
  {
    assert "cpu1" <= "cpu10";
  }

  /** The corrected test gives an op placed on one transformer to exactly that transformer. */
  lemma IsMyOpExclusive(t: string, name: string)
    ensures IsMyOp(OnTransformer(t), name) == Success(true) <==> name == t
  {
  }

  /**
   * The test as written accepts everything the corrected one accepts, and
   * the two agree except for a name that is a proper substring of the
   * placement.
   */
  lemma IsMyOpAsWrittenAgrees(p: Placement, name: string)
    ensures IsMyOp(p, name) == Success(true) ==> IsMyOpAsWritten(p, name) == Success(true)
    ensures !(p.OnTransformer? && p.name != name && Contains(p.name, name)) ==>
      IsMyOpAsWritten(p, name) == IsMyOp(p, name)
  {
  }

  /**
   * Which `is_my_op` the partition runs: the test as written, which the
   * constructor uses, or the corrected one.
   */
  datatype OwnershipTest = AsWritten | Corrected

  /** `is_my_op(p, name)` under the chosen test. */
  function Owns(test: OwnershipTest, p: Placement, name: string): (r: Result<bool, string>)
    ensures r.Failure? <==> p.Unplaced?
  {
    match test
    case AsWritten => IsMyOpAsWritten(p, name)
    case Corrected => IsMyOp(p, name)
  }

  /** The op `x` belongs to the child transformer `name` under `test`. */
  predicate Mine(arena: Arena, x: OpId, name: string, test: OwnershipTest)
  {
    Owns(test, Meta(arena, x).transformer, name) == Success(true)
  }

  /** Every op in `ops` carries `transformer` metadata, so `is_my_op` cannot raise on them. */
  predicate AllPlaced(arena: Arena, ops: seq<OpId>)
  {
    forall i :: 0 <= i < |ops| ==> !Meta(arena, ops[i]).transformer.Unplaced?
  }

  /** `[p for p in ops if is_my_op(p, name)]` (hetrtransform.py:132-133). */
  function Filter(arena: Arena, ops: seq<OpId>, name: string, test: OwnershipTest): (r: seq<OpId>)
    ensures |r| <= |ops|
    ensures forall x :: x in r <==> x in ops && Mine(arena, x, name, test)
  {
    if ops == [] then []
    else
      var init := Filter(arena, ops[..|ops| - 1], name, test);
      assert forall x :: x in ops <==> x in ops[..|ops| - 1] || x == ops[|ops| - 1];
      if Mine(arena, ops[|ops| - 1], name, test) then init + [ops[|ops| - 1]] else init
  }

  /** `[g_pos for g_pos, p in enumerate(ops) if is_my_op(p, name)]` (hetrtransform.py:148-149). */
  function Positions(arena: Arena, ops: seq<OpId>, name: string, test: OwnershipTest): (r: seq<nat>)
    ensures forall k :: 0 <= k < |r| ==> r[k] < |ops| && Mine(arena, ops[r[k]], name, test)
    ensures forall j, k :: 0 <= j < k < |r| ==> r[j] < r[k]
    ensures forall i :: 0 <= i < |ops| && Mine(arena, ops[i], name, test) ==> i in r
  {
    if ops == [] then []
    else
      var init := Positions(arena, ops[..|ops| - 1], name, test);
      if Mine(arena, ops[|ops| - 1], name, test) then init + [|ops| - 1] else init
  }

  /**
   * A child's `param_idx` picks out exactly its `t_placeholders`, in order:
   * `[parameters[i] for i in param_idx] == t_placeholders[name]`.
   */
  lemma {:induction false} GatherPositions(arena: Arena, ops: seq<OpId>, name: string, test: OwnershipTest)
    ensures Gather(ops, Positions(arena, ops, name, test)) == Filter(arena, ops, name, test)
  {
    if ops != [] {
      var init := ops[..|ops| - 1];
      var p := Positions(arena, init, name, test);
      GatherPositions(arena, init, name, test);
      GatherPrefix(ops, |ops| - 1, p);
      if Mine(arena, ops[|ops| - 1], name, test) {
        assert Positions(arena, ops, name, test) == p + [|ops| - 1];
        GatherSnoc(ops, p, |ops| - 1);
      } else {
        assert Positions(arena, ops, name, test) == p;
      }
    }
  }

  /** `name` is a proper substring of the single transformer `p` names: where the two tests part. */
  predicate SubstringName(p: Placement, name: string)
  {
    p.OnTransformer? && p.name != name && Contains(p.name, name)
  }

  /** Every op the corrected filter gives a worker, the filter as written gives it too. */
  lemma CorrectedFilterWithin(arena: Arena, ops: seq<OpId>, name: string)
    ensures forall x :: x in Filter(arena, ops, name, Corrected) ==> x in Filter(arena, ops, name, AsWritten)
  {
    forall x | x in Filter(arena, ops, name, Corrected)
      ensures x in Filter(arena, ops, name, AsWritten)
    {
      IsMyOpAsWrittenAgrees(Meta(arena, x).transformer, name);
    }
  }

  /**
   * When no op in `ops` is placed on a transformer whose name properly
   * contains `name`, both filters give the worker the same list.
   */
  lemma {:induction false} FiltersAgree(arena: Arena, ops: seq<OpId>, name: string)
    requires forall i :: 0 <= i < |ops| ==> !SubstringName(Meta(arena, ops[i]).transformer, name)
    ensures Filter(arena, ops, name, AsWritten) == Filter(arena, ops, name, Corrected)
  {
    if ops != [] {
      FiltersAgree(arena, ops[..|ops| - 1], name);
      IsMyOpAsWrittenAgrees(Meta(arena, ops[|ops| - 1]).transformer, name);
    }
  }

  /**
   * With workers "cpu1" and "cpu10", an op placed on "cpu10" lands in both
   * workers' lists as written, and in "cpu10"'s alone when corrected.
   */
  lemma SharedAsWritten()
    ensures var arena := map[0 := Node(ComputeOp, [], NoDeviceId, OnTransformer("cpu10"), false, None, None)];
      Filter(arena, [0], "cpu1", AsWritten) == [0] && Filter(arena, [0], "cpu10", AsWritten) == [0] &&
      Filter(arena, [0], "cpu1", Corrected) == [] && Filter(arena, [0], "cpu10", Corrected) == [0]
  {
    IsMyOpAsWrittenOverlaps();
  }

  /**
   * The loop of hetrtransform.py:130-133: one placeholder list and one
   * return list per child transformer.
   */
  method SplitPerWorker(arena: Arena, workers: seq<string>, placeholders: seq<OpId>, allReturns: seq<OpId>,
                        test: OwnershipTest)
    returns (tPlaceholders: map<string, seq<OpId>>, tReturns: map<string, seq<OpId>>)
    ensures tPlaceholders.Keys == (set w | w in workers) && tReturns.Keys == (set w | w in workers)
    ensures forall w :: w in workers ==>
      tPlaceholders[w] == Filter(arena, placeholders, w, test) && tReturns[w] == Filter(arena, allReturns, w, test)
  {
    tPlaceholders, tReturns := map[], map[];
    for c := 0 to |workers|
      invariant tPlaceholders.Keys == (set w | w in workers[..c]) && tReturns.Keys == (set w | w in workers[..c])
      invariant forall w :: w in workers[..c] ==>
        tPlaceholders[w] == Filter(arena, placeholders, w, test) && tReturns[w] == Filter(arena, allReturns, w, test)
    {
      assert workers[..c + 1] == workers[..c] + [workers[c]];
      tPlaceholders := tPlaceholders[workers[c] := Filter(arena, placeholders, workers[c], test)];
      tReturns := tReturns[workers[c] := Filter(arena, allReturns, workers[c], test)];
    }
    assert workers[..|workers|] == workers;
  }

  /**
   * The requested return a child's output `op` answers for
   * (hetrtransform.py:154-157): an unwrapped requested return answers for
   * itself; an op with `replaces_op` set to a requested return answers for
   * that return; anything else, a send node say, answers for nothing.
   */
  function SlotKey(arena: Arena, requested: seq<OpId>, op: OpId): (r: Option<OpId>)
    ensures r.Some? ==> r.value in requested
    ensures op in requested && Meta(arena, op).replacedBy.None? ==> r == Some(op)
    ensures op !in requested && Meta(arena, op).replacesOp.None? ==> r == None
  {
    var m := Meta(arena, op);
    if op in requested && m.replacedBy.None? then Some(op)
    else if m.replacesOp.Some? && m.replacesOp.value in requested then Some(m.replacesOp.value)
    else None
  }

  /** `comp.returns` after the first `n` turns of the loop at hetrtransform.py:153-157. */
  function SlotsOf(arena: Arena, requested: seq<OpId>, tr: seq<OpId>, n: nat): map<OpId, nat>
    requires n <= |tr|
  {
    if n == 0 then map[]
    else
      var m := SlotsOf(arena, requested, tr, n - 1);
      match SlotKey(arena, requested, tr[n - 1])
      case None => m
      case Some(k) => m[k := n - 1]
  }

  /** A key is in the slot map exactly when some output answers for it. */
  lemma {:induction false} SlotsOfKeys(arena: Arena, requested: seq<OpId>, tr: seq<OpId>, n: nat)
    requires n <= |tr|
    ensures forall k :: k in SlotsOf(arena, requested, tr, n) <==>
      exists i :: 0 <= i < n && SlotKey(arena, requested, tr[i]) == Some(k)
  {
    if n > 0 {
      SlotsOfKeys(arena, requested, tr, n - 1);
      forall k | exists i :: 0 <= i < n && SlotKey(arena, requested, tr[i]) == Some(k)
        ensures k in SlotsOf(arena, requested, tr, n)
      {
        var i :| 0 <= i < n && SlotKey(arena, requested, tr[i]) == Some(k);
        if i < n - 1 {
          assert k in SlotsOf(arena, requested, tr, n - 1);
        }
      }
    }
  }

  /** The slot of a key is the last output that answers for it. */
  lemma {:induction false} SlotsOfLast(arena: Arena, requested: seq<OpId>, tr: seq<OpId>, n: nat)
    requires n <= |tr|
    ensures forall k :: k in SlotsOf(arena, requested, tr, n) ==>
      var s := SlotsOf(arena, requested, tr, n)[k];
      s < n && SlotKey(arena, requested, tr[s]) == Some(k) &&
      forall j :: s < j < n ==> SlotKey(arena, requested, tr[j]) != Some(k)
  {
    if n > 0 {
      SlotsOfLast(arena, requested, tr, n - 1);
      var m := SlotsOf(arena, requested, tr, n - 1);
      var key := SlotKey(arena, requested, tr[n - 1]);
      forall k | k in SlotsOf(arena, requested, tr, n)
        ensures var s := SlotsOf(arena, requested, tr, n)[k];
          s < n && SlotKey(arena, requested, tr[s]) == Some(k) &&
          forall j :: s < j < n ==> SlotKey(arena, requested, tr[j]) != Some(k)
      {
        if key != Some(k) {
          assert k in m && SlotsOf(arena, requested, tr, n)[k] == m[k];
        }
      }
    }
  }

  /**
   * The slot-map loop of hetrtransform.py:152-157 over one child's
   * `t_returns`: every requested return some output answers for gets the
   * position of the last such output, and nothing else gets an entry.
   */
  method ReturnSlots(arena: Arena, requested: seq<OpId>, tr: seq<OpId>) returns (slots: map<OpId, nat>)
    ensures slots == SlotsOf(arena, requested, tr, |tr|)
    ensures forall k :: k in slots <==> exists i :: 0 <= i < |tr| && SlotKey(arena, requested, tr[i]) == Some(k)
    ensures forall k :: k in slots ==> k in requested
    ensures forall k :: k in slots ==>
      slots[k] < |tr| && SlotKey(arena, requested, tr[slots[k]]) == Some(k) &&
      forall j :: slots[k] < j < |tr| ==> SlotKey(arena, requested, tr[j]) != Some(k)
  {
    slots := map[];
    for i := 0 to |tr|
      invariant slots == SlotsOf(arena, requested, tr, i)
    {
      var op := tr[i];
      if op in requested && Meta(arena, op).replacedBy.None? {
        slots := slots[op := i];
      } else if Meta(arena, op).replacesOp.Some? && Meta(arena, op).replacesOp.value in requested {
        slots := slots[Meta(arena, op).replacesOp.value := i];
      }
    }
    SlotsOfKeys(arena, requested, tr, |tr|);
    SlotsOfLast(arena, requested, tr, |tr|);
  }

  /**
   * If each return in the list handed to the passes answers for the
   * requested return at its position, and each is among some child's
   * outputs, then every requested return has a slot in some child.
   */
  lemma EveryRequestedHasSlot(arena: Arena, requested: seq<OpId>, newReturns: seq<OpId>, trs: seq<seq<OpId>>)
    requires |newReturns| == |requested|
    requires forall i :: 0 <= i < |requested| ==> SlotKey(arena, requested, newReturns[i]) == Some(requested[i])
    requires forall i :: 0 <= i < |newReturns| ==> exists c :: 0 <= c < |trs| && newReturns[i] in trs[c]
    ensures forall x :: x in requested ==>
      exists c :: 0 <= c < |trs| && x in SlotsOf(arena, requested, trs[c], |trs[c]|)
  {
    forall x | x in requested
      ensures exists c :: 0 <= c < |trs| && x in SlotsOf(arena, requested, trs[c], |trs[c]|)
    {
      var i :| 0 <= i < |requested| && requested[i] == x;
      var c :| 0 <= c < |trs| && newReturns[i] in trs[c];
      var j :| 0 <= j < |trs[c]| && trs[c][j] == newReturns[i];
      SlotsOfKeys(arena, requested, trs[c], |trs[c]|);
    }
  }
}
