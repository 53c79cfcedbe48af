/** Rolling back to a fork point leaves exactly the state the shorter chain determines. */
module RollbackProofs {
  import opened Types
  import opened Seqs
  import opened Conversion
  import opened Grouping

  /** The dropped native blocks that share the fork point's EVM block are canonical. */
  predicate DroppedCanonical(e: Env, chain: seq<NativeBlock>, j: nat)
    requires j < |chain|
  {
    forall i :: j < i < |chain| && Num(e, chain[i]) == Num(e, chain[j]) ==> AllCanonical(e, Actions(chain[i]))
  }

  /** The state while native blocks are popped down to `chain[j]`: everything matches the
      chain except the upper bound of the fork point's EVM block. */
  ghost predicate Reopened(e: Env, s: State, start: Block, chain: seq<NativeBlock>, j: nat) {
    && ChainOk(e, start, chain) && 0 < j < |chain|
    && Suffix(s.native, chain) && |chain| - |s.native| <= j
    && s.evm != [] && Consecutive(s.evm)
    && start.header.number <= s.evm[0].header.number <= Num(e, s.native[0])
    && Last(s.evm).header.number == Num(e, chain[j])
    && BodiesMatch(e, Init(s.evm), start, chain)
    && Last(s.evm).transactions == Expected(e, start, chain, Num(e, chain[j])).transactions
  }

  lemma {:induction false} PopEvmShape(evm: seq<Block>, k: nat)
    requires evm != [] && Consecutive(evm) && evm[0].header.number <= k
    ensures PopEvm(evm, k) == if k < Last(evm).header.number then evm[..k - evm[0].header.number + 1] else evm
    decreases |evm|
  {
    if k < Last(evm).header.number {
      assert |evm| > 1;
      PopEvmShape(Init(evm), k);
      assert Last(Init(evm)).header.number == Last(evm).header.number - 1;
      assert Init(evm)[..k - evm[0].header.number + 1] == evm[..k - evm[0].header.number + 1];
    }
  }

  lemma {:induction false} PopEvmReopens(e: Env, s: State, start: Block, chain: seq<NativeBlock>, j: nat)
    requires Tracks(e, s, start, chain)
    requires 0 < j < |chain| && |chain| - |s.native| <= j
    ensures Reopened(e, s.(evm := PopEvm(s.evm, Num(e, chain[j]))), start, chain, j)
  {
    hide ChainOk, Expected, PopEvm, EvmNum;
    ChainMonotone(e, start, chain, |chain| - |s.native|, j);
    ChainMonotone(e, start, chain, j, |chain| - 1);
    PopEvmShape(s.evm, Num(e, chain[j]));
    var evm := PopEvm(s.evm, Num(e, chain[j]));
    var m := |evm| - 1;
    assert forall i :: 0 <= i <= m ==> evm[i] == s.evm[i];
    assert Last(evm) == evm[m] == s.evm[m];
    assert BodyOf(evm[m]) == Expected(e, start, chain, evm[m].header.number);
  }

  /** What undoing the last native block does to the fork point's EVM block. */
  lemma {:induction false} UndoLast(e: Env, s: State, start: Block, chain: seq<NativeBlock>, j: nat)
    requires Reopened(e, s, start, chain, j) && j < |chain| - 1
    ensures var b, k := Last(chain), Num(e, chain[j]);
      var r := UndoIfShared(e, s.evm, b, chain[j]);
      && (r.Success? ==>
            r.value == Init(s.evm) + [Last(s.evm).(transactions := Expected(e, start, Init(chain), k).transactions)])
      && (r.Failure? ==> r.error == UnableToRemoveTransaction)
      && ((Num(e, b) == k ==> AllCanonical(e, Actions(b))) ==> r.Success?)
      && (CollisionFree(e) && r.Success? ==> (Num(e, b) == k ==> AllCanonical(e, Actions(b))))
  {
    var b, k := Last(chain), Num(e, chain[j]);
    assert LinkedAt(e, chain, |chain| - 1);
    if Num(e, b) == k && b.transactions != [] {
      UndoInverse(e, Expected(e, start, Init(chain), k).transactions, Actions(b));
    } else {
      var txs := Expected(e, start, Init(chain), k).transactions;
      assert b.transactions == [] ==> Actions(b) == [] && TxsOf(e, []) == [];
      assert txs + [] == txs;
      assert s.evm == Init(s.evm) + [Last(s.evm)];
    }
  }

  /** Undoing the last native block turns "matches the chain" into "matches the chain
      without its last block". */
  lemma {:induction false} PopOne(e: Env, s: State, start: Block, chain: seq<NativeBlock>, j: nat, evm: seq<Block>)
    requires Reopened(e, s, start, chain, j) && j < |chain| - 1
    requires evm == Init(s.evm) +
      [Last(s.evm).(transactions := Expected(e, start, Init(chain), Num(e, chain[j])).transactions)]
    ensures Reopened(e, s.(native := Init(s.native), evm := evm), start, Init(chain), j)
  {
    hide EvmNum, LinkedAt;
    var rest := Init(chain);
    ChainMonotone(e, start, chain, j, |chain| - 1);
    ChainPrefix(e, start, chain, |chain| - 1);
    assert Init(s.native) == rest[|rest| - (|s.native| - 1)..];
    assert Init(evm) == Init(s.evm);
    forall i | 0 <= i < |s.evm| - 1
      ensures BodyOf(s.evm[i]) == Expected(e, start, rest, s.evm[i].header.number)
    {
      assert s.evm[i] == Init(s.evm)[i];
      ExpectedBelow(e, start, chain, |chain| - 1, s.evm[i].header.number);
    }
  }

  /** The loop stops at the fork point and nowhere else. */
  lemma {:induction false} PopNativeUnfold(e: Env, s: State, start: Block, chain: seq<NativeBlock>, j: nat)
    requires Reopened(e, s, start, chain, j)
    ensures s.native != [] && Last(s.native) == Last(chain)
    ensures PopNative(e, s, chain[j]) ==
      if j == |chain| - 1 then Success(s)
      else
        var evm := UndoIfShared(e, s.evm, Last(chain), chain[j]);
        if evm.Success? then PopNative(e, s.(native := Init(s.native), evm := evm.value), chain[j])
        else Failure(evm.error)
  {
    if Last(s.native).id == chain[j].id { ChainIdsDistinct(e, start, chain, j, |chain| - 1); }
  }

  /** The whole popping loop succeeds exactly when the dropped blocks it must undo are
      canonical, and ends at the fork point. */
  lemma {:induction false} PopNativeExact(e: Env, s: State, start: Block, chain: seq<NativeBlock>, j: nat)
    requires Reopened(e, s, start, chain, j)
    ensures var r := PopNative(e, s, chain[j]);
      && (r.Success? ==>
            && Reopened(e, r.value, start, chain[..j + 1], j)
            && r.value.lib == s.lib && r.value.published == s.published
            && |r.value.native| == |s.native| - (|chain| - 1 - j))
      && (r.Failure? ==> r.error == UnableToRemoveTransaction)
      && (DroppedCanonical(e, chain, j) ==> r.Success?)
      && (CollisionFree(e) && r.Success? ==> DroppedCanonical(e, chain, j))
    decreases |chain|
  {
    hide PopNative, UndoIfShared, BodiesMatch, Consecutive, Expected;
    PopNativeUnfold(e, s, start, chain, j);
    if j == |chain| - 1 {
      assert chain[..j + 1] == chain;
    } else {
      UndoLast(e, s, start, chain, j);
      DroppedCanonicalSplit(e, chain, j);
      var evm := UndoIfShared(e, s.evm, Last(chain), chain[j]);
      if evm.Success? {
        PopOne(e, s, start, chain, j, evm.value);
        PopNativeExact(e, s.(native := Init(s.native), evm := evm.value), start, Init(chain), j);
        assert Init(chain)[..j + 1] == chain[..j + 1];
      }
    }
  }

  lemma DroppedCanonicalSplit(e: Env, chain: seq<NativeBlock>, j: nat)
    requires j < |chain| - 1
    ensures DroppedCanonical(e, chain, j) <==>
      && DroppedCanonical(e, Init(chain), j)
      && (Num(e, Last(chain)) == Num(e, chain[j]) ==> AllCanonical(e, Actions(Last(chain))))
  {
    var rest := Init(chain);
    assert forall i :: 0 <= i < |rest| ==> rest[i] == chain[i];
  }

  /** Resetting the upper bound restores the invariant. */
  lemma {:induction false} Reseal(e: Env, s: State, start: Block, chain: seq<NativeBlock>, j: nat)
    requires Reopened(e, s, start, chain, j) && j == |chain| - 1
    ensures Tracks(e, s.(evm := Init(s.evm) + [SetUpperBound(Last(s.evm), Last(chain))]), start, chain)
  {
    var x := SetUpperBound(Last(s.evm), Last(chain));
    var evm := Init(s.evm) + [x];
    assert BodyOf(x) == Expected(e, start, chain, Num(e, chain[j]));
    forall i | 0 <= i < |evm|
      ensures evm[i].header.number == s.evm[i].header.number
      ensures BodyOf(evm[i]) == Expected(e, start, chain, evm[i].header.number)
    {
      if i < |evm| - 1 { assert evm[i] == Init(s.evm)[i]; }
    }
  }

  /** A rollback to a cached block after the start block never fails for want of a block,
      succeeds exactly when the transactions to remove are canonical, and leaves the state
      that the chain cut at the fork point determines. */
  lemma {:induction false} RollbackTracks(e: Env, s: State, start: Block, chain: seq<NativeBlock>, j: nat)
    requires Tracks(e, s, start, chain)
    requires 0 < j < |chain| && |chain| - |s.native| <= j
    ensures var r := Rollback(e, s, chain[j]);
      && (r.Success? ==>
            && Tracks(e, r.value, start, chain[..j + 1])
            && r.value.native == s.native[..|s.native| - (|chain| - 1 - j)]
            && r.value.lib == s.lib && r.value.published == s.published)
      && (r.Failure? ==> r.error == UnableToRemoveTransaction)
      && (DroppedCanonical(e, chain, j) ==> r.Success?)
      && (CollisionFree(e) && r.Success? ==> DroppedCanonical(e, chain, j))
  {
    hide PopEvm, PopNative, ChainOk, BodiesMatch, Consecutive, Expected, DroppedCanonical, CollisionFree;
    var s0 := s.(evm := PopEvm(s.evm, Num(e, chain[j])));
    PopEvmReopens(e, s, start, chain, j);
    PopNativeExact(e, s0, start, chain, j);
    if PopNative(e, s0, chain[j]).Success? {
      var s1 := PopNative(e, s0, chain[j]).value;
      Reseal(e, s1, start, chain[..j + 1], j);
      assert s1.native == s.native[..|s1.native|];
    }
  }
}
