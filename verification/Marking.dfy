/** Every transaction marked with the settings in force when it was added: in every reachable
    state, after any forks, the marks of a block all equal the block's current settings. */
module Marking {
  import opened Types
  import opened Seqs
  import opened Conversion
  import opened Grouping
  import opened Uniformity

  /** Version, base fee, gas prices and consensus parameter index. */
  datatype Mark = Mark(key: Key, cpi: Option<Hash>)

  function MarkOf(x: Block): Mark {
    Mark(KeyOf(x), x.cpi)
  }

  // ----- the marks a step adds and removes, beside the blocks -----

  /** One mark for each action added to `x`: the settings of the block it was added to. */
  function MarkAll(e: Env, x: Block, m: seq<Mark>, acts: seq<Action>): seq<Mark>
    requires ApplyAll(e, x, acts).Success?
  {
    if acts == [] then m else MarkAll(e, x, m, Init(acts)) + [MarkOf(ApplyAll(e, x, acts).value)]
  }

  /** Marks of the blocks that replace the open block `x`, marked `m`. */
  function MarkGrow(e: Env, x: Block, m: seq<Mark>, b: NativeBlock): seq<seq<Mark>>
    requires Grow(e, x, b).Success?
  {
    var t := Tail(e, x, Num(e, b));
    var last := ApplyConfig(e, Last(t), b).value;
    if |t| == 1 then [MarkAll(e, last, m, Actions(b))]
    else [m] + seq(|t| - 2, i => []) + [MarkAll(e, last, [], Actions(b))]
  }

  /** Each removed transaction takes the last mark with it. */
  function MarkUndo(m: seq<Mark>, acts: seq<Action>): seq<Mark>
    decreases |acts|
  {
    if acts == [] || m == [] then m else MarkUndo(Init(m), Init(acts))
  }

  function MarkPopEvm(evm: seq<Block>, marks: seq<seq<Mark>>, k: nat): seq<seq<Mark>>
    requires |marks| == |evm|
  {
    if evm != [] && k < Last(evm).header.number then MarkPopEvm(Init(evm), Init(marks), k) else marks
  }

  function MarkIfShared(e: Env, marks: seq<seq<Mark>>, b: NativeBlock, fork: NativeBlock): seq<seq<Mark>> {
    if b.transactions != [] && Num(e, b) == Num(e, fork) && marks != [] then
      Init(marks) + [MarkUndo(Last(marks), Actions(b))]
    else
      marks
  }

  function MarkPopNative(e: Env, s: State, marks: seq<seq<Mark>>, fork: NativeBlock): seq<seq<Mark>>
    requires PopNative(e, s, fork).Success?
    decreases |s.native|
  {
    if s.native == [] || Last(s.native).id == fork.id then marks
    else
      var b := Last(s.native);
      var evm := UndoIfShared(e, s.evm, b, fork).value;
      MarkPopNative(e, s.(native := Init(s.native), evm := evm), MarkIfShared(e, marks, b, fork), fork)
  }

  function MarkRollback(e: Env, s: State, marks: seq<seq<Mark>>, fork: NativeBlock): seq<seq<Mark>>
    requires |marks| == |s.evm| && Rollback(e, s, fork).Success?
  {
    MarkPopNative(e, s.(evm := PopEvm(s.evm, Num(e, fork))), MarkPopEvm(s.evm, marks, Num(e, fork)), fork)
  }

  function MarkDrop(evm: seq<Block>, marks: seq<seq<Mark>>, h: nat): seq<seq<Mark>>
    requires |marks| == |evm|
  {
    if evm != [] && evm[0].header.number < h then MarkDrop(evm[1..], marks[1..], h) else marks
  }

  function MarkPrune(e: Env, s: State, marks: seq<seq<Mark>>, lib: nat): seq<seq<Mark>>
    requires |marks| == |s.evm|
  {
    var n := UpperBound(s.native, lib);
    if n == 0 then marks else MarkDrop(s.evm, marks, MinusOne32(Num(e, s.native[n - 1])))
  }

  function MarkAccept(e: Env, s: State, marks: seq<seq<Mark>>, b: NativeBlock): seq<seq<Mark>>
    requires |marks| == |s.evm| && Accept(e, s, b).Success?
  {
    var x, grown := Last(s.evm), Grow(e, Last(s.evm), b).value;
    var s1 := State(s.native + [b], Init(s.evm) + grown, s.lib, s.published + Init(grown));
    var more := MarkGrow(e, x, Last(marks), b);
    GrowCount(e, x, Last(marks), b);
    MarkPrune(e, s1, Init(marks) + more, b.lib)
  }

  lemma GrowCount(e: Env, x: Block, m: seq<Mark>, b: NativeBlock)
    requires Grow(e, x, b).Success?
    ensures |MarkGrow(e, x, m, b)| == |Grow(e, x, b).value|
  {
    hide ApplyAll, Actions;
  }

  function MarkStep(e: Env, s: State, marks: seq<seq<Mark>>, b: NativeBlock): seq<seq<Mark>>
    requires |marks| == |s.evm| && Step(e, s, b).Success?
  {
    if s.native == [] || Last(s.native).id == b.prev then MarkAccept(e, s, marks, b)
    else if Find(s.native, b.id).Some? then marks
    else
      var fork := s.native[Find(s.native, b.prev).value];
      var kept := MarkRollback(e, s, marks, fork);
      RollbackCount(e, s, marks, fork);
      MarkAccept(e, Rollback(e, s, fork).value, kept, b)
  }

  lemma {:induction false} PopEvmCount(evm: seq<Block>, marks: seq<seq<Mark>>, k: nat)
    requires |marks| == |evm|
    ensures |MarkPopEvm(evm, marks, k)| == |PopEvm(evm, k)|
    decreases |evm|
  {
    if evm != [] && k < Last(evm).header.number { PopEvmCount(Init(evm), Init(marks), k); }
  }

  lemma {:induction false} PopNativeCount(e: Env, s: State, marks: seq<seq<Mark>>, fork: NativeBlock)
    requires |marks| == |s.evm| && PopNative(e, s, fork).Success?
    ensures |MarkPopNative(e, s, marks, fork)| == |PopNative(e, s, fork).value.evm|
    decreases |s.native|
  {
    if s.native != [] && Last(s.native).id != fork.id {
      var b := Last(s.native);
      var evm := UndoIfShared(e, s.evm, b, fork).value;
      PopNativeCount(e, s.(native := Init(s.native), evm := evm), MarkIfShared(e, marks, b, fork), fork);
    }
  }

  lemma RollbackCount(e: Env, s: State, marks: seq<seq<Mark>>, fork: NativeBlock)
    requires |marks| == |s.evm| && Rollback(e, s, fork).Success?
    ensures |MarkRollback(e, s, marks, fork)| == |Rollback(e, s, fork).value.evm|
  {
    PopEvmCount(s.evm, marks, Num(e, fork));
    PopNativeCount(e, s.(evm := PopEvm(s.evm, Num(e, fork))), MarkPopEvm(s.evm, marks, Num(e, fork)), fork);
  }

  // ----- the invariant -----

  /** The header holds whatever the version makes actions agree with. */
  predicate Settled(e: Env, x: Block) {
    && (1 <= x.header.version < 3 ==> x.header.baseFee.Some?)
    && (3 <= x.header.version ==> x.gasPrices.Some? && x.header.baseFee == Some(e.feeOf(x.gasPrices.value)))
  }

  /** One mark per transaction, each the block's current settings. */
  predicate UnderOne(e: Env, x: Block, m: seq<Mark>) {
    && |m| == |x.transactions|
    && (forall t :: t in m ==> t == MarkOf(x))
    && (m != [] ==> Settled(e, x))
  }

  /** Every block numbered above `n` is under one setting. */
  predicate AllUnderOne(e: Env, evm: seq<Block>, marks: seq<seq<Mark>>, n: nat) {
    && |marks| == |evm|
    && forall i :: 0 <= i < |evm| && n < evm[i].header.number ==> UnderOne(e, evm[i], marks[i])
  }

  // ----- adding -----

  lemma {:induction false} ActionUnderOne(e: Env, x: Block, m: seq<Mark>, a: Action)
    requires UnderOne(e, x, m) && ApplyAction(e, x, a).Success?
    ensures var y := ApplyAction(e, x, a).value; UnderOne(e, y, m + [MarkOf(y)])
  {
    var y := ApplyAction(e, x, a).value;
    if m != [] {
      assert MarkOf(y) == MarkOf(x);
    }
  }

  lemma {:induction false} ActionsUnderOne(e: Env, x: Block, m: seq<Mark>, acts: seq<Action>)
    requires UnderOne(e, x, m) && ApplyAll(e, x, acts).Success?
    ensures UnderOne(e, ApplyAll(e, x, acts).value, MarkAll(e, x, m, acts))
    decreases |acts|
  {
    hide ApplyAction, UnderOne;
    if acts != [] {
      ActionsUnderOne(e, x, m, Init(acts));
      ActionUnderOne(e, ApplyAll(e, x, Init(acts)).value, MarkAll(e, x, m, Init(acts)), Last(acts));
    }
  }

  /** A config needs a block without transactions, so it changes no setting a mark names. */
  lemma {:induction false} AppendUnderOne(e: Env, x: Block, m: seq<Mark>, b: NativeBlock)
    requires UnderOne(e, x, m) && Append(e, x, b).Success?
    ensures UnderOne(e, Append(e, x, b).value, MarkAll(e, ApplyConfig(e, x, b).value, m, Actions(b)))
  {
    hide ApplyAll, MarkAll, Actions;
    ActionsUnderOne(e, ApplyConfig(e, x, b).value, m, Actions(b));
  }

  lemma {:induction false} TailUnderOne(e: Env, x: Block, m: seq<Mark>, k: nat)
    ensures var t := Tail(e, x, k);
      && t[0].header.number == x.header.number
      && (UnderOne(e, x, m) ==> UnderOne(e, t[0], m))
      && forall i :: 0 < i < |t| ==> UnderOne(e, t[i], []) && x.header.number < t[i].header.number
    decreases if x.header.number < k then k - x.header.number else 0
  {
    if x.header.number < k {
      var y := Fresh(e, Close(e, x));
      var t, u := Tail(e, x, k), Tail(e, y, k);
      TailUnderOne(e, y, [], k);
      assert t == [Close(e, x)] + u;
      forall i | 0 < i < |t|
        ensures UnderOne(e, t[i], []) && x.header.number < t[i].header.number
      {
        assert t[i] == u[i - 1];
      }
    }
  }

  lemma {:induction false} GrowUnderOne(e: Env, x: Block, m: seq<Mark>, b: NativeBlock, n: nat)
    requires Grow(e, x, b).Success? && (n < x.header.number ==> UnderOne(e, x, m))
    ensures AllUnderOne(e, Grow(e, x, b).value, MarkGrow(e, x, m, b), n)
  {
    hide Append, UnderOne, Tail, Actions, MarkAll;
    var t, g, marks := Tail(e, x, Num(e, b)), Grow(e, x, b).value, MarkGrow(e, x, m, b);
    GrowCount(e, x, m, b);
    GrowParts(e, x, b);
    TailUnderOne(e, x, m, Num(e, b));
    AppendNumber(e, Last(t), b);
    forall i | 0 <= i < |g| && n < g[i].header.number
      ensures UnderOne(e, g[i], marks[i])
    {
      if i < |g| - 1 {
        assert g[i] == Init(g)[i] == Init(t)[i] == t[i];
      } else {
        AppendUnderOne(e, t[i], if |t| == 1 then m else [], b);
      }
    }
  }

  lemma AppendNumber(e: Env, x: Block, b: NativeBlock)
    requires Append(e, x, b).Success?
    ensures Append(e, x, b).value.header.number == x.header.number
  {
    AppendBody(e, x, b);
  }

  // ----- removing -----

  lemma {:induction false} UndoPrefix(e: Env, txs: seq<Tx>, acts: seq<Action>, m: seq<Mark>)
    requires Undo(e, txs, acts).Success? && |m| == |txs|
    ensures |MarkUndo(m, acts)| == |Undo(e, txs, acts).value| && MarkUndo(m, acts) <= m
    decreases |acts|
  {
    if acts != [] { UndoPrefix(e, Init(txs), Init(acts), Init(m)); }
  }

  /** A fork undoes the last transactions first, so the marks that stay are those of the
      transactions that stay, and the header they name has not changed. */
  lemma {:induction false} SharedUnderOne(
    e: Env, evm: seq<Block>, marks: seq<seq<Mark>>, b: NativeBlock, fork: NativeBlock, n: nat)
    requires AllUnderOne(e, evm, marks, n) && UndoIfShared(e, evm, b, fork).Success?
    ensures AllUnderOne(e, UndoIfShared(e, evm, b, fork).value, MarkIfShared(e, marks, b, fork), n)
  {
    hide Undo, MarkUndo, Actions;
    if b.transactions != [] && Num(e, b) == Num(e, fork) {
      var r, kept := UndoIfShared(e, evm, b, fork).value, MarkIfShared(e, marks, b, fork);
      var m := |evm| - 1;
      forall i | 0 <= i < |r| && n < r[i].header.number
        ensures UnderOne(e, r[i], kept[i])
      {
        if i < m {
          assert r[i] == evm[i] && kept[i] == marks[i];
        } else {
          UndoPrefix(e, evm[m].transactions, Actions(b), marks[m]);
          KeptUnderOne(e, evm[m], r[m].transactions, marks[m], kept[m]);
        }
      }
    }
  }

  lemma KeptUnderOne(e: Env, x: Block, txs: seq<Tx>, m: seq<Mark>, kept: seq<Mark>)
    requires UnderOne(e, x, m) && kept <= m && |kept| == |txs|
    ensures UnderOne(e, x.(transactions := txs), kept)
  {
    assert forall t :: t in kept ==> t in m;
  }

  lemma {:induction false} PopEvmUnderOne(e: Env, evm: seq<Block>, marks: seq<seq<Mark>>, k: nat, n: nat)
    requires AllUnderOne(e, evm, marks, n)
    ensures AllUnderOne(e, PopEvm(evm, k), MarkPopEvm(evm, marks, k), n)
    decreases |evm|
  {
    hide UnderOne;
    if evm != [] && k < Last(evm).header.number {
      assert forall i :: 0 <= i < |evm| - 1 ==> Init(evm)[i] == evm[i] && Init(marks)[i] == marks[i];
      PopEvmUnderOne(e, Init(evm), Init(marks), k, n);
    }
  }

  lemma {:induction false} PopNativeUnderOne(e: Env, s: State, marks: seq<seq<Mark>>, fork: NativeBlock, n: nat)
    requires AllUnderOne(e, s.evm, marks, n) && PopNative(e, s, fork).Success?
    ensures AllUnderOne(e, PopNative(e, s, fork).value.evm, MarkPopNative(e, s, marks, fork), n)
    decreases |s.native|
  {
    hide AllUnderOne, UndoIfShared, MarkIfShared;
    if s.native != [] && Last(s.native).id != fork.id {
      var b := Last(s.native);
      var evm := UndoIfShared(e, s.evm, b, fork).value;
      SharedUnderOne(e, s.evm, marks, b, fork, n);
      PopNativeUnderOne(e, s.(native := Init(s.native), evm := evm), MarkIfShared(e, marks, b, fork), fork, n);
    }
  }

  lemma {:induction false} RollbackUnderOne(e: Env, s: State, marks: seq<seq<Mark>>, fork: NativeBlock, n: nat)
    requires AllUnderOne(e, s.evm, marks, n) && Rollback(e, s, fork).Success?
    ensures AllUnderOne(e, Rollback(e, s, fork).value.evm, MarkRollback(e, s, marks, fork), n)
  {
    hide PopEvm, PopNative, MarkPopEvm, MarkPopNative, UnderOne;
    var k := Num(e, fork);
    var s0, m0 := s.(evm := PopEvm(s.evm, k)), MarkPopEvm(s.evm, marks, k);
    PopEvmUnderOne(e, s.evm, marks, k, n);
    PopNativeUnderOne(e, s0, m0, fork, n);
    var evm, m := PopNative(e, s0, fork).value.evm, MarkPopNative(e, s0, m0, fork);
    ResealUnderOne(e, evm, m, Last(PopNative(e, s0, fork).value.native), n);
  }

  lemma ResealUnderOne(e: Env, evm: seq<Block>, marks: seq<seq<Mark>>, b: NativeBlock, n: nat)
    requires evm != [] && AllUnderOne(e, evm, marks, n)
    ensures AllUnderOne(e, Init(evm) + [SetUpperBound(Last(evm), b)], marks, n)
  {
    var r := Init(evm) + [SetUpperBound(Last(evm), b)];
    assert forall i :: 0 <= i < |evm| - 1 ==> r[i] == evm[i];
    assert evm[|evm| - 1] == Last(evm);
  }

  lemma {:induction false} DropUnderOne(e: Env, evm: seq<Block>, marks: seq<seq<Mark>>, h: nat, n: nat)
    requires AllUnderOne(e, evm, marks, n)
    ensures AllUnderOne(e, DropEvmBelow(evm, h), MarkDrop(evm, marks, h), n)
    decreases |evm|
  {
    hide UnderOne;
    if evm != [] && evm[0].header.number < h {
      assert forall i :: 0 <= i < |evm| - 1 ==> evm[1..][i] == evm[i + 1] && marks[1..][i] == marks[i + 1];
      DropUnderOne(e, evm[1..], marks[1..], h, n);
    }
  }

  // ----- steps and runs -----

  lemma {:induction false} AcceptUnderOne(e: Env, s: State, marks: seq<seq<Mark>>, b: NativeBlock, n: nat)
    requires AllUnderOne(e, s.evm, marks, n) && Accept(e, s, b).Success?
    ensures AllUnderOne(e, Accept(e, s, b).value.evm, MarkAccept(e, s, marks, b), n)
  {
    hide Grow, MarkGrow, UnderOne, DropEvmBelow, MarkDrop, DropNativeBelow;
    var x, g, more := Last(s.evm), Grow(e, Last(s.evm), b).value, MarkGrow(e, Last(s.evm), Last(marks), b);
    assert x == s.evm[|s.evm| - 1] && Last(marks) == marks[|s.evm| - 1];
    GrowUnderOne(e, x, Last(marks), b, n);
    var s1 := State(s.native + [b], Init(s.evm) + g, s.lib, s.published + Init(g));
    JoinUnderOne(e, Init(s.evm), Init(marks), g, more, n);
    if UpperBound(s1.native, b.lib) > 0 {
      DropUnderOne(e, s1.evm, Init(marks) + more, MinusOne32(Num(e, s1.native[UpperBound(s1.native, b.lib) - 1])), n);
    }
  }

  lemma JoinUnderOne(e: Env, p: seq<Block>, m: seq<seq<Mark>>, q: seq<Block>, l: seq<seq<Mark>>, n: nat)
    requires |m| == |p| && (forall i :: 0 <= i < |p| && n < p[i].header.number ==> UnderOne(e, p[i], m[i]))
    requires AllUnderOne(e, q, l, n)
    ensures AllUnderOne(e, p + q, m + l, n)
  {
    hide UnderOne;
  }

  lemma {:induction false} StepUnderOne(e: Env, s: State, marks: seq<seq<Mark>>, b: NativeBlock, n: nat)
    requires AllUnderOne(e, s.evm, marks, n) && Step(e, s, b).Success?
    ensures AllUnderOne(e, Step(e, s, b).value.evm, MarkStep(e, s, marks, b), n)
  {
    hide Accept, Rollback, MarkAccept, MarkRollback, UnderOne;
    if s.native == [] || Last(s.native).id == b.prev {
      AcceptUnderOne(e, s, marks, b, n);
    } else if Find(s.native, b.id).None? {
      var fork := s.native[Find(s.native, b.prev).value];
      RollbackUnderOne(e, s, marks, fork, n);
      AcceptUnderOne(e, Rollback(e, s, fork).value, MarkRollback(e, s, marks, fork), b, n);
    }
  }

  /** The marks after a run, beside the state it leaves. */
  function MarkRun(e: Env, s: State, marks: seq<seq<Mark>>, bs: seq<NativeBlock>): (r: seq<seq<Mark>>)
    requires |marks| == |s.evm| && Run(e, s, bs).Success?
    ensures |r| == |Run(e, s, bs).value.evm|
    decreases |bs|
  {
    if bs == [] then marks
    else
      var t, m := Run(e, s, Init(bs)).value, MarkRun(e, s, marks, Init(bs));
      StepCount(e, t, m, Last(bs));
      MarkStep(e, t, m, Last(bs))
  }

  lemma {:induction false} DropCount(evm: seq<Block>, marks: seq<seq<Mark>>, h: nat)
    requires |marks| == |evm|
    ensures |MarkDrop(evm, marks, h)| == |DropEvmBelow(evm, h)|
    decreases |evm|
  {
    if evm != [] && evm[0].header.number < h { DropCount(evm[1..], marks[1..], h); }
  }

  lemma AcceptCount(e: Env, s: State, marks: seq<seq<Mark>>, b: NativeBlock)
    requires |marks| == |s.evm| && Accept(e, s, b).Success?
    ensures |MarkAccept(e, s, marks, b)| == |Accept(e, s, b).value.evm|
  {
    hide Grow, MarkGrow, DropEvmBelow, MarkDrop, DropNativeBelow;
    var x, g, more := Last(s.evm), Grow(e, Last(s.evm), b).value, MarkGrow(e, Last(s.evm), Last(marks), b);
    var s1 := State(s.native + [b], Init(s.evm) + g, s.lib, s.published + Init(g));
    GrowCount(e, x, Last(marks), b);
    if UpperBound(s1.native, b.lib) > 0 {
      DropCount(s1.evm, Init(marks) + more, MinusOne32(Num(e, s1.native[UpperBound(s1.native, b.lib) - 1])));
    }
  }

  lemma StepCount(e: Env, s: State, marks: seq<seq<Mark>>, b: NativeBlock)
    requires |marks| == |s.evm| && Step(e, s, b).Success?
    ensures |MarkStep(e, s, marks, b)| == |Step(e, s, b).value.evm|
  {
    hide Accept, Rollback, MarkAccept, MarkRollback;
    if s.native == [] || Last(s.native).id == b.prev {
      AcceptCount(e, s, marks, b);
    } else if Find(s.native, b.id).None? {
      var fork := s.native[Find(s.native, b.prev).value];
      RollbackCount(e, s, marks, fork);
      AcceptCount(e, Rollback(e, s, fork).value, MarkRollback(e, s, marks, fork), b);
    }
  }

  /** Whatever is received, every transaction of a cached EVM block numbered above `n`, the
      start block's number, was added under the block's current version, base fee, gas prices
      and consensus parameter index.  Forks need not be neutral for this. */
  lemma {:induction false} RunUnderOne(e: Env, s: State, marks: seq<seq<Mark>>, bs: seq<NativeBlock>, n: nat)
    requires AllUnderOne(e, s.evm, marks, n) && Run(e, s, bs).Success?
    ensures AllUnderOne(e, Run(e, s, bs).value.evm, MarkRun(e, s, marks, bs), n)
    decreases |bs|
  {
    hide Step, MarkStep, AllUnderOne;
    assert |marks| == |s.evm| by { SameCount(e, s.evm, marks, n); }
    if bs != [] {
      RunUnderOne(e, s, marks, Init(bs), n);
      StepUnderOne(e, Run(e, s, Init(bs)).value, MarkRun(e, s, marks, Init(bs)), Last(bs), n);
    }
  }

  lemma SameCount(e: Env, evm: seq<Block>, marks: seq<seq<Mark>>, n: nat)
    requires AllUnderOne(e, evm, marks, n)
    ensures |marks| == |evm|
  {
  }

  /** At the start there is nothing to mark but the start block. */
  lemma StartUnderOne(e: Env, start: Block)
    ensures AllUnderOne(e, [start], [[]], start.header.number)
  {
  }
}
