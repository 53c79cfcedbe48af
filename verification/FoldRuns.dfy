/** Whole runs against the plain fold: equal blocks, and exceptions exactly where the fold
    has them. */
module FoldRuns {
  import opened Types
  import opened Seqs
  import opened Conversion
  import opened Grouping
  import opened RollbackProofs
  import opened Runs
  import opened Headers

  /** The block is known, and if it forks then the transactions it drops can be recognised
      and dropping them forgets no header change. */
  ghost predicate Benign(e: Env, s: State, start: Block, chain: seq<NativeBlock>, b: NativeBlock)
    requires chain != [] && |s.native| <= |chain|
  {
    var how := Classify(chain, |chain| - |s.native|, b);
    && !how.Unknown?
    && (how.Fork? ==>
          && how.at < |chain|
          && DroppedCanonical(e, chain, how.at)
          && (Fold(e, start, chain[..how.at + 1]).Success? ==>
                Neutral(e, Last(Fold(e, start, chain[..how.at + 1]).value), Shared(e, chain, how.at))))
  }

  ghost predicate BenignRun(e: Env, s: State, start: Block, chain: seq<NativeBlock>, bs: seq<NativeBlock>)
    requires chain != []
  {
    bs != [] ==>
      && BenignRun(e, s, start, chain, Init(bs))
      && (Run(e, s, Init(bs)).Success? ==>
            && |Run(e, s, Init(bs)).value.native| <= |ChainRun(chain, Init(bs))|
            && Benign(e, Run(e, s, Init(bs)).value, start, ChainRun(chain, Init(bs)), Last(bs)))
  }

  /** A benign fork leaves the fold of the cut chain. */
  lemma {:induction false} ForkRefines(
    e: Env, s: State, start: Block, chain: seq<NativeBlock>, b: NativeBlock, j: nat)
    requires Tracks(e, s, start, chain) && Refines(e, s, start, chain)
    requires start.header.number < Num(e, chain[0]) && Benign(e, s, start, chain, b)
    requires Classify(chain, |chain| - |s.native|, b) == Fork(j)
    requires 0 < j < |chain| && |chain| - |s.native| <= j
    ensures Rollback(e, s, chain[j]).Success?
    ensures var r := Rollback(e, s, chain[j]).value;
      Tracks(e, r, start, chain[..j + 1]) && Refines(e, r, start, chain[..j + 1])
  {
    hide Rollback, Classify, Tracks, Refines, DroppedCanonical, Neutral, Shared, Fold;
    RollbackTracks(e, s, start, chain, j);
    RollbackRefinesExactly(e, s, start, chain, j);
  }

  /** One step raises an exception exactly when the fold over the new surviving chain does,
      and otherwise yields the fold's complete blocks. */
  lemma {:induction false} StepRefines(e: Env, s: State, start: Block, chain: seq<NativeBlock>, b: NativeBlock)
    requires Tracks(e, s, start, chain) && Refines(e, s, start, chain)
    requires start.header.number < Num(e, chain[0])
    requires Admissible(e, chain, b) && Benign(e, s, start, chain, b)
    ensures Step(e, s, b).Success? <==> Fold(e, start, ChainStep(chain, b)).Success?
    ensures Step(e, s, b).Success? ==> Refines(e, Step(e, s, b).value, start, ChainStep(chain, b))
  {
    hide Accept, Rollback, Classify, BodiesMatch, Consecutive, Refines, Admissible, Fold, ChainOk;
    hide DroppedCanonical, Neutral;
    StepCases(e, s, start, chain, b);
    match Classify(chain, |chain| - |s.native|, b)
    case Links => AcceptRefines(e, s, start, chain, b);
    case Duplicate => RefinesFolds(e, s, start, chain);
    case Fork(j) =>
      ForkRefines(e, s, start, chain, b, j);
      CutAdmissible(e, chain, b, j);
      AcceptRefines(e, Rollback(e, s, chain[j]).value, start, chain[..j + 1], b);
    case Unknown =>
  }

  lemma RefinesFolds(e: Env, s: State, start: Block, chain: seq<NativeBlock>)
    requires chain != [] && Refines(e, s, start, chain)
    ensures Fold(e, start, chain).Success?
  {
  }

  /** At every moment of the run the plain fold accepts the surviving chain. */
  ghost predicate FoldsThroughout(e: Env, start: Block, chain: seq<NativeBlock>, bs: seq<NativeBlock>)
    requires chain != []
  {
    && Fold(e, start, ChainRun(chain, bs)).Success?
    && (bs != [] ==> FoldsThroughout(e, start, chain, Init(bs)))
  }

  /** A run raises an exception exactly when some surviving chain on its way is one the plain
      fold rejects; otherwise it ends with the fold's complete EVM blocks, headers, hashes
      and roots included. */
  lemma {:induction false} RunRefines(e: Env, s: State, start: Block, chain: seq<NativeBlock>, bs: seq<NativeBlock>)
    requires Tracks(e, s, start, chain) && Refines(e, s, start, chain)
    requires start.header.number < Num(e, chain[0])
    requires AdmissibleRun(e, chain, bs) && BenignRun(e, s, start, chain, bs)
    ensures Run(e, s, bs).Success? <==> FoldsThroughout(e, start, chain, bs)
    ensures Run(e, s, bs).Success? ==> Refines(e, Run(e, s, bs).value, start, ChainRun(chain, bs))
    decreases |bs|
  {
    if bs != [] {
      RunRefines(e, s, start, chain, Init(bs));
      if Run(e, s, Init(bs)).Success? {
        RunTracks(e, s, start, chain, Init(bs));
        ChainRunStart(chain, Init(bs));
        StepRefines(e, Run(e, s, Init(bs)).value, start, ChainRun(chain, Init(bs)), Last(bs));
      }
    }
  }

  /** Two benign runs that end in the same native chain hold the same complete EVM blocks:
      of the closed ones, one run's are the end of the other's, and the open ones are equal up
      to the root. */
  lemma {:induction false} CompleteHistoryIndependence(
    e: Env, s: State, start: Block, chain: seq<NativeBlock>, bs: seq<NativeBlock>, cs: seq<NativeBlock>)
    requires chain != [] && Tracks(e, s, start, chain) && Refines(e, s, start, chain)
    requires start.header.number < Num(e, chain[0])
    requires AdmissibleRun(e, chain, bs) && BenignRun(e, s, start, chain, bs) && Run(e, s, bs).Success?
    requires AdmissibleRun(e, chain, cs) && BenignRun(e, s, start, chain, cs) && Run(e, s, cs).Success?
    requires ChainRun(chain, bs) == ChainRun(chain, cs)
    ensures var p, q := Run(e, s, bs).value.evm, Run(e, s, cs).value.evm;
      && p != [] && q != [] && SameButRoot(Last(p), Last(q))
      && (if |p| <= |q| then Suffix(Init(p), Init(q)) else Suffix(Init(q), Init(p)))
  {
    hide Tracks, AdmissibleRun, BenignRun, Run, ChainRun, Fold, Num;
    RunRefines(e, s, start, chain, bs);
    RunRefines(e, s, start, chain, cs);
    SameEnds(Run(e, s, bs).value.evm, Run(e, s, cs).value.evm, Fold(e, start, ChainRun(chain, bs)).value);
  }

  lemma SameEnds(p: seq<Block>, q: seq<Block>, f: seq<Block>)
    requires EndOf(p, f) && EndOf(q, f)
    ensures SameButRoot(Last(p), Last(q))
    ensures if |p| <= |q| then Suffix(Init(p), Init(q)) else Suffix(Init(q), Init(p))
  {
    assert Init(p) == Init(f)[|f| - |p|..] && Init(q) == Init(f)[|f| - |q|..];
    if |p| <= |q| {
      assert Init(p) == Init(q)[|q| - |p|..];
    } else {
      assert Init(q) == Init(p)[|p| - |q|..];
    }
  }

  lemma {:induction false} ChainRunStart(chain: seq<NativeBlock>, bs: seq<NativeBlock>)
    requires chain != []
    ensures ChainRun(chain, bs)[0] == chain[0]
    decreases |bs|
  {
    if bs != [] { ChainRunStart(chain, Init(bs)); }
  }
}
