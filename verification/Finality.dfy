/** With a source that never branches below the last irreversible block it reported, the
    handler always finds its fork point, and final EVM blocks are never touched again. */
module Finality {
  import opened Types
  import opened Seqs
  import opened Conversion
  import opened Grouping
  import opened RollbackProofs
  import opened Runs
  import Output

  // ----- the source and the invariant -----

  /** `b` follows `chain[j]`, which is the end of the chain or not below the reported number. */
  predicate Offers(chain: seq<NativeBlock>, seen: nat, b: NativeBlock, j: nat) {
    j < |chain| && Follows(chain[j], b) && (j == |chain| - 1 || seen <= chain[j].blockNum)
  }

  /** What a source that obeys finality delivers after it has reported `seen`: reported
      numbers never fall, blocks extend the chain or branch at or above `seen`, and the
      first block after the start block is already irreversible. */
  ghost predicate FromSource(e: Env, chain: seq<NativeBlock>, seen: nat, b: NativeBlock) {
    && b.blockNum == e.idNum(b.id) && InTime(e, b) && seen <= b.lib
    && (|chain| == 1 ==> b.blockNum <= b.lib)
    && exists j: nat :: Offers(chain, seen, b, j)
  }

  /** The cached block the recorded irreversible EVM number comes from. */
  predicate LibFrom(e: Env, s: State, chain: seq<NativeBlock>, seen: nat, i: nat) {
    && |s.native| <= |chain| && |chain| - |s.native| <= i < |chain| && 1 < |chain|
    && chain[i].blockNum <= seen
    && s.lib.Some? && Num(e, chain[i]) == s.lib.value + 1
  }

  ghost predicate Final(e: Env, s: State, chain: seq<NativeBlock>, seen: nat) {
    && |s.native| <= |chain|
    && (forall i :: 0 <= i < |chain| - |s.native| ==> chain[i].blockNum < seen)
    && (s.lib.Some? ==> exists i: nat :: LibFrom(e, s, chain, seen, i))
    && (1 < |chain| ==> chain[1].blockNum <= seen)
  }

  function SeenAfter(seen: nat, bs: seq<NativeBlock>): nat {
    if bs == [] then seen else Last(bs).lib
  }

  ghost predicate SourceRun(e: Env, chain: seq<NativeBlock>, seen: nat, bs: seq<NativeBlock>)
    requires chain != []
  {
    bs != [] ==>
      && SourceRun(e, chain, seen, Init(bs))
      && FromSource(e, ChainRun(chain, Init(bs)), SeenAfter(seen, Init(bs)), Last(bs))
  }

  // ----- the handler understands every block of such a source -----

  lemma {:induction false} SourceAdmissible(
    e: Env, s: State, start: Block, chain: seq<NativeBlock>, seen: nat, b: NativeBlock)
    requires ChainOk(e, start, chain) && Final(e, s, chain, seen) && FromSource(e, chain, seen, b)
    ensures Admissible(e, chain, b)
  {
    var j: nat :| Offers(chain, seen, b, j);
    forall i | 0 <= i < |chain| && chain[i].id == b.prev
      ensures i == j
    {
      ChainIdsDistinct(e, start, chain, i, j);
    }
    if j == 0 && |chain| > 1 { ChainMonotone(e, start, chain, 0, 1); }
  }

  /** The block links, repeats a cached block, or forks at a cached block not below the
      reported number; `NoForkBlock` is never raised. */
  lemma {:induction false} SourceKnown(
    e: Env, s: State, start: Block, chain: seq<NativeBlock>, seen: nat, b: NativeBlock)
    requires ChainOk(e, start, chain) && Final(e, s, chain, seen) && FromSource(e, chain, seen, b)
    ensures var how := Classify(chain, |chain| - |s.native|, b);
      && !how.Unknown?
      && (how.Fork? ==> how.at < |chain| && seen <= chain[how.at].blockNum)
  {
    var j: nat :| Offers(chain, seen, b, j);
    var off, dup, at := |chain| - |s.native|, Find(chain, b.id), Find(chain, b.prev);
    assert at.Some?;
    ChainIdsDistinct(e, start, chain, at.value, j);
    if j < |chain| - 1 && dup.Some? {
      assert LinkedAt(e, chain, dup.value);
      ChainMonotone(e, start, chain, 0, j);
      ChainMonotone(e, start, chain, 0, dup.value);
    }
    if j == |chain| - 1 { assert Last(chain).id == b.prev; }
  }

  // ----- accepting a block -----

  /** Last cached block at or below the reported number. */
  lemma {:induction false} CachedUpperBound(e: Env, s: State, start: Block, chain: seq<NativeBlock>, lib: nat)
    requires Tracks(e, s, start, chain)
    ensures var off, n := |chain| - |s.native|, UpperBound(s.native, lib);
      forall i :: off <= i < |chain| ==> (i < off + n <==> chain[i].blockNum <= lib)
  {
    hide LinkedAt, BodiesMatch, Consecutive, UpperBound;
    var off := |chain| - |s.native|;
    forall i, j | 0 <= i < j < |s.native|
      ensures s.native[i].blockNum < s.native[j].blockNum
    {
      ChainMonotone(e, start, chain, off + i, off + j);
      assert s.native[i] == chain[off + i] && s.native[j] == chain[off + j];
    }
    UpperBoundAt(s.native, lib);
    var n := UpperBound(s.native, lib);
    forall i | off <= i < |chain|
      ensures i < off + n <==> chain[i].blockNum <= lib
    {
      assert s.native[i - off] == chain[i];
    }
  }

  /** Pruning with a number at or above all reported ones keeps what finality needs and
      never lowers the recorded EVM number. */
  lemma {:induction false} PruneFinal(e: Env, s: State, start: Block, chain: seq<NativeBlock>, seen: nat, lib: nat)
    requires Tracks(e, s, start, chain) && 1 < |chain| && Final(e, s, chain, seen)
    requires seen <= lib
    ensures var r := Prune(e, s, lib);
      && Final(e, r, chain, lib)
      && (s.lib.Some? ==> r.lib.Some? && s.lib.value <= r.lib.value)
  {
    hide BodiesMatch, Consecutive, Prune, PrunedAt, LibFrom;
    var n, r := UpperBound(s.native, lib), Prune(e, s, lib);
    PruneTracks(e, s, start, chain, lib);
    CachedUpperBound(e, s, start, chain, lib);
    if n > 0 {
      PrunedFinal(e, s, r, start, chain, seen, lib, |chain| - |s.native| + n - 1);
    } else {
      NoLibYet(e, s, chain, seen, lib);
      RaiseSeen(e, s, chain, seen, lib);
    }
  }

  lemma NoLibYet(e: Env, s: State, chain: seq<NativeBlock>, seen: nat, lib: nat)
    requires Final(e, s, chain, seen) && seen <= lib
    requires forall i :: |chain| - |s.native| <= i < |chain| ==> lib < chain[i].blockNum
    ensures s.lib.None?
  {
  }

  lemma {:induction false} PrunedFinal(
    e: Env, s: State, r: State, start: Block, chain: seq<NativeBlock>, seen: nat, lib: nat, i: nat)
    requires ChainOk(e, start, chain) && 1 < |chain| && Final(e, s, chain, seen) && seen <= lib
    requires |s.native| <= |chain| && Suffix(s.native, chain) && Suffix(r.native, s.native)
    requires |chain| - |s.native| <= i < |chain| && PrunedAt(e, s, r, i - (|chain| - |s.native|))
    requires forall k :: |chain| - |s.native| <= k < |chain| ==> (k <= i <==> chain[k].blockNum <= lib)
    ensures Final(e, r, chain, lib)
    ensures s.lib.Some? ==> r.lib.Some? && s.lib.value <= r.lib.value
  {
    hide ChainOk;
    assert s.native[i - (|chain| - |s.native|)] == chain[i];
    assert LibFrom(e, r, chain, lib, i);
    forall k | 0 <= k < |chain| - |r.native|
      ensures chain[k].blockNum < lib
    {
      ChainMonotone(e, start, chain, k, i);
    }
    if s.lib.Some? {
      var i0: nat :| LibFrom(e, s, chain, seen, i0);
      ChainMonotone(e, start, chain, i0, i);
    }
  }

  /** Every closed block of the extension is above the recorded EVM number. */
  lemma {:induction false} OpenAboveLib(e: Env, s: State, start: Block, chain: seq<NativeBlock>, seen: nat)
    requires Tracks(e, s, start, chain) && Final(e, s, chain, seen) && s.lib.Some?
    ensures s.lib.value < Last(s.evm).header.number
  {
    hide LinkedAt, BodiesMatch, Consecutive, EvmNum;
    var i: nat :| LibFrom(e, s, chain, seen, i);
    ChainMonotone(e, start, chain, i, |chain| - 1);
  }

  /** Blocks of `p` and `q` with the same number, at most `h`, are equal. */
  ghost predicate AgreeBelow(p: seq<Block>, q: seq<Block>, h: nat) {
    forall i, j :: 0 <= i < |p| && 0 <= j < |q| && q[j].header.number == p[i].header.number <= h ==> q[j] == p[i]
  }

  /** What a step may change: it publishes only above the old EVM number, keeps every block
      at or below it, and never lowers it or brings pruned blocks back. */
  ghost predicate KeepsFinal(s: State, r: State) {
    && s.evm != [] && r.evm != []
    && s.evm[0].header.number <= r.evm[0].header.number
    && s.published <= r.published
    && (s.lib.Some? ==>
          && r.lib.Some? && s.lib.value <= r.lib.value
          && (forall p :: |s.published| <= p < |r.published| ==> s.lib.value < r.published[p].header.number)
          && AgreeBelow(s.evm, r.evm, s.lib.value))
  }

  lemma {:induction false} GrownAgrees(evm: seq<Block>, g: seq<Block>, r: seq<Block>, h: nat)
    requires evm != [] && Consecutive(evm) && h < Last(evm).header.number
    requires Consecutive(Init(evm) + g) && g != [] && g[0].header.number == Last(evm).header.number
    requires Suffix(r, Init(evm) + g)
    ensures AgreeBelow(evm, r, h)
  {
    var long, m := Init(evm) + g, |evm| - 1;
    var d := |long| - |r|;
    assert evm[m] == Last(evm);
    assert long[0].header.number == evm[0].header.number by {
      if m == 0 { assert long[0] == g[0]; } else { assert long[0] == evm[0]; }
    }
    forall i, j | 0 <= i < |evm| && 0 <= j < |r| && r[j].header.number == evm[i].header.number <= h
      ensures r[j] == evm[i]
    {
      assert r[j] == long[j + d];
      assert j + d == i;
    }
  }

  lemma {:induction false} AcceptFinal(
    e: Env, s: State, start: Block, chain: seq<NativeBlock>, seen: nat, b: NativeBlock)
    requires Tracks(e, s, start, chain) && Final(e, s, chain, seen)
    requires Admissible(e, chain, b) && Last(chain).id == b.prev
    requires seen <= b.lib && (|chain| == 1 ==> b.blockNum <= b.lib)
    requires Accept(e, s, b).Success?
    ensures Final(e, Accept(e, s, b).value, chain + [b], b.lib)
    ensures KeepsFinal(s, Accept(e, s, b).value)
  {
    hide BodiesMatch, Consecutive, Admissible, Prune, Grow, KeepsFinal, Final, Suffix, LinkedAt;
    var g, longer := Grow(e, Last(s.evm), b).value, chain + [b];
    var s1 := State(s.native + [b], Init(s.evm) + g, s.lib, s.published + Init(g));
    GrowTracks(e, s, start, chain, b);
    TracksPublished(e, s1, s1.(published := s.published), start, longer);
    GrownFinal(e, s, s1, start, chain, seen, b);
    PruneFinal(e, s1, start, longer, b.lib, b.lib);
    PruneTracks(e, s1, start, longer, b.lib);
    GrownKeeps(e, s, s1, Prune(e, s1, b.lib), start, chain, seen, b);
  }

  lemma {:induction false} GrownKeeps(
    e: Env, s: State, s1: State, r: State, start: Block, chain: seq<NativeBlock>, seen: nat, b: NativeBlock)
    requires Tracks(e, s, start, chain) && Final(e, s, chain, seen)
    requires Grow(e, Last(s.evm), b).Success?
    requires var g := Grow(e, Last(s.evm), b).value;
      s1.evm == Init(s.evm) + g && s1.published == s.published + Init(g) && s1.lib == s.lib
    requires Consecutive(s1.evm) && r.evm != [] && Suffix(r.evm, s1.evm) && r.published == s1.published
    requires s.lib.Some? ==> r.lib.Some? && s.lib.value <= r.lib.value
    ensures KeepsFinal(s, r)
  {
    hide BodiesMatch, Grow, Final, ChainOk, Decodable, Actions, TxsOf, AgreeBelow, BodyOf, EvmNum;
    var g := Grow(e, Last(s.evm), b).value;
    GrownShape(e, Last(s.evm), b);
    assert s1.evm[0].header.number == s.evm[0].header.number by {
      if |s.evm| == 1 { assert s1.evm[0] == g[0]; } else { assert s1.evm[0] == s.evm[0]; }
    }
    assert r.evm[0] == s1.evm[|s1.evm| - |r.evm|];
    if s.lib.Some? {
      OpenAboveLib(e, s, start, chain, seen);
      GrownAgrees(s.evm, g, r.evm, s.lib.value);
      forall p | |s.published| <= p < |r.published|
        ensures s.lib.value < r.published[p].header.number
      {
        assert r.published[p] == Init(g)[p - |s.published|] == g[p - |s.published|];
      }
    }
  }

  lemma TracksPublished(e: Env, s: State, r: State, start: Block, chain: seq<NativeBlock>)
    requires Tracks(e, r, start, chain) && s.native == r.native && s.evm == r.evm
    ensures Tracks(e, s, start, chain)
  {
  }

  lemma {:induction false} GrownFinal(
    e: Env, s: State, s1: State, start: Block, chain: seq<NativeBlock>, seen: nat, b: NativeBlock)
    requires Tracks(e, s, start, chain) && Final(e, s, chain, seen)
    requires s1.native == s.native + [b] && s1.lib == s.lib
    requires seen <= b.lib && (|chain| == 1 ==> b.blockNum <= b.lib)
    ensures Final(e, s1, chain + [b], b.lib)
  {
    hide BodiesMatch, Consecutive, ChainOk;
    var longer := chain + [b];
    assert forall i :: 0 <= i < |chain| ==> longer[i] == chain[i];
    if s.lib.Some? {
      var i: nat :| LibFrom(e, s, chain, seen, i);
      assert LibFrom(e, s1, longer, b.lib, i);
    }
  }

  // ----- rolling back -----

  lemma {:induction false} RollbackFinal(e: Env, s: State, start: Block, chain: seq<NativeBlock>, seen: nat, j: nat)
    requires Tracks(e, s, start, chain) && Final(e, s, chain, seen)
    requires 0 < j < |chain| && |chain| - |s.native| <= j && seen <= chain[j].blockNum
    requires Rollback(e, s, chain[j]).Success?
    ensures Final(e, Rollback(e, s, chain[j]).value, chain[..j + 1], seen)
    ensures KeepsFinal(s, Rollback(e, s, chain[j]).value)
  {
    hide BodiesMatch, Rollback, ChainOk, AgreeBelow;
    var r, cut := Rollback(e, s, chain[j]).value, chain[..j + 1];
    RollbackTracks(e, s, start, chain, j);
    Output.RollbackCut(e, s, chain[j]);
    assert forall i :: 0 <= i < |cut| ==> cut[i] == chain[i];
    if s.lib.Some? {
      var i: nat :| LibFrom(e, s, chain, seen, i);
      if j < i { ChainMonotone(e, start, chain, j, i); }
      ChainMonotone(e, start, chain, i, j);
      assert LibFrom(e, r, cut, seen, i);
      OpenAboveLib(e, r, start, cut, seen);
      CutAgrees(r.evm, s.evm, s.lib.value);
    }
    CutFront(r.evm, s.evm);
  }

  lemma CutFront(r: seq<Block>, evm: seq<Block>)
    requires Output.CutOf(r, evm) && r != []
    ensures r[0].header.number == evm[0].header.number
  {
    if |r| == 1 {
      assert Last(r).header.(prevRandao := 0).number == evm[0].header.(prevRandao := 0).number;
    }
  }

  lemma CutAgrees(r: seq<Block>, evm: seq<Block>, h: nat)
    requires Output.CutOf(r, evm) && r != [] && Consecutive(r) && Consecutive(evm) && h < Last(r).header.number
    ensures AgreeBelow(evm, r, h)
  {
    CutFront(r, evm);
    forall i, j | 0 <= i < |evm| && 0 <= j < |r| && r[j].header.number == evm[i].header.number <= h
      ensures r[j] == evm[i]
    {
      assert Last(r) == r[|r| - 1];
      assert i == j && j < |r| - 1;
    }
  }

  /** Keeping final blocks composes, because what is final stays final. */
  lemma {:induction false} KeepsFinalTransitive(p: State, q: State, r: State)
    requires KeepsFinal(p, q) && KeepsFinal(q, r)
    requires Consecutive(q.evm) && (q.lib.Some? ==> q.lib.value < Last(q.evm).header.number)
    requires r.evm != [] && Consecutive(r.evm)
    ensures KeepsFinal(p, r)
  {
    if p.lib.Some? {
      forall i | |p.published| <= i < |r.published|
        ensures p.lib.value < r.published[i].header.number
      {
        if i < |q.published| { assert r.published[i] == q.published[i]; }
      }
      forall i, j |
        0 <= i < |p.evm| && 0 <= j < |r.evm| && r.evm[j].header.number == p.evm[i].header.number <= p.lib.value
        ensures r.evm[j] == p.evm[i]
      {
        var k := r.evm[j].header.number - q.evm[0].header.number;
        assert Last(q.evm) == q.evm[|q.evm| - 1];
        assert 0 <= k < |q.evm| && q.evm[k].header.number == r.evm[j].header.number;
      }
    }
  }

  // ----- steps and runs -----

  /** One block of an obedient source: the reported EVM number never falls, and no block at
      or below it is published again or changed. */
  lemma {:induction false} StepFinal(e: Env, s: State, start: Block, chain: seq<NativeBlock>, seen: nat, b: NativeBlock)
    requires Tracks(e, s, start, chain) && Final(e, s, chain, seen) && FromSource(e, chain, seen, b)
    requires Step(e, s, b).Success?
    ensures Final(e, Step(e, s, b).value, ChainStep(chain, b), b.lib)
    ensures KeepsFinal(s, Step(e, s, b).value)
  {
    hide Tracks, ChainOk, Accept, Rollback, Classify, Final, KeepsFinal, Step, ChainStep;
    TracksOk(e, s, start, chain);
    SourceAdmissible(e, s, start, chain, seen, b);
    SourceKnown(e, s, start, chain, seen, b);
    StepCases(e, s, start, chain, b);
    match Classify(chain, |chain| - |s.native|, b)
    case Links => AcceptFinal(e, s, start, chain, seen, b);
    case Duplicate =>
      RaiseSeen(e, s, chain, seen, b.lib);
      FinalStart(e, s, start, chain, seen);
    case Fork(j) => ForkFinal(e, s, start, chain, seen, b, j);
    case Unknown =>
  }

  lemma RaiseSeen(e: Env, s: State, chain: seq<NativeBlock>, seen: nat, more: nat)
    requires Final(e, s, chain, seen) && seen <= more
    ensures Final(e, s, chain, more)
  {
    if s.lib.Some? {
      var i: nat :| LibFrom(e, s, chain, seen, i);
      assert LibFrom(e, s, chain, more, i);
    }
  }

  lemma {:induction false} ForkFinal(
    e: Env, s: State, start: Block, chain: seq<NativeBlock>, seen: nat, b: NativeBlock, j: nat)
    requires Tracks(e, s, start, chain) && Final(e, s, chain, seen) && Admissible(e, chain, b)
    requires 0 < j < |chain| && |chain| - |s.native| <= j && chain[j].id == b.prev && Find(chain, b.id).None?
    requires seen <= chain[j].blockNum && seen <= b.lib
    requires Rollback(e, s, chain[j]).Success? && Accept(e, Rollback(e, s, chain[j]).value, b).Success?
    ensures var r := Accept(e, Rollback(e, s, chain[j]).value, b).value;
      Final(e, r, chain[..j + 1] + [b], b.lib) && KeepsFinal(s, r)
  {
    hide BodiesMatch, Accept, Rollback, KeepsFinal, Final;
    var s1, cut := Rollback(e, s, chain[j]).value, chain[..j + 1];
    RollbackTracks(e, s, start, chain, j);
    RollbackFinal(e, s, start, chain, seen, j);
    CutAdmissible(e, chain, b, j);
    AcceptFinal(e, s1, start, cut, seen, b);
    AcceptTracks(e, s1, start, cut, b);
    if s1.lib.Some? { OpenAboveLib(e, s1, start, cut, seen); }
    KeepsFinalTransitive(s, s1, Accept(e, s1, b).value);
  }

  /** The same over a whole run. */
  lemma {:induction false} RunFinal(
    e: Env, s: State, start: Block, chain: seq<NativeBlock>, seen: nat, bs: seq<NativeBlock>)
    requires Tracks(e, s, start, chain) && Final(e, s, chain, seen) && SourceRun(e, chain, seen, bs)
    requires Run(e, s, bs).Success?
    ensures var r := Run(e, s, bs).value;
      && Tracks(e, r, start, ChainRun(chain, bs))
      && Final(e, r, ChainRun(chain, bs), SeenAfter(seen, bs))
      && KeepsFinal(s, r)
    decreases |bs|
  {
    hide BodiesMatch, Step, ChainOk, FromSource, ChainStep;
    if bs == [] {
      FinalStart(e, s, start, chain, seen);
    } else {
      RunFinal(e, s, start, chain, seen, Init(bs));
      var q, c, t := Run(e, s, Init(bs)).value, ChainRun(chain, Init(bs)), SeenAfter(seen, Init(bs));
      SourceAdmissible(e, q, start, c, t, Last(bs));
      StepFinal(e, q, start, c, t, Last(bs));
      StepTracks(e, q, start, c, Last(bs));
      if q.lib.Some? { OpenAboveLib(e, q, start, c, t); }
      KeepsFinalTransitive(s, q, Step(e, q, Last(bs)).value);
    }
  }

  /** An accepted run from an obedient source is admissible. */
  lemma {:induction false} SourceRunAdmissible(
    e: Env, s: State, start: Block, chain: seq<NativeBlock>, seen: nat, bs: seq<NativeBlock>)
    requires Tracks(e, s, start, chain) && Final(e, s, chain, seen) && SourceRun(e, chain, seen, bs)
    requires Run(e, s, bs).Success?
    ensures AdmissibleRun(e, chain, bs)
    decreases |bs|
  {
    hide BodiesMatch, Step, ChainOk, FromSource, ChainStep, Admissible, Final;
    if bs != [] {
      SourceRunAdmissible(e, s, start, chain, seen, Init(bs));
      RunFinal(e, s, start, chain, seen, Init(bs));
      var c := ChainRun(chain, Init(bs));
      SourceAdmissible(e, Run(e, s, Init(bs)).value, start, c, SeenAfter(seen, Init(bs)), Last(bs));
    }
  }

  lemma {:induction false} FinalStart(e: Env, s: State, start: Block, chain: seq<NativeBlock>, seen: nat)
    requires Tracks(e, s, start, chain) && Final(e, s, chain, seen)
    ensures KeepsFinal(s, s)
  {
    hide BodiesMatch, ChainOk, AgreeBelow, Final, Consecutive;
    if s.lib.Some? {
      OpenAboveLib(e, s, start, chain, seen);
      AgreesItself(s.evm, s.lib.value);
    }
  }

  lemma AgreesItself(evm: seq<Block>, h: nat)
    requires Consecutive(evm)
    ensures AgreeBelow(evm, evm, h)
  {
    forall i, j | 0 <= i < |evm| && 0 <= j < |evm| && evm[j].header.number == evm[i].header.number <= h
      ensures evm[j] == evm[i]
    {
      assert evm[i].header.number == evm[0].header.number + i;
      assert evm[j].header.number == evm[0].header.number + j;
    }
  }

  // ----- progress -----

  /** Exceptions that blame the contents of a native block. */
  predicate ContentError(error: Error) {
    error in {ConfigMidBlock, BadAction, VersionTooLow, VersionTooHigh,
              WrongVariant, GasPricesDiffer, BaseFeeDiffers, DecodeFailed}
  }

  predicate ChainCanonical(e: Env, chain: seq<NativeBlock>) {
    forall i :: 0 < i < |chain| ==> AllCanonical(e, Actions(chain[i]))
  }

  lemma {:induction false} ApplyAllErrors(e: Env, x: Block, acts: seq<Action>)
    ensures ApplyAll(e, x, acts).Failure? ==> ContentError(ApplyAll(e, x, acts).error)
    decreases |acts|
  {
    if acts != [] {
      ApplyAllErrors(e, x, Init(acts));
    }
  }

  lemma {:induction false} AcceptErrors(e: Env, s: State, b: NativeBlock)
    requires s.evm != []
    ensures Accept(e, s, b).Failure? ==> ContentError(Accept(e, s, b).error)
  {
    var t := Tail(e, Last(s.evm), Num(e, b));
    if ApplyConfig(e, Last(t), b).Success? {
      ApplyAllErrors(e, ApplyConfig(e, Last(t), b).value, Actions(b));
    }
  }

  /** With an obedient source and canonical transactions, the fork path never raises an
      exception: only the contents of the received block can be at fault. */
  lemma {:induction false} StepProgress(
    e: Env, s: State, start: Block, chain: seq<NativeBlock>, seen: nat, b: NativeBlock)
    requires Tracks(e, s, start, chain) && Final(e, s, chain, seen) && FromSource(e, chain, seen, b)
    requires ChainCanonical(e, chain)
    ensures Step(e, s, b).Failure? ==> ContentError(Step(e, s, b).error)
  {
    hide BodiesMatch, Accept, Rollback, Classify, ContentError, AllCanonical;
    SourceAdmissible(e, s, start, chain, seen, b);
    SourceKnown(e, s, start, chain, seen, b);
    StepCases(e, s, start, chain, b);
    match Classify(chain, |chain| - |s.native|, b)
    case Links => AcceptErrors(e, s, b);
    case Duplicate =>
    case Fork(j) =>
      RollbackTracks(e, s, start, chain, j);
      assert DroppedCanonical(e, chain, j);
      AcceptErrors(e, Rollback(e, s, chain[j]).value, b);
    case Unknown =>
  }

  predicate RunCanonical(e: Env, bs: seq<NativeBlock>) {
    forall i :: 0 <= i < |bs| ==> AllCanonical(e, Actions(bs[i]))
  }

  lemma {:induction false} ChainRunCanonical(e: Env, chain: seq<NativeBlock>, bs: seq<NativeBlock>)
    requires chain != [] && ChainCanonical(e, chain) && RunCanonical(e, bs)
    ensures ChainCanonical(e, ChainRun(chain, bs))
    decreases |bs|
  {
    hide AllCanonical;
    if bs != [] {
      ChainRunCanonical(e, chain, Init(bs));
      assert AllCanonical(e, Actions(bs[|bs| - 1]));
    }
  }

  /** Whole-run progress: the only exceptions a run can end in are content errors. */
  lemma {:induction false} RunProgress(
    e: Env, s: State, start: Block, chain: seq<NativeBlock>, seen: nat, bs: seq<NativeBlock>)
    requires Tracks(e, s, start, chain) && Final(e, s, chain, seen) && SourceRun(e, chain, seen, bs)
    requires ChainCanonical(e, chain) && RunCanonical(e, bs)
    ensures Run(e, s, bs).Failure? ==> ContentError(Run(e, s, bs).error)
    decreases |bs|
  {
    hide BodiesMatch, Step, ChainOk, FromSource, ChainStep, ContentError, AllCanonical;
    if bs != [] {
      RunProgress(e, s, start, chain, seen, Init(bs));
      if Run(e, s, Init(bs)).Success? {
        RunFinal(e, s, start, chain, seen, Init(bs));
        ChainRunCanonical(e, chain, Init(bs));
        var c := ChainRun(chain, Init(bs));
        StepProgress(e, Run(e, s, Init(bs)).value, start, c, SeenAfter(seen, Init(bs)), Last(bs));
      }
    }
  }
}
