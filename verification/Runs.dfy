/** Every step, hence every run, keeps the converter's state equal to what the surviving
    native chain determines. */
module Runs {
  import opened Types
  import opened Seqs
  import opened Conversion
  import opened Grouping
  import opened RollbackProofs

  // ----- pruning -----

  lemma {:induction false} UpperBoundAt(native: seq<NativeBlock>, lib: nat)
    requires forall i, j :: 0 <= i < j < |native| ==> native[i].blockNum < native[j].blockNum
    ensures var n := UpperBound(native, lib);
      forall i :: 0 <= i < |native| ==> (i < n <==> native[i].blockNum <= lib)
  {
    if native != [] && native[0].blockNum <= lib {
      UpperBoundAt(native[1..], lib);
      var n := UpperBound(native[1..], lib);
      forall i | 0 <= i < |native|
        ensures i < n + 1 <==> native[i].blockNum <= lib
      {
        if 0 < i { assert native[i] == native[1..][i - 1]; }
      }
    }
  }

  lemma {:induction false} DropNativeBelowShape(e: Env, native: seq<NativeBlock>, h: nat, n: nat)
    requires n < |native| && h <= Num(e, native[n])
    ensures var r := DropNativeBelow(e, native, h);
      && |native| - n <= |r| && Suffix(r, native)
      && h <= Num(e, r[0])
      && forall i :: 0 <= i < |native| - |r| ==> Num(e, native[i]) < h
  {
    if Num(e, native[0]) < h {
      DropNativeBelowShape(e, native[1..], h, n - 1);
      var r := DropNativeBelow(e, native, h);
      assert Suffix(r, native[1..]);
      forall i | 0 <= i < |native| - |r|
        ensures Num(e, native[i]) < h
      {
        if 0 < i { assert native[i] == native[1..][i - 1]; }
      }
    }
  }

  lemma {:induction false} DropEvmBelowShape(evm: seq<Block>, h: nat)
    requires evm != [] && Consecutive(evm) && h <= Last(evm).header.number
    ensures DropEvmBelow(evm, h) == if evm[0].header.number < h then evm[h - evm[0].header.number..] else evm
  {
    if evm[0].header.number < h {
      assert |evm| > 1 && evm[1].header.number == evm[0].header.number + 1;
      assert forall i :: 0 <= i < |evm| - 1 ==> evm[1..][i] == evm[i + 1];
      assert Last(evm[1..]) == Last(evm);
      DropEvmBelowShape(evm[1..], h);
    }
  }

  /** Dropping from the front keeps the invariant as long as the EVM blocks still reach
      down to the first cached native block. */
  lemma {:induction false} SuffixTracks(e: Env, s: State, r: State, start: Block, chain: seq<NativeBlock>)
    requires Tracks(e, s, start, chain)
    requires r.native != [] && Suffix(r.native, s.native)
    requires r.evm != [] && Suffix(r.evm, s.evm)
    requires r.evm[0].header.number <= Num(e, r.native[0])
    ensures Tracks(e, r, start, chain)
  {
    var d := |s.evm| - |r.evm|;
    assert forall i :: 0 <= i < |r.evm| ==> r.evm[i] == s.evm[i + d];
    assert Last(r.evm) == Last(s.evm);
    assert r.native == chain[|chain| - |r.native|..];
  }

  /** Both lists pruned below the EVM block of cached native block `i`. */
  lemma {:induction false} PruneAt(e: Env, s: State, start: Block, chain: seq<NativeBlock>, i: nat, h: nat)
    requires Tracks(e, s, start, chain) && |chain| > 1
    requires i < |s.native| && h + 1 == Num(e, s.native[i])
    ensures var native, evm := DropNativeBelow(e, s.native, h), DropEvmBelow(s.evm, h);
      && |s.native| - |native| <= i && Suffix(native, s.native) && h <= Num(e, native[0])
      && evm != [] && Suffix(evm, s.evm) && evm[0].header.number <= Num(e, native[0])
      && h <= evm[0].header.number
  {
    hide LinkedAt, BodiesMatch, Expected, EvmNum, DropNativeBelow, DropEvmBelow;
    var off := |chain| - |s.native|;
    assert s.native[i] == chain[off + i];
    ChainMonotone(e, start, chain, off + i, |chain| - 1);
    DropNativeBelowShape(e, s.native, h, i);
    DropEvmBelowShape(s.evm, h);
    var native := DropNativeBelow(e, s.native, h);
    assert native[0] == chain[|chain| - |native|];
    ChainMonotone(e, start, chain, off, |chain| - |native|);
  }

  /** What pruning keeps, with `i` the last cached block at or below the reported number:
      block `i` and all that follows; the number below its EVM block is recorded and bounds
      what stays cached. */
  ghost predicate PrunedAt(e: Env, s: State, r: State, i: nat) {
    && i < |s.native| && r.native != [] && r.evm != []
    && |s.native| - |r.native| <= i
    && r.lib.Some? && r.lib.value + 1 == Num(e, s.native[i])
    && r.lib.value <= r.evm[0].header.number && r.lib.value <= Num(e, r.native[0])
  }

  lemma PruneIs(e: Env, s: State, lib: nat, i: nat, h: nat)
    requires i + 1 == UpperBound(s.native, lib) && InTime(e, s.native[i]) && h + 1 == Num(e, s.native[i])
    ensures Prune(e, s, lib) == PruneBelow(e, s, h)
  {
  }

  /** Pruning never empties a list and keeps the invariant. */
  lemma {:induction false} PruneTracks(e: Env, s: State, start: Block, chain: seq<NativeBlock>, lib: nat)
    requires Tracks(e, s, start, chain) && |chain| > 1
    ensures var r, n := Prune(e, s, lib), UpperBound(s.native, lib);
      && Tracks(e, r, start, chain)
      && Suffix(r.native, s.native) && Suffix(r.evm, s.evm)
      && r.published == s.published
      && (if n == 0 then r == s else PrunedAt(e, s, r, n - 1))
  {
    hide BodiesMatch, Consecutive, ChainOk, PruneBelow, PrunedAt, EvmNum;
    if UpperBound(s.native, lib) > 0 {
      var i := UpperBound(s.native, lib) - 1;
      InTimeCached(e, s, start, chain, i);
      var h := Num(e, s.native[i]) - 1;
      PruneIs(e, s, lib, i, h);
      PruneBelowTracks(e, s, start, chain, i, h);
    }
  }

  lemma {:induction false} PruneBelowTracks(e: Env, s: State, start: Block, chain: seq<NativeBlock>, i: nat, h: nat)
    requires Tracks(e, s, start, chain) && |chain| > 1
    requires i < |s.native| && h + 1 == Num(e, s.native[i])
    ensures var r := PruneBelow(e, s, h);
      && Tracks(e, r, start, chain)
      && Suffix(r.native, s.native) && Suffix(r.evm, s.evm)
      && r.published == s.published && PrunedAt(e, s, r, i)
  {
    hide BodiesMatch, Consecutive, ChainOk, DropNativeBelow, DropEvmBelow, EvmNum;
    PruneAt(e, s, start, chain, i, h);
    SuffixTracks(e, s, PruneBelow(e, s, h), start, chain);
  }

  lemma InTimeCached(e: Env, s: State, start: Block, chain: seq<NativeBlock>, i: nat)
    requires Tracks(e, s, start, chain) && i < |s.native|
    ensures InTime(e, s.native[i])
  {
    assert s.native[i] == chain[|chain| - |s.native| + i];
    assert LinkedAt(e, chain, |chain| - |s.native| + i);
  }

  // ----- accepting a block that links -----

  /** The EVM blocks that replace the open block `x` when `b` arrives. */
  lemma {:induction false} GrownShape(e: Env, x: Block, b: NativeBlock)
    requires Grow(e, x, b).Success?
    ensures var g, k := Grow(e, x, b).value, Num(e, b);
      && |g| == 1 + (if x.header.number < k then k - x.header.number else 0)
      && Decodable(e, Actions(b))
      && (forall i :: 0 <= i < |g| ==> g[i].header.number == x.header.number + i)
      && (forall i :: 0 <= i < |g| - 1 ==> BodyOf(g[i]) == if i == 0 then BodyOf(x) else EmptyBody(x.header.number + i))
      && BodyOf(Last(g)) == Body(Last(g).header.number,
                                 (if |g| == 1 then x.transactions else []) + TxsOf(e, Actions(b)),
                                 b.id, b.blockNum <= b.lib)
  {
    hide Append, Tail, Actions, TxsOf, Decodable;
    var tail := Tail(e, x, Num(e, b));
    TailShape(e, x, Num(e, b));
    AppendBody(e, Last(tail), b);
    assert BodyOf(Last(tail)).transactions == if |tail| == 1 then x.transactions else [];
    assert forall i :: 0 <= i < |tail| - 1 ==> Grow(e, x, b).value[i] == tail[i];
  }

  lemma ChainExtend(e: Env, start: Block, chain: seq<NativeBlock>, b: NativeBlock)
    requires ChainOk(e, start, chain) && Admissible(e, chain, b) && Last(chain).id == b.prev
    requires Decodable(e, Actions(b))
    ensures ChainOk(e, start, chain + [b]) && Num(e, Last(chain)) <= Num(e, b)
  {
    hide EvmNum, Actions, Decodable;
    var longer := chain + [b];
    assert Follows(chain[|chain| - 1], b);
    EvmNumMonotone(e, Last(chain).timestamp, b.timestamp);
    forall i | 0 <= i < |longer|
      ensures LinkedAt(e, longer, i)
    {
      if i < |chain| { assert LinkedAt(e, chain, i); }
    }
  }

  lemma {:induction false} GrownBodyAt(e: Env, s: State, start: Block, chain: seq<NativeBlock>, b: NativeBlock, i: nat)
    requires Tracks(e, s, start, chain) && Grow(e, Last(s.evm), b).Success?
    requires Top(e, start, chain) <= Num(e, b)
    requires i < |Init(s.evm) + Grow(e, Last(s.evm), b).value|
    ensures var y := (Init(s.evm) + Grow(e, Last(s.evm), b).value)[i];
      && y.header.number == s.evm[0].header.number + i
      && BodyOf(y) == Expected(e, start, chain + [b], y.header.number)
  {
    hide Grow, LinkedAt, EvmNum, Decodable, Actions, TxsOf;
    var x, longer, g, m := Last(s.evm), chain + [b], Grow(e, Last(s.evm), b).value, |s.evm| - 1;
    var y := (Init(s.evm) + g)[i];
    GrownShape(e, x, b);
    assert Init(longer) == chain && Last(longer) == b;
    assert x == s.evm[m];
    if i < m {
      assert y == s.evm[i];
    } else {
      assert y == g[i - m];
      if m < i { ExpectedAboveTop(e, start, chain, y.header.number); }
    }
  }

  lemma {:induction false} GrownBodies(e: Env, s: State, start: Block, chain: seq<NativeBlock>, b: NativeBlock)
    requires Tracks(e, s, start, chain) && Grow(e, Last(s.evm), b).Success?
    requires Top(e, start, chain) <= Num(e, b)
    ensures var evm := Init(s.evm) + Grow(e, Last(s.evm), b).value;
      Consecutive(evm) && BodiesMatch(e, evm, start, chain + [b])
  {
    hide Grow, ChainOk, Expected, BodyOf, Top, EvmNum;
    var evm := Init(s.evm) + Grow(e, Last(s.evm), b).value;
    forall i | 0 <= i < |evm|
      ensures evm[i].header.number == s.evm[0].header.number + i
      ensures BodyOf(evm[i]) == Expected(e, start, chain + [b], evm[i].header.number)
    {
      GrownBodyAt(e, s, start, chain, b, i);
    }
  }

  lemma {:induction false} GrowTracks(e: Env, s: State, start: Block, chain: seq<NativeBlock>, b: NativeBlock)
    requires Tracks(e, s, start, chain)
    requires Admissible(e, chain, b) && Last(chain).id == b.prev
    requires Grow(e, Last(s.evm), b).Success?
    ensures var grown := Grow(e, Last(s.evm), b).value;
      Tracks(e, s.(native := s.native + [b], evm := Init(s.evm) + grown), start, chain + [b])
  {
    hide Grow, LinkedAt, BodiesMatch, Expected, Admissible, EvmNum, Decodable;
    GrownShape(e, Last(s.evm), b);
    ChainExtend(e, start, chain, b);
    TopBound(e, start, chain);
    GrownBodies(e, s, start, chain, b);
    var evm := Init(s.evm) + Grow(e, Last(s.evm), b).value;
    assert evm[0].header.number == s.evm[0].header.number;
    assert s.native + [b] == (chain + [b])[|chain| - |s.native|..];
  }

  /** Enqueuing a block that links keeps the invariant for the longer chain. */
  lemma {:induction false} AcceptTracks(e: Env, s: State, start: Block, chain: seq<NativeBlock>, b: NativeBlock)
    requires Tracks(e, s, start, chain)
    requires Admissible(e, chain, b) && Last(chain).id == b.prev
    requires Accept(e, s, b).Success?
    ensures Tracks(e, Accept(e, s, b).value, start, chain + [b])
  {
    hide Grow, Prune, ChainOk, BodiesMatch, Consecutive, Admissible;
    GrowTracks(e, s, start, chain, b);
    var grown := Grow(e, Last(s.evm), b).value;
    var s1 := State(s.native + [b], Init(s.evm) + grown, s.lib, s.published + Init(grown));
    assert Tracks(e, s1, start, chain + [b]);
    PruneTracks(e, s1, start, chain + [b], b.lib);
  }

  // ----- the step -----

  /** The cache is the end of the chain. */
  lemma CacheFacts(e: Env, s: State, start: Block, chain: seq<NativeBlock>)
    requires Tracks(e, s, start, chain)
    ensures chain != [] && s.native != [] && |s.native| <= |chain| && Last(s.native) == Last(chain)
  {
    hide ChainOk, BodiesMatch, Consecutive;
  }

  lemma CachedAt(e: Env, s: State, start: Block, chain: seq<NativeBlock>, i: nat)
    requires Tracks(e, s, start, chain) && i < |s.native|
    ensures |s.native| <= |chain| && s.native[i] == chain[|chain| - |s.native| + i]
  {
    hide ChainOk, BodiesMatch, Consecutive;
  }

  /** What the handler finds in its cache is what the chain holds. */
  lemma {:induction false} FindInCache(e: Env, s: State, start: Block, chain: seq<NativeBlock>, id: Hash)
    requires Tracks(e, s, start, chain)
    ensures var off, r := |chain| - |s.native|, Find(s.native, id);
      && (r.Some? ==> Find(chain, id) == Some(off + r.value))
      && (r.None? ==> Find(chain, id).None? || Find(chain, id).value < off)
  {
    hide Tracks, Find, ChainOk;
    TracksOk(e, s, start, chain);
    var off, r, q := |chain| - |s.native|, Find(s.native, id), Find(chain, id);
    if r.Some? {
      CachedAt(e, s, start, chain, r.value);
      assert chain[off + r.value].id == id;
      ChainIdsDistinct(e, start, chain, q.value, off + r.value);
    } else if q.Some? && off <= q.value {
      CachedAt(e, s, start, chain, q.value - off);
      assert false;
    }
  }

  /** How a received block relates to the surviving chain, of which the first `off` blocks
      are no longer cached. */
  datatype Arrival = Links | Duplicate | Fork(at: nat) | Unknown

  function Classify(chain: seq<NativeBlock>, off: nat, b: NativeBlock): Arrival
    requires chain != []
  {
    var dup, at := Find(chain, b.id), Find(chain, b.prev);
    if Last(chain).id == b.prev then Links
    else if dup.Some? && off <= dup.value then Duplicate
    else if at.Some? && off <= at.value then Fork(at.value)
    else Unknown
  }

  function StepAs(e: Env, s: State, chain: seq<NativeBlock>, b: NativeBlock, how: Arrival): Result<State>
    requires how.Fork? ==> how.at < |chain|
  {
    match how
    case Links => Accept(e, s, b)
    case Duplicate => Success(s)
    case Fork(j) =>
      var s1 :- Rollback(e, s, chain[j]);
      Accept(e, s1, b)
    case Unknown => Failure(NoForkBlock)
  }

  /** A block that follows a cached one and is not itself in the cache is nowhere in the
      chain, and what it follows is not the start block. */
  lemma {:induction false} ForkPoint(e: Env, start: Block, chain: seq<NativeBlock>, b: NativeBlock, off: nat)
    requires ChainOk(e, start, chain) && Admissible(e, chain, b)
    requires Classify(chain, off, b).Fork?
    ensures var j := Classify(chain, off, b).at;
      && 0 < j < |chain| && off <= j && chain[j].id == b.prev
      && Find(chain, b.id).None?
  {
    var dup, j := Find(chain, b.id), Classify(chain, off, b).at;
    assert Follows(chain[j], b);
    assert LinkedAt(e, chain, j);
    if dup.Some? {
      assert LinkedAt(e, chain, dup.value);
      ChainMonotone(e, start, chain, 0, j);
      ChainMonotone(e, start, chain, 0, dup.value);
    }
  }

  /** The handler, which sees only its cache, treats a block by its place in the whole
      surviving chain. */
  lemma {:induction false} StepIs(e: Env, s: State, start: Block, chain: seq<NativeBlock>, b: NativeBlock)
    requires Tracks(e, s, start, chain)
    ensures var how := Classify(chain, |chain| - |s.native|, b);
      (how.Fork? ==> how.at < |chain|) && Step(e, s, b) == StepAs(e, s, chain, b, how)
  {
    hide Find, Accept, Rollback, Tracks;
    CacheFacts(e, s, start, chain);
    FindInCache(e, s, start, chain, b.id);
    FindInCache(e, s, start, chain, b.prev);
    var at := Find(s.native, b.prev);
    if at.Some? {
      CachedAt(e, s, start, chain, at.value);
    }
  }

  /** The surviving chain changes by the same case analysis. */
  lemma {:induction false} ChainCases(e: Env, start: Block, chain: seq<NativeBlock>, off: nat, b: NativeBlock)
    requires ChainOk(e, start, chain) && Admissible(e, chain, b)
    ensures var how := Classify(chain, off, b);
      && (how.Fork? ==> 0 < how.at < |chain| && off <= how.at && chain[how.at].id == b.prev && Find(chain, b.id).None?)
      && (how.Links? ==> Last(chain).id == b.prev && ChainStep(chain, b) == chain + [b])
      && (how.Duplicate? ==> ChainStep(chain, b) == chain)
      && (how.Fork? ==> ChainStep(chain, b) == chain[..how.at + 1] + [b])
  {
    hide LinkedAt, Find, Admissible;
    if Classify(chain, off, b).Fork? {
      ForkPoint(e, start, chain, b, off);
    }
  }

  /** Both the state and the surviving chain change by the same case analysis; a fork point
      is cached and is never the start block. */
  lemma {:induction false} StepCases(e: Env, s: State, start: Block, chain: seq<NativeBlock>, b: NativeBlock)
    requires Tracks(e, s, start, chain) && Admissible(e, chain, b)
    ensures chain != [] && |s.native| <= |chain|
    ensures var off := |chain| - |s.native|; var how := Classify(chain, off, b);
      && (how.Fork? ==> 0 < how.at < |chain| && off <= how.at && chain[how.at].id == b.prev && Find(chain, b.id).None?)
      && Step(e, s, b) == StepAs(e, s, chain, b, how)
      && (how.Links? ==> Last(chain).id == b.prev && ChainStep(chain, b) == chain + [b])
      && (how.Duplicate? ==> ChainStep(chain, b) == chain)
      && (how.Fork? ==> ChainStep(chain, b) == chain[..how.at + 1] + [b])
  {
    hide Tracks, ChainOk, Step, StepAs, Classify, ChainStep, Admissible, Find;
    TracksOk(e, s, start, chain);
    StepIs(e, s, start, chain, b);
    ChainCases(e, start, chain, |chain| - |s.native|, b);
  }

  /** A block that forks from `chain[j]` is admissible after the cut. */
  lemma CutAdmissible(e: Env, chain: seq<NativeBlock>, b: NativeBlock, j: nat)
    requires Admissible(e, chain, b) && 0 < j < |chain| && chain[j].id == b.prev
    requires Find(chain, b.id).None?
    ensures Admissible(e, chain[..j + 1], b) && Last(chain[..j + 1]).id == b.prev
  {
    var cut := chain[..j + 1];
    assert forall i :: 0 <= i < |cut| ==> cut[i] == chain[i];
  }

  /** A fork keeps the invariant. */
  lemma {:induction false} ForkTracks(e: Env, s: State, start: Block, chain: seq<NativeBlock>, b: NativeBlock, j: nat)
    requires Tracks(e, s, start, chain) && Admissible(e, chain, b)
    requires 0 < j < |chain| && |chain| - |s.native| <= j && chain[j].id == b.prev && Find(chain, b.id).None?
    requires Rollback(e, s, chain[j]).Success? && Accept(e, Rollback(e, s, chain[j]).value, b).Success?
    ensures Tracks(e, Accept(e, Rollback(e, s, chain[j]).value, b).value, start, chain[..j + 1] + [b])
  {
    hide Accept, Rollback, Tracks, Admissible;
    RollbackTracks(e, s, start, chain, j);
    CutAdmissible(e, chain, b, j);
    AcceptTracks(e, Rollback(e, s, chain[j]).value, start, chain[..j + 1], b);
  }

  /** One step keeps the invariant, for the chain the received block leaves. */
  lemma {:induction false} StepTracks(e: Env, s: State, start: Block, chain: seq<NativeBlock>, b: NativeBlock)
    requires Tracks(e, s, start, chain) && Admissible(e, chain, b)
    requires Step(e, s, b).Success?
    ensures Tracks(e, Step(e, s, b).value, start, ChainStep(chain, b))
  {
    hide Accept, Rollback, Classify, Tracks, Admissible, Step, ChainStep;
    StepCases(e, s, start, chain, b);
    match Classify(chain, |chain| - |s.native|, b)
    case Links => AcceptTracks(e, s, start, chain, b);
    case Duplicate =>
    case Fork(j) => ForkTracks(e, s, start, chain, b, j);
    case Unknown =>
  }

  lemma {:induction false} RunTracks(e: Env, s: State, start: Block, chain: seq<NativeBlock>, bs: seq<NativeBlock>)
    requires Tracks(e, s, start, chain) && AdmissibleRun(e, chain, bs)
    requires Run(e, s, bs).Success?
    ensures Tracks(e, Run(e, s, bs).value, start, ChainRun(chain, bs))
    decreases |bs|
  {
    if bs != [] {
      RunTracks(e, s, start, chain, Init(bs));
      StepTracks(e, Run(e, s, Init(bs)).value, start, ChainRun(chain, Init(bs)), Last(bs));
    }
  }

  /** Two accepted runs that end in the same native chain hold the same EVM blocks, as far
      as numbers, transactions, `prev_randao` and `irreversible` go, and their open blocks
      have the same number. */
  lemma {:induction false} HistoryIndependence(
    e: Env, s: State, start: Block, chain: seq<NativeBlock>, bs: seq<NativeBlock>, cs: seq<NativeBlock>)
    requires Tracks(e, s, start, chain)
    requires AdmissibleRun(e, chain, bs) && AdmissibleRun(e, chain, cs)
    requires Run(e, s, bs).Success? && Run(e, s, cs).Success?
    requires ChainRun(chain, bs) == ChainRun(chain, cs)
    ensures var p, q := Run(e, s, bs).value.evm, Run(e, s, cs).value.evm;
      && p != [] && q != [] && Last(p).header.number == Last(q).header.number
      && forall i, j :: 0 <= i < |p| && 0 <= j < |q| && p[i].header.number == q[j].header.number ==>
           BodyOf(p[i]) == BodyOf(q[j])
  {
    RunTracks(e, s, start, chain, bs);
    RunTracks(e, s, start, chain, cs);
  }
}
