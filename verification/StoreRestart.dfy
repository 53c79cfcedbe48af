/** The whole restart: the store filled from what was published, the block the engine chooses in
    it, the native blocks the receiver then asks for, and the converter that is fed them. */
module StoreRestart {
  import opened Types
  import opened Seqs
  import opened Conversion
  import opened Grouping
  import opened RollbackProofs
  import opened Runs
  import opened Uniformity
  import opened Headers
  import opened FoldRuns
  import opened PublishedFolds
  import opened Output
  import opened Restart
  import Converters
  import Engine
  import Finality
  import Reconnect

  // ----- feeding a chain block by block -----

  lemma UninterruptedNonempty(e: Env, start: Block, chain: seq<NativeBlock>)
    requires Uninterrupted(e, start, chain)
    ensures chain != [] && Fold(e, start, chain).Success?
  {
  }

  lemma StraightNext(e: Env, start: Block, chain: seq<NativeBlock>, n: nat)
    requires ChainOk(e, start, chain) && 0 < n < |chain|
    ensures Admissible(e, chain[..n], chain[n]) && Last(chain[..n]).id == chain[n].prev
    ensures ChainStep(chain[..n], chain[n]) == chain[..n + 1]
  {
    hide ChainOk, Admissible, Find;
    ChainPrefix(e, start, chain, n + 1);
    assert Init(chain[..n + 1]) == chain[..n] && Last(chain[..n + 1]) == chain[n];
    ChainAdmissible(e, start, chain[..n + 1]);
    assert chain[..n] + [chain[n]] == chain[..n + 1];
  }

  /** A chain fed in order is admissible, forks nowhere, and survives as it was fed. */
  lemma {:induction false} StraightFeed(e: Env, start: Block, chain: seq<NativeBlock>, n: nat)
    requires ChainOk(e, start, chain) && n < |chain|
    ensures AdmissibleRun(e, [chain[0]], chain[1..n + 1]) && ChainRun([chain[0]], chain[1..n + 1]) == chain[..n + 1]
    decreases n
  {
    hide ChainOk, Admissible, Find;
    var fed, head := chain[1..n + 1], [chain[0]];
    if n == 0 {
      assert fed == [] && chain[..1] == head;
    } else {
      StraightFeed(e, start, chain, n - 1);
      StraightNext(e, start, chain, n);
      assert Init(fed) == chain[1..n] && Last(fed) == chain[n];
    }
  }

  /** Such a run is benign from whatever state it starts. */
  lemma {:induction false} StraightBenign(e: Env, s: State, start: Block, chain: seq<NativeBlock>, n: nat)
    requires ChainOk(e, start, chain) && n < |chain| && Tracks(e, s, start, [chain[0]])
    ensures BenignRun(e, s, start, [chain[0]], chain[1..n + 1])
    decreases n
  {
    hide Tracks, AdmissibleRun, Benign, Run, ChainOk, ChainRun;
    var fed, head := chain[1..n + 1], [chain[0]];
    if n > 0 {
      StraightBenign(e, s, start, chain, n - 1);
      StraightFeed(e, start, chain, n - 1);
      StraightNext(e, start, chain, n);
      assert Init(fed) == chain[1..n] && Last(fed) == chain[n];
      if Run(e, s, Init(fed)).Success? {
        RunTracks(e, s, start, head, Init(fed));
        TracksCached(e, Run(e, s, Init(fed)).value, start, chain[..n]);
        LinksBenign(e, Run(e, s, Init(fed)).value, start, chain[..n], chain[n]);
      }
    }
  }

  lemma LinksBenign(e: Env, s: State, start: Block, chain: seq<NativeBlock>, b: NativeBlock)
    requires chain != [] && |s.native| <= |chain| && Last(chain).id == b.prev
    ensures Benign(e, s, start, chain, b)
  {
  }

  lemma TracksCached(e: Env, s: State, start: Block, chain: seq<NativeBlock>)
    requires Tracks(e, s, start, chain)
    ensures |s.native| <= |chain|
  {
  }

  /** The fold of a prefix succeeds if that of the chain does. */
  lemma {:induction false} FoldsPrefix(e: Env, start: Block, chain: seq<NativeBlock>, n: nat)
    requires ChainOk(e, start, chain) && n < |chain| && Fold(e, start, chain[..n + 1]).Success?
    ensures FoldsThroughout(e, start, [chain[0]], chain[1..n + 1])
    decreases n
  {
    hide Grow, ChainOk;
    StraightFeed(e, start, chain, n);
    if n > 0 {
      assert Init(chain[..n + 1]) == chain[..n] && Init(chain[1..n + 1]) == chain[1..n];
      FoldsPrefix(e, start, chain, n - 1);
    }
  }

  /** A converter started at `base` and fed a chain in order accepts it whenever the fold
      does, and holds and has published the fold's blocks. */
  lemma {:induction false} FedConverter(e: Env, base: Block, chain: seq<NativeBlock>)
    requires ChainOk(e, base, chain) && chain[0] == Converters.HeadBlock(e, base)
    requires base.header.number < Num(e, chain[0]) && Fold(e, base, chain).Success?
    ensures var r := Run(e, Converters.HeadState(e, base), chain[1..]);
      && r.Success? && EndOf(r.value.evm, Fold(e, base, chain).value)
      && PublishedFold(e, r.value.published, base, chain)
  {
    hide Run, AdmissibleRun, BenignRun, EndOf, Fold, Tracks, Uniform, Output.Integrity, PublishedFold, FoldsThroughout;
    var s, head, n := Converters.HeadState(e, base), [chain[0]], |chain| - 1;
    assert chain[1..n + 1] == chain[1..] && chain[..n + 1] == chain;
    assert InTime(e, chain[0]) by { assert LinkedAt(e, chain, 0); }
    Converters.HeadInvariants(e, base);
    HeadRefines(e, base);
    StraightFeed(e, base, chain, n);
    StraightBenign(e, s, base, chain, n);
    FoldsPrefix(e, base, chain, n);
    RunRefines(e, s, base, head, chain[1..]);
    StartPublished(e, base, chain[0]);
    PublishedIsFold(e, s, base, head, chain[1..]);
  }

  lemma HeadRefines(e: Env, base: Block)
    ensures Refines(e, Converters.HeadState(e, base), base, [Converters.HeadBlock(e, base)])
  {
  }

  lemma EndOfAlike(r: seq<Block>, p: seq<Block>, f: seq<Block>)
    requires EndOf(r, p) && EndAlike(p, f)
    ensures EndAlike(r, f)
  {
    forall i | 0 <= i < |r| - 1
      ensures SameButFlag(r[i], f[|f| - |r| + i])
    {
      assert r[i] == Init(r)[i] == Init(p)[|p| - |r| + i] == p[|p| - |r| + i];
      assert SameButFlag(p[|p| - |r| + i], f[|f| - |p| + (|p| - |r| + i)]);
    }
    assert Last(r) == Dress(Last(p), Last(r).header.txRoot, Last(p).irreversible);
  }

  // ----- header times -----

  /** An EVM block's header timestamp is genesis plus its number. */
  predicate Timed(e: Env, x: Block) {
    x.header.timestamp == e.genesis + x.header.number
  }

  ghost predicate TimedHeaders(e: Env) {
    forall n: nat :: e.blockTime(n) == e.genesis + n
  }

  predicate AllTimed(e: Env, f: seq<Block>) {
    forall i :: 0 <= i < |f| ==> Timed(e, f[i])
  }

  lemma {:induction false} TailTimed(e: Env, x: Block, k: nat)
    requires TimedHeaders(e) && Timed(e, x)
    ensures AllTimed(e, Tail(e, x, k))
    decreases if x.header.number < k then k - x.header.number else 0
  {
    if x.header.number < k {
      var y := Fresh(e, Close(e, x));
      TailTimed(e, y, k);
      assert Tail(e, x, k) == [Close(e, x)] + Tail(e, y, k);
    }
  }

  lemma {:induction false} GrowTimed(e: Env, x: Block, b: NativeBlock)
    requires TimedHeaders(e) && Timed(e, x) && Grow(e, x, b).Success?
    ensures AllTimed(e, Grow(e, x, b).value)
  {
    hide Tail, ApplyAll, Actions, TimedHeaders;
    var t, g := Tail(e, x, Num(e, b)), Grow(e, x, b).value;
    TailTimed(e, x, Num(e, b));
    var y := ApplyConfig(e, Last(t), b).value;
    ApplyAllFixed(e, y, Actions(b));
    assert FrameOf(Last(g)) == FrameOf(Last(t));
    assert t[|t| - 1] == Last(t);
    forall i | 0 <= i < |g|
      ensures Timed(e, g[i])
    {
      if i < |g| - 1 { assert g[i] == t[i]; } else { assert g[i] == Last(g); }
    }
  }

  lemma {:induction false} FoldTimed(e: Env, start: Block, chain: seq<NativeBlock>)
    requires TimedHeaders(e) && Timed(e, start) && chain != [] && Fold(e, start, chain).Success?
    ensures AllTimed(e, Fold(e, start, chain).value)
    decreases |chain|
  {
    hide Grow, TimedHeaders;
    if |chain| > 1 {
      FoldTimed(e, start, Init(chain));
      var f := Fold(e, start, Init(chain)).value;
      assert Last(f) == f[|f| - 1];
      GrowTimed(e, Last(f), Last(chain));
    }
  }

  /** The head block of a timed start block falls into the next EVM block. */
  lemma HeadNum(e: Env, base: Block)
    requires Timed(e, base)
    ensures Num(e, Converters.HeadBlock(e, base)) == base.header.number + 1
  {
    assert base.header.timestamp * MICROS / MICROS == base.header.timestamp;
  }

  /** A native block of a later EVM block is not older than the head block. */
  lemma HeadBefore(e: Env, base: Block, b: NativeBlock)
    requires Timed(e, base) && base.header.number < Num(e, b)
    ensures Converters.HeadBlock(e, base).timestamp <= b.timestamp
  {
    var s := b.timestamp / MICROS;
    assert e.genesis + base.header.number <= s;
    assert s * MICROS <= b.timestamp;
  }

  // ----- the chain the restarted converter is fed -----

  /** The native blocks of `chain` numbered `from` and above. */
  function NumberedFrom(chain: seq<NativeBlock>, from: nat): seq<NativeBlock>
    requires chain != []
  {
    if from <= chain[0].blockNum then chain
    else if from - chain[0].blockNum <= |chain| then chain[from - chain[0].blockNum..]
    else []
  }

  lemma NumberedFromAt(e: Env, start: Block, chain: seq<NativeBlock>, n: nat)
    requires ChainOk(e, start, chain) && 0 < n < |chain|
    ensures NumberedFrom(chain, chain[n].blockNum) == chain[n..]
  {
    ChainMonotone(e, start, chain, 0, n);
  }

  /** Put after the head block of a stored block, what is sent again is a sound chain. */
  lemma {:induction false} AgainOk(
    e: Env, start: Block, chain: seq<NativeBlock>, n: nat, base: Block, feed: seq<NativeBlock>)
    requires ChainOk(e, start, chain) && 0 < n < |chain| && AllResent(feed, chain[n..])
    requires Timed(e, base) && base.header.prevRandao == chain[n - 1].id && base.header.number < Num(e, chain[n])
    ensures ChainOk(e, base, [Converters.HeadBlock(e, base)] + feed)
    ensures Num(e, Converters.HeadBlock(e, base)) == base.header.number + 1
  {
    hide EvmNum, Decodable, Flatten;
    var head := Converters.HeadBlock(e, base);
    var again := [head] + feed;
    HeadNum(e, base);
    HeadBefore(e, base, chain[n]);
    assert LinkedAt(e, chain, n - 1) && LinkedAt(e, chain, n);
    forall i | 0 <= i < |again|
      ensures LinkedAt(e, again, i)
    {
      if i > 0 {
        AgainAt(chain, n, feed, i - 1);
        assert again[i] == feed[i - 1] && LinkedAt(e, chain, n + i - 1);
        if i > 1 {
          AgainAt(chain, n, feed, i - 2);
          assert again[i - 1] == feed[i - 2];
        }
      }
    }
  }

  lemma AgainAt(chain: seq<NativeBlock>, n: nat, feed: seq<NativeBlock>, i: nat)
    requires n <= |chain| && AllResent(feed, chain[n..]) && i < |feed|
    ensures n + i < |chain| && feed[i] == chain[n + i].(lib := feed[i].lib)
  {
    assert Resent(feed[i], chain[n..][i]);
    assert feed[i].(lib := 0) == chain[n + i].(lib := 0);
    assert feed[i] == feed[i].(lib := 0).(lib := feed[i].lib);
  }

  // ----- the store -----

  /** The store holds closed block `k` of the uninterrupted run; the irreversibility flag is
      not stored. */
  ghost predicate Holds(e: Env, start: Block, chain: seq<NativeBlock>, d: Engine.Store, k: nat)
    requires chain != [] && Fold(e, start, chain).Success?
  {
    var f := Fold(e, start, chain).value;
    && k in d.blocks && start.header.number <= k < start.header.number + |f| - 1
    && SameButFlag(d.blocks[k], f[k - start.header.number])
  }

  /** What the engine finds in a store that holds the uninterrupted run's closed blocks: the
      highest of them with a native id, every block it skips being an empty gap block. */
  lemma {:induction false} EngineFindsRestart(
    e: Env, start: Block, chain: seq<NativeBlock>, d: Engine.Store, target: nat) returns (h: nat)
    requires Uninterrupted(e, start, chain) && start.header.number <= target
    requires forall k :: start.header.number <= k <= target ==> Holds(e, start, chain, d, k)
    ensures start.header.number <= h <= target && Engine.HasId(d, h)
    ensures Engine.Found(d, target) == Some(d.blocks[h])
    ensures forall k :: h < k <= target ==>
      k in d.blocks && d.blocks[k].transactions == [] && d.blocks[k].header.prevRandao == 0
    decreases target
  {
    hide Expected, ChainOk, Fold, Resent;
    UninterruptedNonempty(e, start, chain);
    assert Holds(e, start, chain, d, target);
    var x := Fold(e, start, chain).value[target - start.header.number];
    assert d.blocks[target] == x.(irreversible := d.blocks[target].irreversible);
    StoredBlock(e, start, chain, target, x);
    if Engine.HasId(d, target) {
      h := target;
    } else {
      FirstHasId(e, start, chain);
      h := EngineFindsRestart(e, start, chain, d, target - 1);
      assert BodyOf(x).transactions == [];
    }
  }

  /** The first block of the fold is the start block, which carries a native id. */
  lemma {:induction false} FirstHasId(e: Env, start: Block, chain: seq<NativeBlock>)
    requires Uninterrupted(e, start, chain)
    ensures Fold(e, start, chain).value[0].header.prevRandao != 0
  {
    FoldBody(e, start, chain, 0);
    ExpectedBelow(e, start, chain, 1, start.header.number) by {
      if |chain| > 1 { ChainMonotone(e, start, chain, 0, 1); }
    }
  }

  /** The number `GetCanonicalBlockAtHeight` searches from without an explicit height. */
  function StoredTarget(d: Engine.Store): nat
    requires d.lib.Some?
  {
    if d.headNum < d.lib.value then d.headNum else d.lib.value
  }

  /** The store after the published blocks up to `m` were executed: up to its head it keeps the
      last block of every number, and nothing that waits to be executed is numbered at or
      below the number the search starts from. */
  ghost predicate Keeps(d: Engine.Store, n: nat, out: seq<Block>, m: nat) {
    && Engine.ValidStore(d) && n <= d.headNum && d.lib.Some? && m <= |out|
    && (forall k :: n <= k <= d.headNum ==>
          && k in d.blocks && LastNumbered(out[..m], k).Some?
          && SameButFlag(d.blocks[k], LastNumbered(out[..m], k).value))
    && (forall p :: m <= p < |out| ==> StoredTarget(d) < out[p].header.number)
  }

  // ----- the uninterrupted run and its store -----

  /** An accepted run from a start block of an obedient source, whose forks are benign; header
      times are genesis plus number and no native id is zero. */
  ghost predicate GoodRun(e: Env, start: Block, bs: seq<NativeBlock>) {
    var head := Converters.HeadBlock(e, start);
    && TimedHeaders(e) && Timed(e, start) && InTime(e, head) && start.header.prevRandao != 0
    && (forall i :: 0 <= i < |bs| ==> bs[i].id != 0)
    && Finality.SourceRun(e, [head], 0, bs)
    && BenignRun(e, Converters.HeadState(e, start), start, [head], bs)
    && Run(e, Converters.HeadState(e, start), bs).Success?
  }

  /** The native chain it ends in. */
  function Surviving(e: Env, start: Block, bs: seq<NativeBlock>): (r: seq<NativeBlock>)
    ensures r != []
  {
    ChainRun([Converters.HeadBlock(e, start)], bs)
  }

  /** The state it ends in. */
  function After(e: Env, start: Block, bs: seq<NativeBlock>): State {
    var r := Run(e, Converters.HeadState(e, start), bs);
    if r.Success? then r.value else Converters.HeadState(e, start)
  }

  lemma {:induction false} RunMembers(chain: seq<NativeBlock>, bs: seq<NativeBlock>)
    requires chain != []
    ensures forall c :: c in ChainRun(chain, bs) ==> c in chain || c in bs
    decreases |bs|
  {
    hide ChainStep;
    if bs != [] {
      RunMembers(chain, Init(bs));
      StepMembers(ChainRun(chain, Init(bs)), Last(bs));
      assert bs == Init(bs) + [Last(bs)];
    }
  }

  lemma StepMembers(chain: seq<NativeBlock>, b: NativeBlock)
    requires chain != []
    ensures forall c :: c in ChainStep(chain, b) ==> c in chain || c == b
  {
  }

  lemma SurvivingIds(e: Env, start: Block, bs: seq<NativeBlock>)
    requires start.header.prevRandao != 0 && (forall i :: 0 <= i < |bs| ==> bs[i].id != 0)
    ensures var c := Surviving(e, start, bs); forall i :: 0 <= i < |c| ==> c[i].id != 0
  {
    hide ChainRun;
    var c, head := Surviving(e, start, bs), Converters.HeadBlock(e, start);
    RunMembers([head], bs);
    forall i | 0 <= i < |c|
      ensures c[i].id != 0
    {
      assert c[i] in c;
      if c[i] in bs {
        var k :| 0 <= k < |bs| && bs[k] == c[i];
      }
    }
  }

  /** Everything the theorems about runs say of the start block. */
  lemma {:induction false} GoodStart(e: Env, start: Block)
    requires Timed(e, start) && InTime(e, Converters.HeadBlock(e, start))
    ensures var s, head := Converters.HeadState(e, start), Converters.HeadBlock(e, start);
      && Tracks(e, s, start, [head]) && Refines(e, s, start, [head]) && PublishedFold(e, [], start, [head])
      && Num(e, head) == start.header.number + 1 && Finality.Final(e, s, [head], 0)
  {
    hide Tracks, Refines, PublishedFold, Uniform, Output.Integrity, InTime;
    HeadNum(e, start);
    Converters.HeadInvariants(e, start);
    HeadRefines(e, start);
    StartPublished(e, start, Converters.HeadBlock(e, start));
  }

  /** Such a run ends with the fold over its surviving chain, cached and published. */
  lemma {:induction false} GoodRunFolds(e: Env, start: Block, bs: seq<NativeBlock>)
    requires GoodRun(e, start, bs)
    ensures var c, r := Surviving(e, start, bs), After(e, start, bs);
      && Uninterrupted(e, start, c)
      && Tracks(e, r, start, c) && Refines(e, r, start, c) && PublishedFold(e, r.published, start, c)
  {
    hide Tracks, Refines, PublishedFold, Run, BenignRun, AdmissibleRun, InTime, TimedHeaders, ChainRun;
    hide Finality.Final, Finality.SourceRun, Num;
    var s, head := Converters.HeadState(e, start), Converters.HeadBlock(e, start);
    GoodStart(e, start);
    Finality.SourceRunAdmissible(e, s, start, [head], 0, bs);
    RunTracks(e, s, start, [head], bs);
    RunRefines(e, s, start, [head], bs);
    PublishedIsFold(e, s, start, [head], bs);
    SurvivingIds(e, start, bs);
    ChainRunStart([head], bs);
    TracksChain(e, After(e, start, bs), start, Surviving(e, start, bs));
  }

  lemma TracksChain(e: Env, s: State, start: Block, chain: seq<NativeBlock>)
    requires chain != [] && Tracks(e, s, start, chain) && Refines(e, s, start, chain)
    ensures ChainOk(e, start, chain) && Fold(e, start, chain).Success?
  {
  }

  /** The parts of a run are runs of the same kind. */
  lemma {:induction false} GoodPrefix(e: Env, start: Block, early: seq<NativeBlock>, late: seq<NativeBlock>)
    requires GoodRun(e, start, early + late)
    ensures GoodRun(e, start, early)
    decreases |late|
  {
    hide TimedHeaders, Timed, InTime, Step, Benign, Finality.FromSource;
    if late == [] {
      assert early + late == early;
    } else {
      assert Init(early + late) == early + Init(late);
      GoodPrefix(e, start, early, Init(late));
    }
  }

  lemma {:induction false} SourceRest(
    e: Env, chain: seq<NativeBlock>, seen: nat, early: seq<NativeBlock>, late: seq<NativeBlock>)
    requires chain != [] && Finality.SourceRun(e, chain, seen, early + late)
    ensures Finality.SourceRun(e, ChainRun(chain, early), Finality.SeenAfter(seen, early), late)
    decreases |late|
  {
    hide ChainStep, Finality.FromSource;
    if late != [] {
      assert Init(early + late) == early + Init(late) && Last(early + late) == Last(late);
      SourceRest(e, chain, seen, early, Init(late));
      ChainRunAppend(chain, early, Init(late));
    }
  }

  /** The two halves of a run, with what finality says of them. */
  lemma {:induction false} TwoHalves(e: Env, start: Block, early: seq<NativeBlock>, late: seq<NativeBlock>, k: nat)
    requires GoodRun(e, start, early + late)
    ensures GoodRun(e, start, early)
    ensures var r1, r2 := After(e, start, early), After(e, start, early + late);
      r1.lib.Some? && k <= r1.lib.value ==>
        && LastNumbered(r2.published, k) == LastNumbered(r1.published, k)
        && k < Top(e, start, Surviving(e, start, early + late))
  {
    hide Tracks, Run, BenignRun, AdmissibleRun, InTime, TimedHeaders, ChainRun, Num, LastNumbered;
    hide Finality.Final, Finality.SourceRun, Finality.AgreeBelow;
    var s, head := Converters.HeadState(e, start), Converters.HeadBlock(e, start);
    var seen, c := Finality.SeenAfter(0, early), Surviving(e, start, early);
    GoodPrefix(e, start, early, late);
    GoodStart(e, start);
    var r1, r2 := After(e, start, early), After(e, start, early + late);
    Finality.RunFinal(e, s, start, [head], 0, early);
    SourceRest(e, [head], 0, early, late);
    Reconnect.RunAppend(e, s, early, late);
    ChainRunAppend([head], early, late);
    if r1.lib.Some? && k <= r1.lib.value {
      FinalOutput(e, r1, start, c, seen, late, k);
      Finality.RunFinal(e, r1, start, c, seen, late);
      Finality.OpenAboveLib(e, r2, start, ChainRun(c, late), Finality.SeenAfter(seen, late));
      TracksTop(e, r2, start, ChainRun(c, late));
    }
  }

  lemma TracksTop(e: Env, s: State, start: Block, chain: seq<NativeBlock>)
    requires chain != [] && Tracks(e, s, start, chain)
    ensures s.evm != [] && Last(s.evm).header.number == Top(e, start, chain)
  {
  }

  /** A store filled during a run holds, at or below the number the search starts from, the
      closed blocks of the run as it goes on afterwards, whatever forks it then meets. */
  lemma {:induction false} StoreHolds(
    e: Env, start: Block, early: seq<NativeBlock>, late: seq<NativeBlock>, d: Engine.Store, m: nat, k: nat)
    requires GoodRun(e, start, early + late)
    requires Keeps(d, start.header.number, After(e, start, early).published, m)
    requires After(e, start, early).lib.Some? && d.lib.value <= After(e, start, early).lib.value
    requires start.header.number <= k <= StoredTarget(d)
    ensures var c := Surviving(e, start, early + late); Fold(e, start, c).Success? && Holds(e, start, c, d, k)
  {
    hide GoodRun, LastNumbered, Surviving, After, Uninterrupted, Fold, Tracks, Top;
    var c := Surviving(e, start, early + late);
    var r1, r2 := After(e, start, early), After(e, start, early + late);
    TwoHalves(e, start, early, late, k);
    GoodRunFolds(e, start, early + late);
    NumberedAbove(r1.published[..m], r1.published, k);
    UninterruptedTop(e, start, c);
  }

  lemma UninterruptedTop(e: Env, start: Block, chain: seq<NativeBlock>)
    requires Uninterrupted(e, start, chain)
    ensures chain != [] && Fold(e, start, chain).Success?
    ensures |Fold(e, start, chain).value| == Top(e, start, chain) - start.header.number + 1
  {
    FoldShape(e, start, chain);
  }

  // ----- the theorem -----

  /** The stored block the engine chooses, and what the receiver asks for then. */
  lemma {:induction false} ChosenBlock(
    e: Env, start: Block, chain: seq<NativeBlock>, d: Engine.Store) returns (h: nat, x: Block)
    requires Uninterrupted(e, start, chain) && d.lib.Some? && Engine.ValidStore(d)
    requires d.headNum in d.blocks && start.header.number <= StoredTarget(d)
    requires forall k :: start.header.number <= k <= StoredTarget(d) ==> Holds(e, start, chain, d, k)
    ensures start.header.number <= h <= StoredTarget(d) && ClosedBlock(e, start, chain, h, x)
    ensures var base := Engine.Chosen(d, None);
      && base.Some? && SameButFlag(base.value, x) && base.value.header.prevRandao == x.header.prevRandao != 0
      && Reconnect.Resume(e, Reconnect.Memory(0, 0), base) == Some(e.idNum(x.header.prevRandao) + 1)
  {
    hide ChainOk, Fold, Engine.Found;
    h := EngineFindsRestart(e, start, chain, d, StoredTarget(d));
    assert Engine.Target(d, None) == Some(StoredTarget(d));
    UninterruptedNonempty(e, start, chain);
    assert Holds(e, start, chain, d, h);
    x := Fold(e, start, chain).value[h - start.header.number];
    assert d.blocks[h] == x.(irreversible := d.blocks[h].irreversible);
  }

  /** Feeding the stored block with the chain above its native id. */
  lemma {:induction false} RestartFeed(
    e: Env, start: Block, chain: seq<NativeBlock>, h: nat, x: Block, base: Block, feed: seq<NativeBlock>)
    requires Uninterrupted(e, start, chain) && ClosedBlock(e, start, chain, h, x)
    requires AllTimed(e, Fold(e, start, chain).value)
    requires SameButFlag(base, x) && x.header.prevRandao != 0
    requires AllResent(feed, NumberedFrom(chain, e.idNum(x.header.prevRandao) + 1))
    ensures var r, f := Run(e, Converters.HeadState(e, base), feed), Fold(e, start, chain).value;
      && r.Success? && EndAlike(r.value.evm, f)
      && RepublishesFrom(r.value.published, h, f, start.header.number)
  {
    hide Fold, Run, EndAlike, EndOf, ChainOk, EvmNum, Resent, MatchesFrom, RepublishesFrom;
    var again, n := [Converters.HeadBlock(e, base)] + feed, NextNative(e, chain, h);
    StoredBlock(e, start, chain, h, x);
    assert base == x.(irreversible := base.irreversible);
    NumberedFromAt(e, start, chain, n);
    BlockNumber(e, start, chain, h, x);
    AgainOk(e, start, chain, n, base, feed);
    assert again[1..] == feed;
    RestartEquivalence(e, start, chain, h, x, base, again);
    FedConverter(e, base, again);
    var f, r := Fold(e, start, chain).value, Run(e, Converters.HeadState(e, base), feed).value;
    EndOfAlike(r.evm, Fold(e, base, again).value, f);
    Republishes(r.published, h, Fold(e, base, again).value, f, start.header.number);
  }

  lemma BlockNumber(e: Env, start: Block, chain: seq<NativeBlock>, h: nat, x: Block)
    requires Uninterrupted(e, start, chain) && ClosedBlock(e, start, chain, h, x)
    ensures x.header.number == h
  {
    FoldBody(e, start, chain, h - start.header.number);
  }

  /** From number `h` on, the latest published blocks are the closed ones of `f`, up to the flag. */
  ghost predicate RepublishesFrom(out: seq<Block>, h: nat, f: seq<Block>, n: nat) {
    forall k: nat :: n <= h <= k < n + |f| - 1 ==>
      LastNumbered(out, k).Some? && SameButFlag(LastNumbered(out, k).value, f[k - n])
  }

  lemma Republishes(out: seq<Block>, h: nat, p: seq<Block>, f: seq<Block>, n: nat)
    requires n <= h && |p| == |f| - (h - n) && EndAlike(p, f) && MatchesFrom(out, h, p)
    ensures RepublishesFrom(out, h, f, n)
  {
    hide LastNumbered, Alike;
    forall k: nat | h <= k < n + |f| - 1
      ensures LastNumbered(out, k).Some? && SameButFlag(LastNumbered(out, k).value, f[k - n])
    {
      assert LastNumbered(out, k) == Some(p[k - h]);
      assert SameButFlag(p[k - h], f[|f| - |p| + (k - h)]);
    }
  }

  /** The native block number the receiver asks for first after a restart. */
  function Requested(e: Env, d: Engine.Store): Option<nat> {
    Reconnect.Resume(e, Reconnect.Memory(0, 0), Engine.Chosen(d, None))
  }

  /** Restart from the store.  At some point of a run the node stops, with a store filled from
      what was published until then and a recorded irreversible number; the source goes on.
      Started from the block the engine chooses and fed what the receiver then asks for, the
      converter accepts every block and ends with the EVM blocks of the run that was never
      interrupted; it publishes all closed blocks from the chosen one on again. */
  lemma {:induction false} RestartFromStore(
    e: Env, start: Block, early: seq<NativeBlock>, late: seq<NativeBlock>,
    d: Engine.Store, m: nat, feed: seq<NativeBlock>)
    requires GoodRun(e, start, early + late)
    requires Keeps(d, start.header.number, After(e, start, early).published, m)
    requires After(e, start, early).lib.Some?
    requires start.header.number <= d.lib.value <= After(e, start, early).lib.value
    requires Requested(e, d).Some? ==>
      AllResent(feed, NumberedFrom(Surviving(e, start, early + late), Requested(e, d).value))
    ensures Requested(e, d).Some? && Engine.Chosen(d, None).Some?
    ensures var f := Fold(e, start, Surviving(e, start, early + late));
      && f.Success? && EndOf(After(e, start, early + late).evm, f.value)
      && RestartsAlike(e, start, Engine.Chosen(d, None).value, feed, f.value, StoredTarget(d))
  {
    hide GoodRun, Keeps, Surviving, After, Uninterrupted, Fold, Tracks, PublishedFold, EndOf, RestartsAlike;
    hide NumberedFrom, AllResent, Holds, Engine.Chosen, AllTimed;
    var c := Surviving(e, start, early + late);
    GoodRunFolds(e, start, early + late);
    GoodTimes(e, start, early + late);
    KeepsStart(d, start.header.number, After(e, start, early).published, m);
    forall k | start.header.number <= k <= StoredTarget(d)
      ensures Holds(e, start, c, d, k)
    {
      StoreHolds(e, start, early, late, d, m, k);
    }
    RestartFromChosen(e, start, c, d, feed);
  }

  lemma KeepsStart(d: Engine.Store, n: nat, out: seq<Block>, m: nat)
    requires Keeps(d, n, out, m)
    ensures Engine.ValidStore(d) && d.lib.Some? && n <= d.headNum && d.headNum in d.blocks
  {
  }

  /** Started at `base` and fed `feed`, the converter accepts everything, ends with the blocks of
      `f`, and publishes those from `base` on again; `base` is not above `target`. */
  ghost predicate RestartsAlike(e: Env, start: Block, base: Block, feed: seq<NativeBlock>, f: seq<Block>, target: nat) {
    var r := Run(e, Converters.HeadState(e, base), feed);
    && start.header.number <= base.header.number <= target
    && r.Success? && EndAlike(r.value.evm, f)
    && RepublishesFrom(r.value.published, base.header.number, f, start.header.number)
  }

  lemma {:induction false} RestartFromChosen(
    e: Env, start: Block, chain: seq<NativeBlock>, d: Engine.Store, feed: seq<NativeBlock>)
    requires Uninterrupted(e, start, chain) && AllTimed(e, Fold(e, start, chain).value)
    requires d.lib.Some? && Engine.ValidStore(d) && d.headNum in d.blocks && start.header.number <= StoredTarget(d)
    requires forall k :: start.header.number <= k <= StoredTarget(d) ==> Holds(e, start, chain, d, k)
    requires Requested(e, d).Some? ==> AllResent(feed, NumberedFrom(chain, Requested(e, d).value))
    ensures Requested(e, d).Some? && Engine.Chosen(d, None).Some?
    ensures RestartsAlike(e, start, Engine.Chosen(d, None).value, feed, Fold(e, start, chain).value, StoredTarget(d))
  {
    hide Fold, Run, EndAlike, RepublishesFrom, AllResent, Holds, Engine.Chosen, ChainOk, NumberedFrom, AllTimed;
    var h, x := ChosenBlock(e, start, chain, d);
    var base := Engine.Chosen(d, None).value;
    BlockNumber(e, start, chain, h, x);
    assert base == x.(irreversible := base.irreversible);
    RestartFeed(e, start, chain, h, x, base, feed);
  }

  /** With forks after the restart: any admissible and benign run that the restarted converter
      accepts, and whose surviving native chain is what was to be fed, ends there as well. */
  lemma {:induction false} RestartedConverter(
    e: Env, start: Block, chain: seq<NativeBlock>, h: nat, x: Block, base: Block,
    bs: seq<NativeBlock>, feed: seq<NativeBlock>)
    requires Uninterrupted(e, start, chain) && ClosedBlock(e, start, chain, h, x)
    requires AllTimed(e, Fold(e, start, chain).value)
    requires SameButFlag(base, x) && x.header.prevRandao != 0
    requires AllResent(feed, NumberedFrom(chain, e.idNum(x.header.prevRandao) + 1))
    requires Surviving(e, base, bs) == [Converters.HeadBlock(e, base)] + feed
    requires AdmissibleRun(e, [Converters.HeadBlock(e, base)], bs)
    requires BenignRun(e, Converters.HeadState(e, base), base, [Converters.HeadBlock(e, base)], bs)
    requires Run(e, Converters.HeadState(e, base), bs).Success?
    ensures EndAlike(After(e, base, bs).evm, Fold(e, start, chain).value)
  {
    hide Fold, Run, EndAlike, EndOf, Tracks, ChainOk, EvmNum, Resent, MatchesFrom, PublishedFold;
    hide AdmissibleRun, BenignRun, ChainRun, InTime, Finality.Final;
    var again, n := [Converters.HeadBlock(e, base)] + feed, NextNative(e, chain, h);
    StoredBlock(e, start, chain, h, x);
    assert base == x.(irreversible := base.irreversible);
    NumberedFromAt(e, start, chain, n);
    BlockNumber(e, start, chain, h, x);
    AgainOk(e, start, chain, n, base, feed);
    assert again[1..] == feed;
    RestartEquivalence(e, start, chain, h, x, base, again);
    HeadInTime(e, base, again);
    GoodStart(e, base);
    RunRefines(e, Converters.HeadState(e, base), base, [Converters.HeadBlock(e, base)], bs);
    EndOfAlike(After(e, base, bs).evm, Fold(e, base, again).value, Fold(e, start, chain).value);
  }

  lemma HeadInTime(e: Env, start: Block, chain: seq<NativeBlock>)
    requires ChainOk(e, start, chain)
    ensures InTime(e, chain[0])
  {
    assert LinkedAt(e, chain, 0);
  }

  lemma GoodTimes(e: Env, start: Block, bs: seq<NativeBlock>)
    requires GoodRun(e, start, bs) && Fold(e, start, Surviving(e, start, bs)).Success?
    ensures AllTimed(e, Fold(e, start, Surviving(e, start, bs)).value)
  {
    hide Run, BenignRun, InTime, Surviving, Fold, Finality.SourceRun;
    FoldTimed(e, start, Surviving(e, start, bs));
  }
}
