/** What was published: after a benign run the latest published block of every closed number
    is the fold's, whatever forks replaced earlier ones; below the recorded irreversible
    number it never changes again. */
module PublishedFolds {
  import opened Types
  import opened Seqs
  import opened Conversion
  import opened Grouping
  import opened RollbackProofs
  import opened Runs
  import opened Headers
  import opened FoldRuns
  import opened Output
  import Finality

  /** For every number below the open one, the latest published block is the fold's. */
  ghost predicate PublishedFold(e: Env, out: seq<Block>, start: Block, chain: seq<NativeBlock>)
    requires chain != []
  {
    && Fold(e, start, chain).Success?
    && MatchesFrom(out, start.header.number, Fold(e, start, chain).value)
  }

  /** The latest blocks of `out` numbered from `n` on are those of `f`, but for its last. */
  ghost predicate MatchesFrom(out: seq<Block>, n: nat, f: seq<Block>) {
    forall k: nat :: n <= k < n + |f| - 1 ==> LastNumbered(out, k) == Some(f[k - n])
  }

  // ----- more output -----

  lemma {:induction false} NumberedMore(out: seq<Block>, more: seq<Block>, a: nat, k: nat)
    requires forall i :: 0 <= i < |more| ==> more[i].header.number == a + i
    ensures LastNumbered(out + more, k) == if a <= k < a + |more| then Some(more[k - a]) else LastNumbered(out, k)
    decreases |more|
  {
    hide LastNumbered;
    if more == [] {
      assert out + more == out;
    } else {
      NumberedMore(out, Init(more), a, k);
      LastNumberedMore(out + Init(more), Last(more), k);
      assert out + more == out + Init(more) + [Last(more)];
    }
  }

  /** Output numbered above `k` leaves the latest block numbered `k` alone. */
  lemma {:induction false} NumberedAbove(out: seq<Block>, more: seq<Block>, k: nat)
    requires out <= more && forall p :: |out| <= p < |more| ==> k < more[p].header.number
    ensures LastNumbered(more, k) == LastNumbered(out, k)
    decreases |more|
  {
    if |out| < |more| {
      NumberedAbove(out, Init(more), k);
    } else {
      assert more == out;
    }
  }

  // ----- one step -----

  /** Extending the output by what a linking block closes. */
  lemma {:induction false} GrowMatches(out: seq<Block>, n: nat, f: seq<Block>, g: seq<Block>, h: seq<Block>)
    requires f != [] && h != [] && |g| == |h| && Init(g) == Init(h)
    requires MatchesFrom(out, n, f)
    requires forall i :: 0 <= i < |g| ==> g[i].header.number == n + |f| - 1 + i
    ensures MatchesFrom(out + Init(g), n, Init(f) + h)
  {
    hide LastNumbered;
    var q, a := Init(f) + h, n + |f| - 1;
    forall k: nat | n <= k < n + |q| - 1
      ensures LastNumbered(out + Init(g), k) == Some(q[k - n])
    {
      NumberedMore(out, Init(g), a, k);
      if k < a {
        assert q[k - n] == f[k - n];
      } else {
        assert q[k - n] == h[k - a] == Init(h)[k - a];
      }
    }
  }

  lemma {:induction false} AcceptPublishes(e: Env, s: State, start: Block, chain: seq<NativeBlock>, b: NativeBlock)
    requires Tracks(e, s, start, chain) && Refines(e, s, start, chain)
    requires PublishedFold(e, s.published, start, chain)
    requires Admissible(e, chain, b) && Last(chain).id == b.prev && Accept(e, s, b).Success?
    ensures PublishedFold(e, Accept(e, s, b).value.published, start, chain + [b])
  {
    hide Grow, Fold, MatchesFrom, SameButRoot, Admissible, Suffix, BodiesMatch, Consecutive;
    var f := Fold(e, start, chain).value;
    var x, y := Last(s.evm), Last(f);
    AcceptRefines(e, s, start, chain, b);
    FoldMore(e, start, chain, b);
    GrowSame(e, x, y, b);
    GrownShape(e, x, b);
    FoldShape(e, start, chain);
    var g := Grow(e, x, b).value;
    GrowMatches(s.published, start.header.number, f, g, Grow(e, y, b).value);
    var s1 := State(s.native + [b], Init(s.evm) + g, s.lib, s.published + Init(g));
    PruneKeepsOutput(e, s1, b.lib);
  }

  /** A fork publishes nothing, and the fold of the cut chain has the same closed blocks. */
  lemma {:induction false} CutPublished(e: Env, out: seq<Block>, start: Block, chain: seq<NativeBlock>, j: nat)
    requires ChainOk(e, start, chain) && 0 < j < |chain| && PublishedFold(e, out, start, chain)
    ensures PublishedFold(e, out, start, chain[..j + 1])
  {
    hide Fold, LastNumbered, AppendAll, SameButRoot;
    FoldExtends(e, start, chain, j);
    var f, cut := Fold(e, start, chain).value, Fold(e, start, chain[..j + 1]).value;
    forall k: nat | start.header.number <= k < start.header.number + |cut| - 1
      ensures LastNumbered(out, k) == Some(cut[k - start.header.number])
    {
      assert f[..|cut| - 1][k - start.header.number] == Init(cut)[k - start.header.number];
    }
  }

  lemma {:induction false} ForkPublishes(
    e: Env, s: State, start: Block, chain: seq<NativeBlock>, b: NativeBlock, j: nat)
    requires Tracks(e, s, start, chain) && Refines(e, s, start, chain)
    requires start.header.number < Num(e, chain[0])
    requires Admissible(e, chain, b) && Benign(e, s, start, chain, b)
    requires Classify(chain, |chain| - |s.native|, b) == Fork(j) && Find(chain, b.id).None?
    requires 0 < j < |chain| && |chain| - |s.native| <= j && chain[j].id == b.prev
    requires Rollback(e, s, chain[j]).Success? && Accept(e, Rollback(e, s, chain[j]).value, b).Success?
    requires PublishedFold(e, s.published, start, chain)
    ensures PublishedFold(e, Accept(e, Rollback(e, s, chain[j]).value, b).value.published, start, chain[..j + 1] + [b])
  {
    hide Accept, Rollback, Classify, Tracks, PublishedFold, Refines, Admissible, Fold;
    hide DroppedCanonical, Neutral, Shared;
    ForkRefines(e, s, start, chain, b, j);
    CutAdmissible(e, chain, b, j);
    TracksOk(e, s, start, chain);
    CutPublished(e, s.published, start, chain, j);
    RollbackTracks(e, s, start, chain, j);
    AcceptPublishes(e, Rollback(e, s, chain[j]).value, start, chain[..j + 1], b);
  }

  lemma {:induction false} StepPublishes(e: Env, s: State, start: Block, chain: seq<NativeBlock>, b: NativeBlock)
    requires Tracks(e, s, start, chain) && Refines(e, s, start, chain)
    requires start.header.number < Num(e, chain[0])
    requires Admissible(e, chain, b) && Benign(e, s, start, chain, b) && Step(e, s, b).Success?
    requires PublishedFold(e, s.published, start, chain)
    ensures PublishedFold(e, Step(e, s, b).value.published, start, ChainStep(chain, b))
  {
    hide Accept, Rollback, Classify, BodiesMatch, Consecutive, PublishedFold, Refines, Admissible, Benign, ChainOk;
    StepCases(e, s, start, chain, b);
    match Classify(chain, |chain| - |s.native|, b)
    case Links => AcceptPublishes(e, s, start, chain, b);
    case Duplicate =>
    case Fork(j) => ForkPublishes(e, s, start, chain, b, j);
    case Unknown =>
  }

  // ----- runs -----

  /** After a benign run, for every number from the start block's up to but not including the
      open one, the latest published block is that of the fold over the surviving chain. */
  lemma {:induction false} PublishedIsFold(
    e: Env, s: State, start: Block, chain: seq<NativeBlock>, bs: seq<NativeBlock>)
    requires chain != [] && Tracks(e, s, start, chain) && Refines(e, s, start, chain)
    requires start.header.number < Num(e, chain[0])
    requires AdmissibleRun(e, chain, bs) && BenignRun(e, s, start, chain, bs) && Run(e, s, bs).Success?
    requires PublishedFold(e, s.published, start, chain)
    ensures PublishedFold(e, Run(e, s, bs).value.published, start, ChainRun(chain, bs))
    decreases |bs|
  {
    hide Step, PublishedFold, Refines, Tracks, Benign, Admissible;
    if bs != [] {
      var q, c := Run(e, s, Init(bs)).value, ChainRun(chain, Init(bs));
      PublishedIsFold(e, s, start, chain, Init(bs));
      RunRefines(e, s, start, chain, Init(bs));
      RunTracks(e, s, start, chain, Init(bs));
      ChainRunStart(chain, Init(bs));
      StepPublishes(e, q, start, c, Last(bs));
    }
  }

  /** Before anything is received nothing is closed. */
  lemma StartPublished(e: Env, start: Block, head: NativeBlock)
    ensures PublishedFold(e, [], start, [head])
  {
  }

  /** What lies at or below the recorded irreversible number is never published again, so the
      latest blocks there are the same after any further run from an obedient source. */
  lemma {:induction false} FinalOutput(
    e: Env, s: State, start: Block, chain: seq<NativeBlock>, seen: nat, bs: seq<NativeBlock>, k: nat)
    requires Tracks(e, s, start, chain) && Finality.Final(e, s, chain, seen)
    requires Finality.SourceRun(e, chain, seen, bs) && Run(e, s, bs).Success?
    requires s.lib.Some? && k <= s.lib.value
    ensures LastNumbered(Run(e, s, bs).value.published, k) == LastNumbered(s.published, k)
  {
    hide Tracks, Run, Finality.Final, Finality.SourceRun, Finality.AgreeBelow;
    Finality.RunFinal(e, s, start, chain, seen, bs);
    NumberedAbove(s.published, Run(e, s, bs).value.published, k);
  }
}
