/** The block conversion plugin: it keeps native and EVM blocks in two lists that it changes
    in place, and is proved to compute `Conversion.Step` and to keep its invariants. */
module Converters {
  import opened Types
  import opened Seqs
  import opened Conversion
  import opened Grouping
  import opened Runs
  import opened Uniformity
  import Marking
  import Output
  import RollbackProofs
  import Finality

  /** The native block that stands for the start block. */
  function HeadBlock(e: Env, start: Block): NativeBlock {
    NativeBlock(start.header.prevRandao, 0, e.idNum(start.header.prevRandao),
                start.header.timestamp * MICROS, 0, None, [])
  }

  function HeadState(e: Env, start: Block): State {
    State([HeadBlock(e, start)], [start], None, [])
  }

  /** The state right after the start block is loaded satisfies every invariant. */
  lemma {:induction false} HeadInvariants(e: Env, start: Block)
    requires InTime(e, HeadBlock(e, start)) && start.header.number <= Num(e, HeadBlock(e, start))
    ensures var s, chain := HeadState(e, start), [HeadBlock(e, start)];
      && Tracks(e, s, start, chain) && Uniform(e, s, start, chain) && Output.Integrity(e, s, start.header.number)
  {
    assert LinkedAt(e, [HeadBlock(e, start)], 0);
  }

  class Converter {
    const e: Env
    var native: seq<NativeBlock>
    var evm: seq<Block>
    var evmLib: Option<nat>
    var published: seq<Block>
    ghost const start: Block
    ghost var chain: seq<NativeBlock>  // the surviving native chain, never pruned
    ghost var marks: seq<seq<Marking.Mark>>  // settings each cached transaction was added under

    ghost function Abs(): State
      reads this
    {
      State(native, evm, evmLib, published)
    }

    ghost predicate Valid()
      reads this
    {
      && Tracks(e, Abs(), start, chain)
      && Uniform(e, Abs(), start, chain)
      && Output.Integrity(e, Abs(), start.header.number)
      && Marking.AllUnderOne(e, evm, marks, start.header.number)
    }

    constructor LoadHead(e: Env, startBlock: Block)
      requires InTime(e, HeadBlock(e, startBlock)) && startBlock.header.number <= Num(e, HeadBlock(e, startBlock))
      ensures Valid() && this.e == e && start == startBlock
      ensures Abs() == HeadState(e, startBlock) && chain == [HeadBlock(e, startBlock)]
    {
      hide Tracks, Uniform, Output.Integrity, Marking.AllUnderOne, InTime;
      this.e := e;
      evm := [startBlock];
      native := [HeadBlock(e, startBlock)];
      evmLib := None;
      published := [];
      start := startBlock;
      chain := [HeadBlock(e, startBlock)];
      marks := [[]];
      new;
      Marking.StartUnderOne(e, startBlock);
      HeadInvariants(e, startBlock);
    }

    // ----- forks -----

    method PopForkedEvmBlocks(k: nat)
      modifies this`evm
      ensures evm == PopEvm(old(evm), k)
    {
      while evm != [] && k < Last(evm).header.number
        invariant PopEvm(evm, k) == PopEvm(old(evm), k)
        decreases |evm|
      {
        evm := Init(evm);
      }
    }

    /** Removes the transaction of one action from the last EVM block, if it is the one. */
    method UndoAction(a: Action) returns (r: Result<()>)
      requires evm != []
      modifies this`evm
      ensures var d, txs := Deserialize(e, a), old(Last(evm).transactions);
        if d.Failure? then r == Failure(d.error) && evm == old(evm)
        else if txs == [] then r == Failure(Undefined) && evm == old(evm)
        else if e.keccak(d.value.rlpx) != e.keccak(e.encode(Last(txs))) then
          r == Failure(UnableToRemoveTransaction) && evm == old(evm)
        else r.Success? && evm == Init(old(evm)) + [old(Last(evm)).(transactions := Init(txs))]
    {
      var d := Deserialize(e, a);
      if d.Failure? {
        return Failure(d.error);
      }
      var back := Last(evm);
      if back.transactions == [] {
        return Failure(Undefined);
      }
      var idA := e.keccak(d.value.rlpx);
      var idB := e.keccak(e.encode(Last(back.transactions)));
      if idA != idB {
        return Failure(UnableToRemoveTransaction);
      }
      evm := Init(evm) + [back.(transactions := Init(back.transactions))];
      return Success(());
    }

    /** Removes all transactions of `b` from the last EVM block, last action first. */
    method UndoActions(b: NativeBlock) returns (r: Result<()>)
      requires evm != []
      modifies this`evm
      ensures var u := Undo(e, old(Last(evm).transactions), Actions(b));
        && (u.Success? ==> r.Success? && evm == Init(old(evm)) + [old(Last(evm)).(transactions := u.value)])
        && (u.Failure? ==> r == Failure(u.error))
    {
      hide Undo, Deserialize, Flatten;
      var i := |b.transactions|;
      ghost var goal := Undo(e, Last(evm).transactions, Actions(b));
      assert b.transactions[..i] == b.transactions;
      assert evm == Init(evm) + [Last(evm).(transactions := Last(evm).transactions)];
      while 0 < i
        invariant 0 <= i <= |b.transactions| && evm != []
        invariant evm == Init(old(evm)) + [old(Last(evm)).(transactions := Last(evm).transactions)]
        invariant Undo(e, Last(evm).transactions, Flatten(b.transactions[..i])) == goal
      {
        i := i - 1;
        var acts := b.transactions[i].actions;
        var k := |acts|;
        FlattenNext(b.transactions, i);
        assert acts[..k] == acts;
        while 0 < k
          invariant 0 <= k <= |acts| && evm != []
          invariant evm == Init(old(evm)) + [old(Last(evm)).(transactions := Last(evm).transactions)]
          invariant Undo(e, Last(evm).transactions, Flatten(b.transactions[..i]) + acts[..k]) == goal
        {
          k := k - 1;
          ghost var left := Flatten(b.transactions[..i]) + acts[..k + 1];
          assert Last(left) == acts[k] && Init(left) == Flatten(b.transactions[..i]) + acts[..k];
          UndoNext(e, Last(evm).transactions, left);
          r := UndoAction(acts[k]);
          if r.Failure? {
            return;
          }
        }
        assert Flatten(b.transactions[..i]) + acts[..0] == Flatten(b.transactions[..i]);
      }
      assert b.transactions[..0] == [];
      FlattenNone();
      UndoNext(e, Last(evm).transactions, []);
      r := Success(());
    }

    method PopForkedNativeBlocks(fork: NativeBlock) returns (r: Result<()>)
      modifies this`native, this`evm
      ensures var p := PopNative(e, old(Abs()), fork);
        && (p.Success? ==> r.Success? && Abs() == p.value)
        && (p.Failure? ==> r == Failure(p.error))
    {
      while native != [] && Last(native).id != fork.id
        invariant PopNative(e, Abs(), fork) == PopNative(e, old(Abs()), fork)
        decreases |native|
      {
        var b := Last(native);
        if b.transactions != [] && Num(e, b) == Num(e, fork) {
          if evm == [] || Num(e, b) != Last(evm).header.number {
            return Failure(UnableToRemoveTransactions);
          }
          r := UndoActions(b);
          if r.Failure? {
            return;
          }
        }
        native := Init(native);
      }
      r := Success(());
    }

    method RollbackTo(fork: NativeBlock) returns (r: Result<()>)
      modifies this`native, this`evm
      ensures var p := Rollback(e, old(Abs()), fork);
        && (p.Success? ==> r.Success? && Abs() == p.value)
        && (p.Failure? ==> r == Failure(p.error))
    {
      PopForkedEvmBlocks(Num(e, fork));
      r := PopForkedNativeBlocks(fork);
      if r.Failure? {
        return;
      }
      if native == [] {
        return Failure(Undefined);
      }
      if evm == [] || Num(e, Last(native)) != Last(evm).header.number {
        return Failure(UnableToSetUpperBound);
      }
      evm := Init(evm) + [SetUpperBound(Last(evm), Last(native))];
    }

    // ----- extension -----

    /** Closes, publishes and follows the last EVM block until it has number `k`. */
    method ExtendTo(k: nat)
      requires evm != []
      modifies this`evm, this`published
      ensures evm == Init(old(evm)) + Tail(e, old(Last(evm)), k)
      ensures published == old(published) + Init(Tail(e, old(Last(evm)), k))
    {
      hide Tail, Fresh, Close;
      ghost var t := Tail(e, Last(evm), k);
      ghost var i := 0;
      while Last(evm).header.number < k
        invariant evm != [] && 0 <= i < |t| && Tail(e, Last(evm), k) == t[i..]
        invariant Init(evm) == Init(old(evm)) + t[..i]
        invariant published == old(published) + t[..i]
        decreases k - Last(evm).header.number
      {
        TailNext(e, Last(evm), k);
        var closed := Close(e, Last(evm));
        assert t[i..][0] == closed && t[i..][1..] == t[i + 1..];
        published := published + [closed];
        evm := Init(evm) + [closed];
        evm := evm + [Fresh(e, closed)];
        i := i + 1;
        assert t[..i] == t[..i - 1] + [closed];
      }
      TailNext(e, Last(evm), k);
      assert t[i..][0] == Last(evm) && |t[i..]| == 1;
      assert t == t[..i] + [Last(evm)];
    }

    // ----- adding transactions to the last EVM block -----

    method SetBack(x: Block)
      requires evm != []
      modifies this`evm
      ensures evm == Init(old(evm)) + [x]
    {
      evm := Init(evm) + [x];
    }

    method ApplyNewConfig(b: NativeBlock) returns (r: Result<()>)
      requires evm != []
      modifies this`evm
      ensures var p := ApplyConfig(e, old(Last(evm)), b);
        && (p.Success? ==> r.Success? && evm == Init(old(evm)) + [p.value])
        && (p.Failure? ==> r == Failure(p.error))
    {
      if b.newConfig.Some? {
        if Last(evm).transactions != [] {
          return Failure(ConfigMidBlock);
        }
        var h := e.readConfig(b.newConfig.value.data);
        if h.None? {
          return Failure(BadAction);
        }
        SetBack(Last(evm).(cpi := h));
      }
      assert evm == Init(evm) + [Last(evm)];
      r := Success(());
    }

    /** Checks one action against the last EVM block, adjusts an empty block to it, and adds
        its transaction. */
    method AddAction(a: Action) returns (r: Result<()>)
      requires evm != []
      modifies this`evm
      ensures var p := ApplyAction(e, old(Last(evm)), a);
        && (p.Success? ==> r.Success? && evm == Init(old(evm)) + [p.value])
        && (p.Failure? ==> r == Failure(p.error))
    {
      var d := Deserialize(e, a);
      if d.Failure? {
        return Failure(d.error);
      }
      var x := Last(evm);
      if d.value.version < x.header.version {
        return Failure(VersionTooLow);
      } else if x.header.version < d.value.version {
        if x.transactions == [] {
          x := x.(header := x.header.(version := d.value.version));
        } else {
          return Failure(VersionTooHigh);
        }
      }
      if 3 <= x.header.version {
        if !d.value.V3? {
          return Failure(WrongVariant);
        }
        if x.gasPrices.None? {
          x := x.(gasPrices := Some(d.value.prices));
        } else if x.gasPrices.value != d.value.prices {
          if x.transactions == [] {
            x := x.(gasPrices := Some(d.value.prices));
          } else {
            return Failure(GasPricesDiffer);
          }
        }
        x := x.(header := x.header.(baseFee := Some(e.feeOf(d.value.prices))));
      }
      var tx := e.decode(d.value.rlpx);
      if tx.None? {
        return Failure(DecodeFailed);
      }
      if 1 <= x.header.version < 3 {
        if !d.value.V1? {
          return Failure(WrongVariant);
        }
        if x.header.baseFee.None? {
          x := x.(header := x.header.(baseFee := Some(d.value.baseFee)));
        } else if x.header.baseFee.value != d.value.baseFee {
          if x.transactions == [] {
            x := x.(header := x.header.(baseFee := Some(d.value.baseFee)));
          } else {
            return Failure(BaseFeeDiffers);
          }
        }
      }
      x := x.(transactions := x.transactions + [tx.value]);
      SetBack(x);
      r := Success(());
    }

    /** Adds all actions of `b` in execution order. */
    method AddActions(b: NativeBlock) returns (r: Result<()>)
      requires evm != []
      modifies this`evm
      ensures var p := ApplyAll(e, old(Last(evm)), Actions(b));
        && (p.Success? ==> r.Success? && evm == Init(old(evm)) + [p.value])
        && (p.Failure? ==> r == Failure(p.error))
    {
      hide ApplyAction, ApplyAll;
      ghost var x := Last(evm);
      var i := 0;
      assert evm == Init(evm) + [Last(evm)];
      ApplyAllNext(e, x, []);
      while i < |b.transactions|
        invariant 0 <= i <= |b.transactions| && evm != []
        invariant evm == Init(old(evm)) + [Last(evm)]
        invariant ApplyAll(e, x, Flatten(b.transactions[..i])) == Success(Last(evm))
      {
        var acts := b.transactions[i].actions;
        ghost var before := Flatten(b.transactions[..i]);
        var k := 0;
        assert before + acts[..0] == before;
        while k < |acts|
          invariant 0 <= k <= |acts| && evm != []
          invariant evm == Init(old(evm)) + [Last(evm)]
          invariant ApplyAll(e, x, before + acts[..k]) == Success(Last(evm))
        {
          ghost var now := before + acts[..k + 1];
          assert Init(now) == before + acts[..k] && Last(now) == acts[k];
          ApplyAllNext(e, x, now);
          r := AddAction(acts[k]);
          if r.Failure? {
            FailsForGood(e, x, now, before + acts, r.error);
            FailsFlat(e, x, b.transactions, i, r.error);
            return;
          }
          k := k + 1;
        }
        assert acts[..k] == acts;
        assert Init(b.transactions[..i + 1]) == b.transactions[..i];
        i := i + 1;
      }
      assert b.transactions[..i] == b.transactions;
      r := Success(());
    }

    // ----- pruning -----

    /** Records the last irreversible EVM number and drops what lies below it; the two loops
        have no emptiness test, and need none. */
    method PruneTo(lib: nat)
      requires Tracks(e, Abs(), start, chain) && 1 < |chain|
      modifies this`native, this`evm, this`evmLib
      ensures Abs() == Prune(e, old(Abs()), lib)
    {
      hide Tracks, Num, PrunedAt;
      var n := UpperBound(native, lib);
      if n != 0 {
        var h := MinusOne32(Num(e, native[n - 1]));
        PruneKeepsSome(e, Abs(), start, chain, lib, h);
        while Num(e, native[0]) < h
          invariant native != [] && DropNativeBelow(e, native, h) == DropNativeBelow(e, old(native), h)
          invariant evm == old(evm) && evmLib == old(evmLib)
          decreases |native|
        {
          native := native[1..];
        }
        while evm[0].header.number < h
          invariant evm != [] && DropEvmBelow(evm, h) == DropEvmBelow(old(evm), h)
          invariant native == DropNativeBelow(e, old(native), h)
          decreases |evm|
        {
          evm := evm[1..];
        }
        evmLib := Some(h);
      }
    }

    // ----- the handler -----

    /** Extends the EVM chain to the block of `b` and adds `b` there. */
    method GrowTo(b: NativeBlock) returns (r: Result<()>)
      requires evm != []
      modifies this`evm, this`published
      ensures var p := Grow(e, old(Last(evm)), b);
        && (p.Success? ==> r.Success? && evm == Init(old(evm)) + p.value)
        && (p.Success? ==> published == old(published) + Init(p.value))
        && (p.Failure? ==> r == Failure(p.error))
    {
      hide Tail, ApplyConfig, ApplyAll, Actions;
      ghost var tail := Tail(e, Last(evm), Num(e, b));
      ExtendTo(Num(e, b));
      assert Last(evm) == Last(tail) && Init(evm) == Init(old(evm)) + Init(tail);
      r := ApplyNewConfig(b);
      if r.Failure? {
        return;
      }
      r := AddActions(b);
      if r.Failure? {
        return;
      }
      SetBack(SetUpperBound(Last(evm), b));
      assert evm == Init(old(evm)) + (Init(tail) + [Last(evm)]);
      assert Init(Init(tail) + [Last(evm)]) == Init(tail);
    }

    /** Enqueues `b`, which follows the last native block of the surviving chain `c`. */
    method Enqueue(b: NativeBlock, ghost c: seq<NativeBlock>) returns (r: Result<()>)
      requires Tracks(e, Abs(), start, c) && Admissible(e, c, b) && Last(c).id == b.prev
      modifies this
      ensures var p := Accept(e, old(Abs()), b);
        && (p.Success? ==> r.Success? && Abs() == p.value && chain == c + [b])
        && (p.Failure? ==> r == Failure(p.error))
    {
      hide Grow, Prune, Tracks, Admissible;
      TracksCacheNonempty(e, Abs(), start, c);
      ghost var s := Abs();
      native := native + [b];
      r := GrowTo(b);
      if r.Failure? {
        return;
      }
      ghost var g := Grow(e, Last(s.evm), b).value;
      GrowTracks(e, s, start, c, b);
      Finality.TracksPublished(e, Abs(), s.(native := s.native + [b], evm := Init(s.evm) + g), start, c + [b]);
      chain := c + [b];
      PruneTo(b.lib);
    }

    /** Makes way for a block that does not follow the last native one: nothing is left to do
        for a duplicate, else the fork point becomes the last native block, that of `c`. */
    method Relink(b: NativeBlock) returns (r: Result<bool>, ghost c: seq<NativeBlock>)
      requires Tracks(e, Abs(), start, chain) && Admissible(e, chain, b)
      requires native != [] && Last(native).id != b.prev
      modifies this`native, this`evm
      ensures var dup, at := Find(old(native), b.id), Find(old(native), b.prev);
        if dup.Some? then r == Success(false) && Abs() == old(Abs()) && c == chain
        else if at.None? then r == Failure(NoForkBlock)
        else
          var p := Rollback(e, old(Abs()), old(native)[at.value]);
          && (p.Failure? ==> r == Failure(p.error))
          && (p.Success? ==>
                && r == Success(true) && Abs() == p.value && Tracks(e, Abs(), start, c)
                && Admissible(e, c, b) && Last(c).id == b.prev && ChainStep(chain, b) == c + [b])
      ensures r == Success(false) ==> ChainStep(chain, b) == chain
    {
      hide Accept, Rollback, BodiesMatch, Consecutive, Admissible, ChainOk;
      c := chain;
      FindInCache(e, Abs(), start, chain, b.id);
      assert Last(native) == Last(chain);
      var dup := Find(native, b.id);
      if dup.Some? {
        return Success(false), chain;
      }
      var at := Find(native, b.prev);
      if at.None? {
        return Failure(NoForkBlock), chain;
      }
      FindInCache(e, Abs(), start, chain, b.prev);
      ghost var j := |chain| - |native| + at.value;
      ForkFacts(e, Abs(), start, chain, b, j);
      assert native[at.value] == chain[j];
      var p := RollbackTo(native[at.value]);
      if p.Failure? {
        return Failure(p.error), chain;
      }
      return Success(true), chain[..j + 1];
    }

    /** Handles one received native block. */
    method OnNativeBlock(b: NativeBlock) returns (r: Result<()>)
      requires Valid() && Admissible(e, chain, b)
      modifies this
      ensures var p := Step(e, old(Abs()), b);
        && (p.Success? ==> r.Success? && Abs() == p.value && chain == ChainStep(old(chain), b) && Valid())
        && (p.Failure? ==> r == Failure(p.error))
    {
      hide Accept, Rollback, Uniform, Output.Integrity, Tracks, Admissible, Find, ChainStep;
      hide Marking.AllUnderOne, Marking.MarkStep;
      StepKeepsAll(e, Abs(), start, chain, marks, b);
      ghost var kept := if Step(e, Abs(), b).Success? then Marking.MarkStep(e, Abs(), marks, b) else marks;
      LinkFacts(e, Abs(), start, chain, b);
      ghost var c := chain;
      if Last(native).id != b.prev {
        var relinked: Result<bool>;
        relinked, c := Relink(b);
        if relinked.Failure? {
          return Failure(relinked.error);
        }
        if !relinked.value {
          marks := kept;
          return Success(());
        }
      }
      r := Enqueue(b, c);
      marks := kept;
    }
  }


  /** Everything the handler must keep, for the state it computes. */
  lemma {:induction false} StepKeepsAll(
    e: Env, s: State, start: Block, chain: seq<NativeBlock>, marks: seq<seq<Marking.Mark>>, b: NativeBlock)
    requires Tracks(e, s, start, chain) && Uniform(e, s, start, chain)
    requires Output.Integrity(e, s, start.header.number) && Admissible(e, chain, b)
    requires Marking.AllUnderOne(e, s.evm, marks, start.header.number)
    ensures |marks| == |s.evm|
    ensures Step(e, s, b).Success? ==>
      && Tracks(e, Step(e, s, b).value, start, ChainStep(chain, b))
      && Uniform(e, Step(e, s, b).value, start, ChainStep(chain, b))
      && Output.Integrity(e, Step(e, s, b).value, start.header.number)
      && Marking.AllUnderOne(e, Step(e, s, b).value.evm, Marking.MarkStep(e, s, marks, b), start.header.number)
  {
    hide Tracks, Uniform, Output.Integrity, Step, ChainStep, Marking.AllUnderOne, Marking.MarkStep;
    Marking.SameCount(e, s.evm, marks, start.header.number);
    if Step(e, s, b).Success? {
      StepTracks(e, s, start, chain, b);
      StepUniform(e, s, start, chain, b);
      Output.StepIntegrity(e, s, b, start.header.number);
      Marking.StepUnderOne(e, s, marks, b, start.header.number);
    }
  }

  /** What the handler may rely on when it rolls back to `chain[j]`. */
  lemma {:induction false} ForkFacts(e: Env, s: State, start: Block, chain: seq<NativeBlock>, b: NativeBlock, j: nat)
    requires Tracks(e, s, start, chain) && Admissible(e, chain, b)
    requires Last(chain).id != b.prev && Find(s.native, b.id).None?
    requires |chain| - |s.native| <= j && Find(chain, b.prev) == Some(j)
    ensures j < |chain| && ChainStep(chain, b) == chain[..j + 1] + [b]
    ensures Admissible(e, chain[..j + 1], b) && Last(chain[..j + 1]).id == b.prev
    ensures Rollback(e, s, chain[j]).Success? ==> Tracks(e, Rollback(e, s, chain[j]).value, start, chain[..j + 1])
  {
    hide Rollback, BodiesMatch, Consecutive, Admissible;
    FindInCache(e, s, start, chain, b.id);
    ForkPoint(e, start, chain, b, |chain| - |s.native|);
    CutAdmissible(e, chain, b, j);
    RollbackProofs.RollbackTracks(e, s, start, chain, j);
  }

  lemma TracksCacheNonempty(e: Env, s: State, start: Block, chain: seq<NativeBlock>)
    requires Tracks(e, s, start, chain)
    ensures chain != [] && s.native != [] && s.evm != []
  {
  }

  /** The last cached native block is the last of the surviving chain. */
  lemma LinkFacts(e: Env, s: State, start: Block, chain: seq<NativeBlock>, b: NativeBlock)
    requires Tracks(e, s, start, chain)
    ensures s.native != [] && chain != [] && Last(s.native) == Last(chain)
    ensures Last(chain).id == b.prev ==> ChainStep(chain, b) == chain + [b]
  {
    hide ChainOk, BodiesMatch, Consecutive;
  }

  lemma {:induction false} PruneKeepsSome(e: Env, s: State, start: Block, chain: seq<NativeBlock>, lib: nat, h: nat)
    requires Tracks(e, s, start, chain) && 1 < |chain|
    requires UpperBound(s.native, lib) > 0 && h == MinusOne32(Num(e, s.native[UpperBound(s.native, lib) - 1]))
    ensures Prune(e, s, lib) == PruneBelow(e, s, h)
    ensures DropNativeBelow(e, s.native, h) != [] && DropEvmBelow(s.evm, h) != []
  {
    PruneTracks(e, s, start, chain, lib);
  }

  lemma TailNext(e: Env, x: Block, k: nat)
    ensures Tail(e, x, k) ==
      if x.header.number < k then [Close(e, x)] + Tail(e, Fresh(e, Close(e, x)), k) else [x]
    ensures Fresh(e, Close(e, x)).header.number == x.header.number + 1
  {
  }

  lemma FlattenNext(trxs: seq<NativeTrx>, i: nat)
    requires i < |trxs|
    ensures Flatten(trxs[..i + 1]) == Flatten(trxs[..i]) + trxs[i].actions
  {
    assert Init(trxs[..i + 1]) == trxs[..i];
  }

  lemma FlattenNone()
    ensures Flatten([]) == []
  {
  }

  lemma UndoNext(e: Env, txs: seq<Tx>, acts: seq<Action>)
    ensures acts == [] ==> Undo(e, txs, acts) == Success(txs)
    ensures acts != [] ==>
      var d := Deserialize(e, Last(acts));
      Undo(e, txs, acts) ==
        if d.Failure? then Failure(d.error)
        else if txs == [] then Failure(Undefined)
        else if e.keccak(d.value.rlpx) != e.keccak(e.encode(Last(txs))) then Failure(UnableToRemoveTransaction)
        else Undo(e, Init(txs), Init(acts))
  {
    hide Deserialize;
  }

  lemma ApplyAllNext(e: Env, x: Block, acts: seq<Action>)
    ensures acts == [] ==> ApplyAll(e, x, acts) == Success(x)
    ensures acts != [] ==>
      var y := ApplyAll(e, x, Init(acts));
      ApplyAll(e, x, acts) == if y.Success? then ApplyAction(e, y.value, Last(acts)) else Failure(y.error)
  {
  }

  /** Once an action is refused, so is every longer list. */
  lemma {:induction false} FailsForGood(e: Env, x: Block, acts: seq<Action>, more: seq<Action>, error: Error)
    requires acts <= more && ApplyAll(e, x, acts) == Failure(error)
    ensures ApplyAll(e, x, more) == Failure(error)
    decreases |more|
  {
    if acts == more {
    } else {
      FailsForGood(e, x, acts, Init(more), error);
    }
  }

  lemma {:induction false} FailsFlat(e: Env, x: Block, trxs: seq<NativeTrx>, i: nat, error: Error)
    requires i < |trxs| && ApplyAll(e, x, Flatten(trxs[..i]) + trxs[i].actions) == Failure(error)
    ensures ApplyAll(e, x, Flatten(trxs)) == Failure(error)
    decreases |trxs|
  {
    if i == |trxs| - 1 {
      assert trxs[..i] == Init(trxs);
    } else {
      assert Init(trxs)[..i] == trxs[..i];
      FailsFlat(e, x, Init(trxs), i, error);
      FailsForGood(e, x, Flatten(Init(trxs)), Flatten(trxs), error);
    }
  }
}
