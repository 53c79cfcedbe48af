/** The complete EVM blocks, headers included, equal a plain fold over the surviving native
    chain, as long as no fork drops a header change made in the fork point's own block. */
module Headers {
  import opened Types
  import opened Seqs
  import opened Conversion
  import opened Grouping
  import opened RollbackProofs
  import opened Runs
  import opened Uniformity
  import Output

  // ----- reference definition -----

  /** The EVM chain of a native chain that never forked and was never pruned. */
  function Fold(e: Env, start: Block, chain: seq<NativeBlock>): (r: Result<seq<Block>>)
    requires chain != []
    ensures r.Success? ==> r.value != []
  {
    if |chain| == 1 then Success([start])
    else
      var f :- Fold(e, start, Init(chain));
      var g :- Grow(e, Last(f), Last(chain));
      Success(Init(f) + g)
  }

  /** `evm` is the end of `f`: closed blocks in full, the open one up to its root. */
  ghost predicate EndOf(evm: seq<Block>, f: seq<Block>) {
    evm != [] && f != [] && Suffix(Init(evm), Init(f)) && SameButRoot(Last(evm), Last(f))
  }

  ghost predicate Refines(e: Env, s: State, start: Block, chain: seq<NativeBlock>)
    requires chain != []
  {
    Fold(e, start, chain).Success? && EndOf(s.evm, Fold(e, start, chain).value)
  }

  // ----- the root of an open block is irrelevant -----

  lemma CloseSame(e: Env, x: Block, y: Block)
    requires SameButRoot(x, y)
    ensures Close(e, x) == Close(e, y)
  {
    assert Close(e, x).header == x.header.(txRoot := 0).(txRoot := e.rootHash(x.transactions));
    assert Close(e, y).header == y.header.(txRoot := 0).(txRoot := e.rootHash(y.transactions));
    assert x.(header := x.header.(txRoot := 0)).transactions == y.(header := y.header.(txRoot := 0)).transactions;
    assert x.(header := x.header.(txRoot := 0)).header == y.(header := y.header.(txRoot := 0)).header;
    assert x.(header := x.header.(txRoot := 0)).irreversible == y.(header := y.header.(txRoot := 0)).irreversible;
    assert x.(header := x.header.(txRoot := 0)).cpi == y.(header := y.header.(txRoot := 0)).cpi;
    assert x.(header := x.header.(txRoot := 0)).gasPrices == y.(header := y.header.(txRoot := 0)).gasPrices;
  }

  /** Both fail alike, or both succeed with blocks equal up to the root. */
  predicate SameOutcome(r: Result<Block>, q: Result<Block>) {
    match (r, q)
    case (Success(x), Success(y)) => SameButRoot(x, y)
    case (Failure(f), Failure(g)) => f == g
    case _ => false
  }

  /** The block with another root and another irreversibility flag. */
  function Dress(x: Block, root: Hash, flag: bool): Block {
    x.(header := x.header.(txRoot := root), irreversible := flag)
  }

  function DressResult(r: Result<Block>, root: Hash, flag: bool): Result<Block> {
    match r
    case Success(x) => Success(Dress(x, root, flag))
    case Failure(f) => Failure(f)
  }

  /** Adding an action neither reads nor writes the root or the flag. */
  lemma {:induction false} ApplyActionDressed(e: Env, x: Block, a: Action, root: Hash, flag: bool)
    ensures ApplyAction(e, Dress(x, root, flag), a) == DressResult(ApplyAction(e, x, a), root, flag)
  {
    var d := Deserialize(e, a);
    if d.Success? {
      var x1 := ApplyVersion(x, d.value.version);
      assert ApplyVersion(Dress(x, root, flag), d.value.version) == DressResult(x1, root, flag);
      if x1.Success? {
        var x2 := ApplyPrices(e, x1.value, d.value);
        assert ApplyPrices(e, Dress(x1.value, root, flag), d.value) == DressResult(x2, root, flag);
        if x2.Success? {
          var x3 := ApplyBaseFee(x2.value, d.value);
          assert ApplyBaseFee(Dress(x2.value, root, flag), d.value) == DressResult(x3, root, flag);
        }
      }
    }
  }

  lemma {:induction false} ApplyAllDressed(e: Env, x: Block, acts: seq<Action>, root: Hash, flag: bool)
    ensures ApplyAll(e, Dress(x, root, flag), acts) == DressResult(ApplyAll(e, x, acts), root, flag)
    decreases |acts|
  {
    hide ApplyAction;
    if acts != [] {
      ApplyAllDressed(e, x, Init(acts), root, flag);
      var r := ApplyAll(e, x, Init(acts));
      if r.Success? { ApplyActionDressed(e, r.value, Last(acts), root, flag); }
    }
  }

  lemma {:induction false} AppendDressed(e: Env, x: Block, b: NativeBlock, root: Hash, flag: bool)
    ensures Append(e, Dress(x, root, flag), b) == DressResult(Append(e, x, b), root, b.blockNum <= b.lib)
  {
    hide ApplyAll;
    var r := ApplyConfig(e, x, b);
    assert ApplyConfig(e, Dress(x, root, flag), b) == DressResult(r, root, flag);
    if r.Success? { ApplyAllDressed(e, r.value, Actions(b), root, flag); }
  }

  lemma {:induction false} AppendSame(e: Env, x: Block, y: Block, b: NativeBlock)
    requires SameButRoot(x, y)
    ensures SameOutcome(Append(e, x, b), Append(e, y, b))
  {
    hide Append;
    assert x == Dress(y, x.header.txRoot, y.irreversible);
    AppendDressed(e, y, b, x.header.txRoot, y.irreversible);
    var r := Append(e, y, b);
    if r.Success? { assert r.value.irreversible == (b.blockNum <= b.lib) by { AppendBody(e, y, b); } }
  }

  lemma SameNumber(x: Block, y: Block)
    requires SameButRoot(x, y)
    ensures x.header.number == y.header.number
  {
    assert x == y.(header := y.header.(txRoot := x.header.txRoot));
  }

  lemma {:induction false} GrowSame(e: Env, x: Block, y: Block, b: NativeBlock)
    requires SameButRoot(x, y)
    ensures var r, q := Grow(e, x, b), Grow(e, y, b);
      && (r.Success? <==> q.Success?)
      && (r.Failure? && q.Failure? ==> r.error == q.error)
      && (r.Success? && q.Success? ==>
            |r.value| == |q.value| && Init(r.value) == Init(q.value) && SameButRoot(Last(r.value), Last(q.value)))
  {
    hide Append, Close, Fresh, EvmNum;
    CloseSame(e, x, y);
    var t, u := Tail(e, x, Num(e, b)), Tail(e, y, Num(e, b));
    SameNumber(x, y);
    assert Init(t) == Init(u) && SameButRoot(Last(t), Last(u));
    AppendSame(e, Last(t), Last(u), b);
  }

  // ----- the fold itself tracks the chain -----

  lemma ChainAdmissible(e: Env, start: Block, chain: seq<NativeBlock>)
    requires ChainOk(e, start, chain) && |chain| > 1
    ensures Admissible(e, Init(chain), Last(chain)) && Last(Init(chain)).id == Last(chain).prev
  {
    var rest, b := Init(chain), Last(chain);
    assert LinkedAt(e, chain, |chain| - 1);
    forall i | 0 <= i < |rest| && rest[i].id == b.prev
      ensures i == |rest| - 1
    {
      ChainIdsDistinct(e, start, chain, i, |rest| - 1);
    }
  }

  lemma {:induction false} FoldTracksStart(e: Env, start: Block, chain: seq<NativeBlock>)
    requires ChainOk(e, start, chain) && |chain| == 1
    ensures Tracks(e, State(chain, [start], None, []), start, chain) && KeysMatch(e, [start], start, chain)
  {
  }

  lemma {:induction false} FoldTracks(e: Env, start: Block, chain: seq<NativeBlock>)
    requires ChainOk(e, start, chain) && Fold(e, start, chain).Success?
    ensures var f := Fold(e, start, chain).value;
      && Tracks(e, State(chain, f, None, []), start, chain)
      && KeysMatch(e, f, start, chain)
      && f[0].header.number == start.header.number
    decreases |chain|
  {
    hide Tracks, KeysMatch, Grow, Admissible;
    if |chain| == 1 {
      FoldTracksStart(e, start, chain);
    } else {
      ChainPrefix(e, start, chain, |chain| - 1);
      FoldTracks(e, start, Init(chain));
      ChainAdmissible(e, start, chain);
      FoldTracksOne(e, start, Init(chain), Last(chain));
      assert Init(chain) + [Last(chain)] == chain;
    }
  }

  lemma {:induction false} FoldTracksOne(e: Env, start: Block, chain: seq<NativeBlock>, b: NativeBlock)
    requires Fold(e, start, chain + [b]).Success? && chain != [] && Fold(e, start, chain).Success?
    requires Tracks(e, State(chain, Fold(e, start, chain).value, None, []), start, chain)
    requires KeysMatch(e, Fold(e, start, chain).value, start, chain)
    requires Admissible(e, chain, b) && Last(chain).id == b.prev
    ensures var f, g := Fold(e, start, chain).value, Fold(e, start, chain + [b]).value;
      && Tracks(e, State(chain + [b], g, None, []), start, chain + [b])
      && KeysMatch(e, g, start, chain + [b])
      && g[0].header.number == f[0].header.number
  {
    FoldMore(e, start, chain, b);
    var s := State(chain, Fold(e, start, chain).value, None, []);
    GrownShape(e, Last(s.evm), b);
    ChainExtend(e, start, chain, b);
    TopBound(e, start, chain);
    GrowTracks(e, s, start, chain, b);
    GrowKeys(e, s, start, chain, b);
  }

  // ----- accepting a block that links -----

  lemma FoldMore(e: Env, start: Block, chain: seq<NativeBlock>, b: NativeBlock)
    requires chain != [] && Fold(e, start, chain).Success?
    ensures var f, r := Fold(e, start, chain).value, Fold(e, start, chain + [b]);
      && (r.Success? <==> Grow(e, Last(f), b).Success?)
      && (r.Success? ==> r.value == Init(f) + Grow(e, Last(f), b).value)
  {
    assert Init(chain + [b]) == chain && Last(chain + [b]) == b;
  }

  lemma SuffixMore<T>(p: seq<T>, q: seq<T>, more: seq<T>)
    requires Suffix(p, q)
    ensures Suffix(p + more, q + more)
  {
    assert p + more == (q + more)[|q| - |p|..];
  }

  lemma {:induction false} GrowEnd(e: Env, evm: seq<Block>, f: seq<Block>, b: NativeBlock)
    requires EndOf(evm, f)
    ensures Grow(e, Last(evm), b).Success? <==> Grow(e, Last(f), b).Success?
    ensures Grow(e, Last(evm), b).Success? ==>
      EndOf(Init(evm) + Grow(e, Last(evm), b).value, Init(f) + Grow(e, Last(f), b).value)
  {
    hide Grow, SameButRoot;
    GrowSame(e, Last(evm), Last(f), b);
    if Grow(e, Last(evm), b).Success? {
      var g, h := Grow(e, Last(evm), b).value, Grow(e, Last(f), b).value;
      SuffixMore(Init(evm), Init(f), Init(g));
      assert Init(Init(evm) + g) == Init(evm) + Init(g);
      assert Init(Init(f) + h) == Init(f) + Init(h);
      assert Last(Init(evm) + g) == Last(g) && Last(Init(f) + h) == Last(h);
    }
  }

  /** A block that links is accepted exactly when the fold accepts it, with equal results. */
  lemma {:induction false} AcceptRefines(e: Env, s: State, start: Block, chain: seq<NativeBlock>, b: NativeBlock)
    requires Tracks(e, s, start, chain) && Refines(e, s, start, chain)
    requires Admissible(e, chain, b) && Last(chain).id == b.prev
    ensures Accept(e, s, b).Success? <==> Fold(e, start, chain + [b]).Success?
    ensures Accept(e, s, b).Success? ==> Refines(e, Accept(e, s, b).value, start, chain + [b])
  {
    var f := Fold(e, start, chain).value;
    FoldMore(e, start, chain, b);
    GrowEnd(e, s.evm, f, b);
    if Accept(e, s, b).Success? {
      AcceptTracks(e, s, start, chain, b);
      var g := Grow(e, Last(s.evm), b).value;
      var s1 := State(s.native + [b], Init(s.evm) + g, s.lib, s.published + Init(g));
      PruneEnd(e, s1, b.lib, Fold(e, start, chain + [b]).value);
    }
  }

  lemma {:induction false} PruneEnd(e: Env, s: State, lib: nat, f: seq<Block>)
    requires EndOf(s.evm, f) && Prune(e, s, lib).evm != []
    ensures EndOf(Prune(e, s, lib).evm, f)
  {
    var r := Prune(e, s, lib);
    if r != s {
      Output.DropEvmSuffix(s.evm, r.lib.value);
      SuffixEnd(r.evm, s.evm, f);
    }
  }

  lemma SuffixEnd(r: seq<Block>, evm: seq<Block>, f: seq<Block>)
    requires r != [] && Suffix(r, evm) && EndOf(evm, f)
    ensures EndOf(r, f)
  {
    assert Init(r) == Init(evm)[|evm| - |r|..];
  }

  // ----- what dropped native blocks did to the fork point's EVM block -----

  function AppendAll(e: Env, x: Block, bs: seq<NativeBlock>): Result<Block> {
    if bs == [] then Success(x)
    else
      var y :- AppendAll(e, x, Init(bs));
      Append(e, y, Last(bs))
  }

  /** The native blocks after `chain[j]` in the same EVM block. */
  function Shared(e: Env, chain: seq<NativeBlock>, j: nat): seq<NativeBlock>
    requires j < |chain|
    decreases |chain|
  {
    if |chain| == j + 1 then []
    else
      var r := Shared(e, Init(chain), j);
      if Num(e, Last(chain)) == Num(e, chain[j]) then r + [Last(chain)] else r
  }

  function AllActions(bs: seq<NativeBlock>): seq<Action> {
    if bs == [] then [] else AllActions(Init(bs)) + Actions(Last(bs))
  }

  /** The consensus parameter index after the configs of `bs`. */
  function ConfigAfter(e: Env, cpi: Option<Hash>, bs: seq<NativeBlock>): Option<Hash> {
    if bs == [] then cpi
    else match Last(bs).newConfig
      case None => ConfigAfter(e, cpi, Init(bs))
      case Some(a) => e.readConfig(a.data)
  }

  /** Dropping `bs` from the EVM block whose kept part is `x` forgets no header change:
      `x` has transactions, or the last dropped config is the one in force and the first
      dropped action agrees with the header of `x`. */
  predicate Neutral(e: Env, x: Block, bs: seq<NativeBlock>) {
    || x.transactions != []
    || (ConfigAfter(e, x.cpi, bs) == x.cpi && (AllActions(bs) != [] ==> UnderKey(e, KeyOf(x), AllActions(bs)[0])))
  }

  /** The header fields fixed when a block is created. */
  function FrameOf(x: Block): (nat, Hash, nat, nat) {
    (x.header.number, x.header.parentHash, x.header.timestamp, x.header.rest)
  }

  lemma Parts(x: Block, y: Block)
    ensures SameButRoot(x, y) <==>
      BodyOf(x) == BodyOf(y) && FrameOf(x) == FrameOf(y) && KeyOf(x) == KeyOf(y) && x.cpi == y.cpi
  {
    if BodyOf(x) == BodyOf(y) && FrameOf(x) == FrameOf(y) && KeyOf(x) == KeyOf(y) && x.cpi == y.cpi {
      assert x.header.(txRoot := 0) == y.header.(txRoot := 0);
    }
  }

  lemma {:induction false} ApplyAllFixed(e: Env, x: Block, acts: seq<Action>)
    requires ApplyAll(e, x, acts).Success?
    ensures FrameOf(ApplyAll(e, x, acts).value) == FrameOf(x)
    decreases |acts|
  {
    if acts != [] { ApplyAllFixed(e, x, Init(acts)); }
  }

  /** What adding one native block does to an open block. */
  lemma {:induction false} AppendEffect(e: Env, x: Block, b: NativeBlock, before: seq<Action>)
    requires Append(e, x, b).Success?
    requires |before| == |x.transactions| && AllUnderKey(e, KeyOf(x), before)
    ensures var y, acts := Append(e, x, b).value, Actions(b);
      && FrameOf(y) == FrameOf(x)
      && |y.transactions| == |before + acts| && AllUnderKey(e, KeyOf(y), before + acts)
      && y.cpi == ConfigAfter(e, x.cpi, [b]) && (before != [] ==> y.cpi == x.cpi)
      && (before != [] || acts == [] || UnderKey(e, KeyOf(x), acts[0]) ==> KeyOf(y) == KeyOf(x))
  {
    var x1 := ApplyConfig(e, x, b).value;
    ApplyAllKey(e, x1, Actions(b), before);
    ApplyAllFixed(e, x1, Actions(b));
  }

  lemma {:induction false} AppendAllEffect(e: Env, x: Block, bs: seq<NativeBlock>, before: seq<Action>)
    requires AppendAll(e, x, bs).Success?
    requires |before| == |x.transactions| && AllUnderKey(e, KeyOf(x), before)
    ensures var y, acts := AppendAll(e, x, bs).value, AllActions(bs);
      && FrameOf(y) == FrameOf(x)
      && |y.transactions| == |before + acts| && AllUnderKey(e, KeyOf(y), before + acts)
      && y.cpi == ConfigAfter(e, x.cpi, bs) && (before != [] ==> y.cpi == x.cpi)
      && (before != [] || acts == [] || UnderKey(e, KeyOf(x), acts[0]) ==> KeyOf(y) == KeyOf(x))
    decreases |bs|
  {
    hide Append, AllUnderKey, UnderKey, FrameOf, KeyOf, Actions;
    if bs == [] {
      assert before + AllActions(bs) == before;
    } else {
      AppendAllEffect(e, x, Init(bs), before);
      var y, acts, b := AppendAll(e, x, Init(bs)).value, AllActions(Init(bs)), Last(bs);
      AppendEffect(e, y, b, before + acts);
      assert before + acts + Actions(b) == before + AllActions(bs);
      assert ConfigAfter(e, y.cpi, [b]) == ConfigAfter(e, x.cpi, bs);
    }
  }

  /** The dropped blocks left the header as it was exactly when they are neutral. */
  lemma {:induction false} NeutralExact(e: Env, x: Block, bs: seq<NativeBlock>, before: seq<Action>)
    requires AppendAll(e, x, bs).Success?
    requires |before| == |x.transactions| && AllUnderKey(e, KeyOf(x), before)
    ensures var y := AppendAll(e, x, bs).value;
      (KeyOf(y) == KeyOf(x) && y.cpi == x.cpi) <==> Neutral(e, x, bs)
  {
    AppendAllEffect(e, x, bs, before);
    var y, acts := AppendAll(e, x, bs).value, AllActions(bs);
    if before == [] && acts != [] {
      assert (before + acts)[0] == acts[0] && acts[0] in before + acts;
      assert UnderKey(e, KeyOf(y), acts[0]);
    }
  }

  // ----- the fold of a chain and of its prefix -----

  /** The fold of a chain is the fold of a prefix, whose open block then received the
      native blocks that share it, followed by later blocks. */
  ghost predicate ExtendsFold(e: Env, f: seq<Block>, cut: seq<Block>, shared: seq<NativeBlock>) {
    && cut != [] && |cut| <= |f|
    && f[..|cut| - 1] == Init(cut)
    && AppendAll(e, Last(cut), shared).Success?
    && SameButRoot(f[|cut| - 1], AppendAll(e, Last(cut), shared).value)
  }

  lemma {:induction false} ExtendShared(
    e: Env, f: seq<Block>, g: seq<Block>, b: NativeBlock, cut: seq<Block>, shared: seq<NativeBlock>)
    requires ExtendsFold(e, f, cut, shared) && |f| == |cut| && Last(f).header.number == Num(e, b)
    requires Grow(e, Last(f), b) == Success(g)
    ensures ExtendsFold(e, Init(f) + g, cut, shared + [b])
  {
    var y := AppendAll(e, Last(cut), shared).value;
    assert Init(shared + [b]) == shared;
    AppendSame(e, Last(f), y, b);
    var long := Init(f) + g;
    assert long[|cut| - 1] == g[0];
    assert long[..|cut| - 1] == f[..|cut| - 1];
  }

  lemma {:induction false} ExtendPast(
    e: Env, f: seq<Block>, g: seq<Block>, b: NativeBlock, cut: seq<Block>, shared: seq<NativeBlock>)
    requires ExtendsFold(e, f, cut, shared) && Last(f).header.number <= Num(e, b)
    requires |f| == |cut| ==> Last(f).header.number < Num(e, b)
    requires Grow(e, Last(f), b) == Success(g)
    ensures ExtendsFold(e, Init(f) + g, cut, shared)
  {
    var x, p, long := Last(f), |cut| - 1, Init(f) + g;
    if p == |f| - 1 {
      var t := Tail(e, x, Num(e, b));
      assert g[0] == Init(t)[0] == Close(e, x);
      assert long[p] == g[0];
      assert SameButRoot(Close(e, x), x);
    } else {
      assert long[p] == f[p];
    }
    assert long[..p] == f[..p];
  }

  /** Numbers of the folded blocks. */
  lemma {:induction false} FoldShape(e: Env, start: Block, chain: seq<NativeBlock>)
    requires ChainOk(e, start, chain) && Fold(e, start, chain).Success?
    ensures var f := Fold(e, start, chain).value;
      && Consecutive(f) && f[0].header.number == start.header.number
      && |f| == Top(e, start, chain) - start.header.number + 1
      && Last(f).header.number == Top(e, start, chain)
  {
    FoldTracks(e, start, chain);
    var f := Fold(e, start, chain).value;
    assert Last(f) == f[|f| - 1];
  }

  lemma {:induction false} FoldTop(e: Env, start: Block, chain: seq<NativeBlock>)
    requires ChainOk(e, start, chain) && Fold(e, start, chain).Success? && |chain| > 1
    ensures var f := Fold(e, start, chain).value;
      |f| == Num(e, Last(chain)) - start.header.number + 1 && Last(f).header.number == Num(e, Last(chain))
  {
    FoldShape(e, start, chain);
  }

  /** Where the next native block falls, seen from the fold and from the fold of a prefix. */
  lemma {:induction false} FoldPositions(
    e: Env, start: Block, chain: seq<NativeBlock>, j: nat, f: seq<Block>, cut: seq<Block>)
    requires ChainOk(e, start, chain) && 0 < j < |chain| - 1
    requires Fold(e, start, Init(chain)) == Success(f) && Fold(e, start, chain[..j + 1]) == Success(cut)
    ensures f != [] && Last(f).header.number <= Num(e, Last(chain))
    ensures if Num(e, Last(chain)) == Num(e, chain[j]) then |f| == |cut| && Last(f).header.number == Num(e, Last(chain))
            else |f| == |cut| ==> Last(f).header.number < Num(e, Last(chain))
  {
    hide Fold, Grow;
    ChainMonotone(e, start, chain, j, |chain| - 2);
    ChainMonotone(e, start, chain, |chain| - 2, |chain| - 1);
    assert Last(Init(chain)) == chain[|chain| - 2] && Last(chain[..j + 1]) == chain[j];
    assert |f| == Num(e, chain[|chain| - 2]) - start.header.number + 1
        && Last(f).header.number == Num(e, chain[|chain| - 2]) by {
      ChainPrefix(e, start, chain, |chain| - 1);
      FoldTop(e, start, Init(chain));
    }
    assert |cut| == Num(e, chain[j]) - start.header.number + 1 by {
      ChainPrefix(e, start, chain, j + 1);
      FoldTop(e, start, chain[..j + 1]);
    }
  }

  lemma {:induction false} FoldExtendsOne(
    e: Env, start: Block, chain: seq<NativeBlock>, j: nat, f: seq<Block>, cut: seq<Block>)
    requires ChainOk(e, start, chain) && 0 < j < |chain| - 1
    requires Fold(e, start, Init(chain)) == Success(f) && Fold(e, start, chain[..j + 1]) == Success(cut)
    requires ExtendsFold(e, f, cut, Shared(e, Init(chain), j))
    requires Grow(e, Last(f), Last(chain)).Success?
    ensures ExtendsFold(e, Init(f) + Grow(e, Last(f), Last(chain)).value, cut, Shared(e, chain, j))
  {
    FoldPositions(e, start, chain, j, f, cut);
    var g, shared := Grow(e, Last(f), Last(chain)).value, Shared(e, Init(chain), j);
    assert chain[j] == Init(chain)[j];
    if Num(e, Last(chain)) == Num(e, chain[j]) {
      ExtendShared(e, f, g, Last(chain), cut, shared);
    } else {
      ExtendPast(e, f, g, Last(chain), cut, shared);
    }
  }

  lemma ExtendsItself(e: Env, f: seq<Block>)
    requires f != []
    ensures ExtendsFold(e, f, f, [])
  {
    hide Append;
  }

  lemma {:induction false} FoldExtends(e: Env, start: Block, chain: seq<NativeBlock>, j: nat)
    requires ChainOk(e, start, chain) && 0 < j < |chain| && Fold(e, start, chain).Success?
    ensures var cut := Fold(e, start, chain[..j + 1]);
      cut.Success? && ExtendsFold(e, Fold(e, start, chain).value, cut.value, Shared(e, chain, j))
    decreases |chain|
  {
    hide LinkedAt, ExtendsFold, Grow;
    if j + 1 == |chain| {
      assert chain[..j + 1] == chain;
      ExtendsItself(e, Fold(e, start, chain).value);
    } else {
      assert Init(chain)[..j + 1] == chain[..j + 1];
      ChainPrefix(e, start, chain, |chain| - 1);
      FoldExtends(e, start, Init(chain), j);
      FoldExtendsOne(e, start, chain, j, Fold(e, start, Init(chain)).value, Fold(e, start, chain[..j + 1]).value);
    }
  }

  // ----- rolling back -----

  /** The rolled-back EVM blocks are, below the last, the fold's; the last keeps the fixed
      fields and the key of the block as it was before the rollback. */
  lemma {:induction false} RolledBackBlocks(
    e: Env, evm: seq<Block>, f: seq<Block>, r: seq<Block>, fc: seq<Block>, y: Block)
    requires EndOf(evm, f) && Consecutive(evm) && Consecutive(f)
    requires Output.CutOf(r, evm) && r != [] && Consecutive(r)
    requires fc != [] && |fc| <= |f| && Consecutive(fc) && f[..|fc| - 1] == Init(fc)
    requires f[0].header.number == fc[0].header.number && Last(r).header.number == Last(fc).header.number
    requires r[0].header.number == evm[0].header.number
    requires SameButRoot(f[|fc| - 1], y)
    ensures Suffix(Init(r), Init(fc))
    ensures FrameOf(Last(r)) == FrameOf(y) && KeyOf(Last(r)) == KeyOf(y) && Last(r).cpi == y.cpi
  {
    hide SameButRoot, FrameOf, KeyOf, Output.CutOf, Consecutive, EndOf;
    var d, m := |f| - |evm|, |r| - 1;
    Aligned(evm, f);
    CutLength(evm, f, r, fc);
    CutLower(evm, f, r, fc);
    CutHeader(r, evm);
    Parts(evm[m], f[m + d]);
    Parts(f[m + d], y);
  }

  /** The blocks of `evm` stand at the end of `f`. */
  lemma Aligned(evm: seq<Block>, f: seq<Block>)
    requires EndOf(evm, f)
    ensures evm != [] && |evm| <= |f|
    ensures forall i :: 0 <= i < |evm| ==> SameButRoot(evm[i], f[i + |f| - |evm|])
    ensures forall i :: 0 <= i < |evm| - 1 ==> evm[i] == f[i + |f| - |evm|]
  {
    hide SameButRoot;
    forall i | 0 <= i < |evm|
      ensures SameButRoot(evm[i], f[i + |f| - |evm|]) && (i < |evm| - 1 ==> evm[i] == f[i + |f| - |evm|])
    {
      if i < |evm| - 1 {
        assert Init(evm)[i] == Init(f)[i + |f| - |evm|];
        SameItself(evm[i]);
      }
    }
  }

  lemma SameItself(x: Block)
    ensures SameButRoot(x, x)
  {
  }

  /** Numbers say how far the cut lists reach. */
  lemma CutLength(evm: seq<Block>, f: seq<Block>, r: seq<Block>, fc: seq<Block>)
    requires evm != [] && |evm| <= |f| && Consecutive(evm) && Consecutive(f)
    requires r != [] && Consecutive(r) && fc != [] && Consecutive(fc)
    requires SameButRoot(evm[0], f[|f| - |evm|])
    requires f[0].header.number == fc[0].header.number && Last(r).header.number == Last(fc).header.number
    requires r[0].header.number == evm[0].header.number
    ensures |fc| == |r| + |f| - |evm|
  {
    SameNumber(evm[0], f[|f| - |evm|]);
    assert Last(r) == r[|r| - 1] && Last(fc) == fc[|fc| - 1];
  }

  lemma CutLower(evm: seq<Block>, f: seq<Block>, r: seq<Block>, fc: seq<Block>)
    requires Output.CutOf(r, evm) && r != [] && |evm| <= |f| && |fc| == |r| + |f| - |evm| && |fc| <= |f|
    requires forall i :: 0 <= i < |evm| - 1 ==> evm[i] == f[i + |f| - |evm|]
    requires f[..|fc| - 1] == Init(fc)
    ensures Suffix(Init(r), Init(fc))
  {
    var d := |f| - |evm|;
    forall i | 0 <= i < |r| - 1
      ensures r[i] == fc[i + d]
    {
      assert r[i] == evm[i] == f[i + d] == f[..|fc| - 1][i + d];
    }
    assert Init(r) == Init(fc)[d..];
  }

  lemma CutHeader(r: seq<Block>, evm: seq<Block>)
    requires Output.CutOf(r, evm) && r != []
    ensures var x := evm[|r| - 1]; FrameOf(Last(r)) == FrameOf(x) && KeyOf(Last(r)) == KeyOf(x) && Last(r).cpi == x.cpi
  {
    var h, g := Last(r).header.(prevRandao := 0), evm[|r| - 1].header.(prevRandao := 0);
    assert h == g;
    assert h.number == Last(r).header.number && g.number == evm[|r| - 1].header.number;
    assert h.version == Last(r).header.version && g.version == evm[|r| - 1].header.version;
  }

  /** What the fold's open block at `chain[j]` became once the later native blocks of the
      same EVM block were added, and whether that changed its header. */
  lemma {:induction false} SharedEffect(e: Env, start: Block, chain: seq<NativeBlock>, j: nat)
    requires ChainOk(e, start, chain) && 0 < j < |chain| && Fold(e, start, chain).Success?
    requires start.header.number < Num(e, chain[0])
    ensures Fold(e, start, chain[..j + 1]).Success?
    ensures var x, bs := Last(Fold(e, start, chain[..j + 1]).value), Shared(e, chain, j);
      && AppendAll(e, x, bs).Success?
      && FrameOf(AppendAll(e, x, bs).value) == FrameOf(x)
      && ((KeyOf(AppendAll(e, x, bs).value) == KeyOf(x) && AppendAll(e, x, bs).value.cpi == x.cpi) <==>
            Neutral(e, x, bs))
  {
    var cut, k, bs := chain[..j + 1], Num(e, chain[j]), Shared(e, chain, j);
    FoldExtends(e, start, chain, j);
    ChainPrefix(e, start, chain, j + 1);
    FoldTracks(e, start, cut);
    FoldShape(e, start, cut);
    ChainMonotone(e, start, chain, 0, j);
    ActsOfLength(e, start, cut, k);
    var fc := Fold(e, start, cut).value;
    var x := fc[|fc| - 1];
    assert x == Last(fc) && x.header.number == k;
    NeutralExact(e, x, bs, ActsOf(e, cut, k));
    AppendAllEffect(e, x, bs, ActsOf(e, cut, k));
  }

  /** The rolled-back state against the fold of the cut chain: equal below the open block,
      and in the open block the header key is the one the dropped blocks left. */
  lemma {:induction false} RolledBackState(e: Env, s: State, start: Block, chain: seq<NativeBlock>, j: nat)
    requires Tracks(e, s, start, chain) && Refines(e, s, start, chain)
    requires 0 < j < |chain| && |chain| - |s.native| <= j
    requires Rollback(e, s, chain[j]).Success?
    requires Fold(e, start, chain[..j + 1]).Success?
    requires ExtendsFold(e, Fold(e, start, chain).value, Fold(e, start, chain[..j + 1]).value, Shared(e, chain, j))
    ensures var r, fc := Rollback(e, s, chain[j]).value.evm, Fold(e, start, chain[..j + 1]).value;
      var y := AppendAll(e, Last(fc), Shared(e, chain, j)).value;
      && r != [] && Suffix(Init(r), Init(fc))
      && FrameOf(Last(r)) == FrameOf(y) && KeyOf(Last(r)) == KeyOf(y) && Last(r).cpi == y.cpi
  {
    hide Rollback, Expected, BodiesMatch, Neutral, AppendAll, FrameOf, KeyOf, BodyOf, Shared, Fold, EndOf, Grow;
    var r, cut := Rollback(e, s, chain[j]).value, chain[..j + 1];
    RollbackShape(e, s, start, chain, j);
    ChainPrefix(e, start, chain, j + 1);
    FoldShape(e, start, chain);
    FoldShape(e, start, cut);
    var f, fc := Fold(e, start, chain).value, Fold(e, start, cut).value;
    RolledBackBlocks(e, s.evm, f, r.evm, fc, AppendAll(e, Last(fc), Shared(e, chain, j)).value);
  }

  /** After a rollback the complete EVM blocks equal the fold of the shorter chain if and
      only if the dropped native blocks that shared the fork point's EVM block are neutral. */
  lemma {:induction false} RollbackRefinesExactly(e: Env, s: State, start: Block, chain: seq<NativeBlock>, j: nat)
    requires Tracks(e, s, start, chain) && Refines(e, s, start, chain)
    requires start.header.number < Num(e, chain[0])
    requires 0 < j < |chain| && |chain| - |s.native| <= j
    requires Rollback(e, s, chain[j]).Success?
    ensures var cut := Fold(e, start, chain[..j + 1]);
      && cut.Success?
      && (Refines(e, Rollback(e, s, chain[j]).value, start, chain[..j + 1]) <==>
            Neutral(e, Last(cut.value), Shared(e, chain, j)))
  {
    hide Rollback, Expected, BodiesMatch, Neutral, AppendAll, FrameOf, KeyOf, BodyOf, Shared, Fold, Grow, SameButRoot;
    var r, cut := Rollback(e, s, chain[j]).value, chain[..j + 1];
    SharedEffect(e, start, chain, j);
    FoldExtends(e, start, chain, j);
    RolledBackState(e, s, start, chain, j);
    RollbackShape(e, s, start, chain, j);
    ChainPrefix(e, start, chain, j + 1);
    OpenBody(e, start, cut);
    Parts(Last(r.evm), Last(Fold(e, start, cut).value));
  }

  lemma {:induction false} OpenBody(e: Env, start: Block, chain: seq<NativeBlock>)
    requires ChainOk(e, start, chain) && Fold(e, start, chain).Success?
    ensures var x := Last(Fold(e, start, chain).value);
      BodyOf(x) == Expected(e, start, chain, Top(e, start, chain))
  {
    FoldTracks(e, start, chain);
    var f := Fold(e, start, chain).value;
    assert Last(f) == f[|f| - 1];
  }

  lemma {:induction false} RollbackShape(e: Env, s: State, start: Block, chain: seq<NativeBlock>, j: nat)
    requires Tracks(e, s, start, chain)
    requires 0 < j < |chain| && |chain| - |s.native| <= j
    requires Rollback(e, s, chain[j]).Success?
    ensures var r, cut := Rollback(e, s, chain[j]).value.evm, chain[..j + 1];
      && Output.CutOf(r, s.evm) && r != [] && Consecutive(r) && Consecutive(s.evm)
      && r[0].header.number == s.evm[0].header.number && Last(r).header.number == Top(e, start, cut)
      && BodyOf(Last(r)) == Expected(e, start, cut, Top(e, start, cut))
  {
    RollbackTracks(e, s, start, chain, j);
    Output.RollbackCut(e, s, chain[j]);
    var r := Rollback(e, s, chain[j]).value.evm;
    assert Last(r) == r[|r| - 1];
    assert r[0].header.(prevRandao := 0).number == s.evm[0].header.(prevRandao := 0).number;
  }
}
