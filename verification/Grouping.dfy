/** The converter's cached EVM blocks are a left-to-right fold over the surviving
    native chain, whatever forks and duplicates were received on the way. */
module Grouping {
  import opened Types
  import opened Seqs
  import opened Conversion

  // ----- reference definition: a fold over the native chain -----

  /** What a native chain alone determines of an EVM block. */
  datatype Body = Body(number: nat, transactions: seq<Tx>, prevRandao: Hash, irreversible: bool)

  function BodyOf(x: Block): Body {
    Body(x.header.number, x.transactions, x.header.prevRandao, x.irreversible)
  }

  /** Equal up to the transactions root, which is out of date while a block is open. */
  predicate SameButRoot(x: Block, y: Block) {
    x.(header := x.header.(txRoot := 0)) == y.(header := y.header.(txRoot := 0))
  }

  function TxOf(e: Env, a: Action): Tx {
    match DecodeAction(e, a)
    case Success(tx) => tx
    case Failure(_) => Tx([])
  }

  function TxsOf(e: Env, acts: seq<Action>): seq<Tx> {
    if acts == [] then [] else TxsOf(e, Init(acts)) + [TxOf(e, Last(acts))]
  }

  function EmptyBody(k: nat): Body {
    Body(k, [], 0, false)
  }

  /** Body of EVM block `k`: the start block, then every native block of the chain that
      maps to `k`, in order; `chain[0]` stands for the start block itself. */
  function Expected(e: Env, start: Block, chain: seq<NativeBlock>, k: nat): (r: Body)
    requires chain != []
    ensures r.number == k
  {
    if |chain| == 1 then
      if k == start.header.number then BodyOf(start) else EmptyBody(k)
    else
      var r := Expected(e, start, Init(chain), k);
      var b := Last(chain);
      if Num(e, b) == k then Body(k, r.transactions + TxsOf(e, Actions(b)), b.id, b.blockNum <= b.lib) else r
  }

  /** The surviving chain after `b` is received. */
  function ChainStep(chain: seq<NativeBlock>, b: NativeBlock): (r: seq<NativeBlock>)
    requires chain != []
    ensures r != [] && r[0] == chain[0]
  {
    if Last(chain).id == b.prev then chain + [b]
    else if Find(chain, b.id).Some? then chain
    else match Find(chain, b.prev)
      case None => chain
      case Some(j) => chain[..j + 1] + [b]
  }

  function ChainRun(chain: seq<NativeBlock>, bs: seq<NativeBlock>): (r: seq<NativeBlock>)
    requires chain != []
    ensures r != []
  {
    if bs == [] then chain else ChainStep(ChainRun(chain, Init(bs)), Last(bs))
  }

  // ----- what the source of native blocks guarantees -----

  predicate Decodable(e: Env, acts: seq<Action>) {
    forall a :: a in acts ==> DecodeAction(e, a).Success?
  }

  predicate Follows(p: NativeBlock, b: NativeBlock) {
    && b.prev == p.id
    && b.blockNum == p.blockNum + 1
    && p.timestamp <= b.timestamp
  }

  /** Position `i` of a native chain is sound: its id carries its number, its time is in
      range, and it follows its predecessor with transactions that decode. */
  ghost predicate LinkedAt(e: Env, chain: seq<NativeBlock>, i: nat)
    requires i < |chain|
  {
    && chain[i].blockNum == e.idNum(chain[i].id)
    && InTime(e, chain[i])
    && (0 < i ==> Follows(chain[i - 1], chain[i]) && Decodable(e, Actions(chain[i])))
  }

  /** A linked native chain whose first element stands for the start block. */
  ghost predicate ChainOk(e: Env, start: Block, chain: seq<NativeBlock>) {
    && chain != []
    && start.header.number <= Num(e, chain[0])
    && (forall i :: 0 <= i < |chain| ==> LinkedAt(e, chain, i))
  }

  /** A received block is well formed, really follows the block it names, and does not
      compete with the first block after the start block. */
  ghost predicate Admissible(e: Env, chain: seq<NativeBlock>, b: NativeBlock) {
    && b.blockNum == e.idNum(b.id)
    && InTime(e, b)
    && (forall i :: 0 <= i < |chain| && chain[i].id == b.prev ==> Follows(chain[i], b))
    && (|chain| > 1 && chain[0].id == b.prev ==> b.id == chain[1].id)
  }

  ghost predicate AdmissibleRun(e: Env, chain: seq<NativeBlock>, bs: seq<NativeBlock>)
    requires chain != []
  {
    bs != [] ==> AdmissibleRun(e, chain, Init(bs)) && Admissible(e, ChainRun(chain, Init(bs)), Last(bs))
  }

  // ----- the invariant -----

  /** Number of the open EVM block after the whole chain. */
  function Top(e: Env, start: Block, chain: seq<NativeBlock>): nat
    requires chain != []
  {
    if |chain| == 1 then start.header.number else Num(e, Last(chain))
  }

  ghost predicate Consecutive(evm: seq<Block>) {
    forall i :: 0 <= i < |evm| ==> evm[i].header.number == evm[0].header.number + i
  }

  ghost predicate Suffix<T>(s: seq<T>, t: seq<T>) {
    |s| <= |t| && s == t[|t| - |s|..]
  }

  ghost predicate BodiesMatch(e: Env, evm: seq<Block>, start: Block, chain: seq<NativeBlock>)
    requires chain != []
  {
    forall i :: 0 <= i < |evm| ==> BodyOf(evm[i]) == Expected(e, start, chain, evm[i].header.number)
  }

  /** The state holds the end of the surviving chain, and its EVM blocks are those the
      chain determines. */
  ghost predicate Tracks(e: Env, s: State, start: Block, chain: seq<NativeBlock>) {
    && ChainOk(e, start, chain)
    && s.native != [] && Suffix(s.native, chain)
    && s.evm != [] && Consecutive(s.evm)
    && start.header.number <= s.evm[0].header.number <= Num(e, s.native[0])
    && Last(s.evm).header.number == Top(e, start, chain)
    && BodiesMatch(e, s.evm, start, chain)
  }

  // ----- chains -----

  lemma {:induction false} ChainRunAppend(chain: seq<NativeBlock>, bs: seq<NativeBlock>, cs: seq<NativeBlock>)
    requires chain != []
    ensures ChainRun(chain, bs + cs) == ChainRun(ChainRun(chain, bs), cs)
    decreases |cs|
  {
    hide ChainStep;
    if cs == [] {
      assert bs + cs == bs;
    } else {
      ChainRunAppend(chain, bs, Init(cs));
      assert Init(bs + cs) == bs + Init(cs) && Last(bs + cs) == Last(cs);
    }
  }

  lemma TracksOk(e: Env, s: State, start: Block, chain: seq<NativeBlock>)
    requires Tracks(e, s, start, chain)
    ensures ChainOk(e, start, chain) && chain != [] && |s.native| <= |chain|
  {
  }

  lemma {:induction false} ChainMonotone(e: Env, start: Block, chain: seq<NativeBlock>, i: nat, j: nat)
    requires ChainOk(e, start, chain) && i <= j < |chain|
    ensures chain[i].timestamp <= chain[j].timestamp && Num(e, chain[i]) <= Num(e, chain[j])
    ensures chain[j].blockNum == chain[i].blockNum + (j - i)
    ensures start.header.number <= Num(e, chain[i])
    decreases j, i
  {
    if i < j {
      ChainMonotone(e, start, chain, i, j - 1);
      assert LinkedAt(e, chain, j);
      EvmNumMonotone(e, chain[j - 1].timestamp, chain[j].timestamp);
    } else if 0 < i {
      ChainMonotone(e, start, chain, 0, i);
    }
  }

  lemma EvmNumMonotone(e: Env, t: nat, u: nat)
    requires t <= u
    ensures EvmNum(e, t) <= EvmNum(e, u)
  {
    assert t / MICROS <= u / MICROS;
  }

  lemma ChainIdsDistinct(e: Env, start: Block, chain: seq<NativeBlock>, i: nat, j: nat)
    requires ChainOk(e, start, chain) && i < |chain| && j < |chain| && chain[i].id == chain[j].id
    ensures i == j
  {
    assert LinkedAt(e, chain, i) && LinkedAt(e, chain, j);
    if i <= j { ChainMonotone(e, start, chain, i, j); } else { ChainMonotone(e, start, chain, j, i); }
  }

  lemma ChainPrefix(e: Env, start: Block, chain: seq<NativeBlock>, n: nat)
    requires ChainOk(e, start, chain) && 0 < n <= |chain|
    ensures ChainOk(e, start, chain[..n])
  {
    var cut := chain[..n];
    assert forall i :: 0 <= i < n ==> cut[i] == chain[i];
    forall i | 0 <= i < n
      ensures LinkedAt(e, cut, i)
    {
      assert LinkedAt(e, chain, i);
    }
  }

  lemma TopBound(e: Env, start: Block, chain: seq<NativeBlock>)
    requires ChainOk(e, start, chain)
    ensures start.header.number <= Top(e, start, chain)
    ensures Top(e, start, chain) <= Num(e, Last(chain))
  {
    ChainMonotone(e, start, chain, |chain| - 1, |chain| - 1);
  }

  // ----- the fold -----

  lemma {:induction false} ExpectedAboveTop(e: Env, start: Block, chain: seq<NativeBlock>, k: nat)
    requires ChainOk(e, start, chain) && Top(e, start, chain) < k
    ensures Expected(e, start, chain, k) == EmptyBody(k)
    decreases |chain|
  {
    TopBound(e, start, chain);
    if |chain| > 1 {
      ChainPrefix(e, start, chain, |chain| - 1);
      ChainMonotone(e, start, chain, |chain| - 2, |chain| - 1);
      TopBound(e, start, Init(chain));
      ExpectedAboveTop(e, start, Init(chain), k);
    }
  }

  /** Blocks past position `n` that map to `k` or above leave the blocks below `k` alone. */
  lemma {:induction false} ExpectedBelow(e: Env, start: Block, chain: seq<NativeBlock>, n: nat, m: nat)
    requires ChainOk(e, start, chain) && 0 < n <= |chain|
    requires n < |chain| ==> m < Num(e, chain[n])
    ensures Expected(e, start, chain, m) == Expected(e, start, chain[..n], m)
    decreases |chain|
  {
    if n == |chain| {
      assert chain[..n] == chain;
    } else {
      ChainMonotone(e, start, chain, n, |chain| - 1);
      ChainPrefix(e, start, chain, |chain| - 1);
      ExpectedBelow(e, start, Init(chain), n, m);
      assert Init(chain)[..n] == chain[..n];
    }
  }

  // ----- appending -----

  lemma {:induction false} ApplyActionBody(e: Env, x: Block, a: Action)
    requires ApplyAction(e, x, a).Success?
    ensures var y := ApplyAction(e, x, a).value;
      && DecodeAction(e, a).Success?
      && BodyOf(y) == BodyOf(x).(transactions := x.transactions + [TxOf(e, a)])
      && y.header.parentHash == x.header.parentHash
  {
  }

  lemma {:induction false} ApplyAllBody(e: Env, x: Block, acts: seq<Action>)
    requires ApplyAll(e, x, acts).Success?
    ensures var y := ApplyAll(e, x, acts).value;
      && Decodable(e, acts)
      && BodyOf(y) == BodyOf(x).(transactions := x.transactions + TxsOf(e, acts))
      && y.header.parentHash == x.header.parentHash
    decreases |acts|
  {
    if acts != [] {
      ApplyAllBody(e, x, Init(acts));
      var y := ApplyAll(e, x, Init(acts)).value;
      ApplyActionBody(e, y, Last(acts));
      assert x.transactions + TxsOf(e, Init(acts)) + [TxOf(e, Last(acts))] == x.transactions + TxsOf(e, acts);
      assert acts == Init(acts) + [Last(acts)];
    }
  }

  /** Appending adds exactly the transactions of `b`, names it as the block's upper bound,
      and touches nothing below. */
  lemma {:induction false} AppendBody(e: Env, x: Block, b: NativeBlock)
    requires Append(e, x, b).Success?
    ensures var y := Append(e, x, b).value;
      && Decodable(e, Actions(b))
      && BodyOf(y) == Body(x.header.number, x.transactions + TxsOf(e, Actions(b)), b.id, b.blockNum <= b.lib)
      && y.header.parentHash == x.header.parentHash
  {
    var x1 := ApplyConfig(e, x, b).value;
    ApplyAllBody(e, x1, Actions(b));
  }

  lemma {:induction false} TailShape(e: Env, x: Block, k: nat)
    ensures var t := Tail(e, x, k);
      && |t| == 1 + (if x.header.number < k then k - x.header.number else 0)
      && BodyOf(t[0]) == BodyOf(x)
      && (forall i :: 0 <= i < |t| ==> t[i].header.number == x.header.number + i)
      && (forall i :: 0 < i < |t| ==> BodyOf(t[i]) == EmptyBody(x.header.number + i))
    decreases if x.header.number < k then k - x.header.number else 0
  {
    if x.header.number < k {
      var y := Fresh(e, Close(e, x));
      var t, u := Tail(e, x, k), Tail(e, y, k);
      TailShape(e, y, k);
      assert t == [Close(e, x)] + u;
      forall i | 0 < i < |t|
        ensures t[i].header.number == x.header.number + i && BodyOf(t[i]) == EmptyBody(x.header.number + i)
      {
        assert t[i] == u[i - 1];
      }
    }
  }

  // ----- undoing -----

  predicate Canonical(e: Env, a: Action) {
    var d := Deserialize(e, a);
    d.Success? && e.decode(d.value.rlpx).Some? && e.encode(e.decode(d.value.rlpx).value) == d.value.rlpx
  }

  predicate AllCanonical(e: Env, acts: seq<Action>) {
    forall a :: a in acts ==> Canonical(e, a)
  }

  ghost predicate CollisionFree(e: Env) {
    forall x, y :: e.keccak(x) == e.keccak(y) ==> x == y
  }

  /** The hash comparison of one removal. */
  lemma UndoOne(e: Env, a: Action)
    requires DecodeAction(e, a).Success?
    ensures var d := Deserialize(e, a);
      && d.Success?
      && (Canonical(e, a) ==> e.keccak(d.value.rlpx) == e.keccak(e.encode(TxOf(e, a))))
      && (CollisionFree(e) && e.keccak(d.value.rlpx) == e.keccak(e.encode(TxOf(e, a))) ==> Canonical(e, a))
  {
    hide Deserialize;
  }

  lemma CanonicalSplit(e: Env, acts: seq<Action>, a: Action)
    ensures AllCanonical(e, acts + [a]) <==> AllCanonical(e, acts) && Canonical(e, a)
  {
    hide Canonical;
    assert forall x :: x in acts + [a] <==> x in acts || x == a;
  }

  /** The undo is the exact inverse of appending the same actions, and it is accepted
      exactly when each action's bytes are what re-encoding its transaction yields. */
  lemma {:induction false} UndoInverse(e: Env, pre: seq<Tx>, acts: seq<Action>)
    requires Decodable(e, acts)
    ensures var r := Undo(e, pre + TxsOf(e, acts), acts);
      && (r.Success? ==> r.value == pre)
      && (r.Failure? ==> r.error == UnableToRemoveTransaction)
      && (AllCanonical(e, acts) ==> r.Success?)
      && (CollisionFree(e) && r.Success? ==> AllCanonical(e, acts))
    decreases |acts|
  {
    hide Deserialize, DecodeAction, TxOf, Canonical, CollisionFree;
    if acts == [] {
      assert pre + TxsOf(e, acts) == pre;
    } else {
      var txs, a, rest := pre + TxsOf(e, acts), Last(acts), Init(acts);
      assert acts == rest + [a];
      assert txs == pre + TxsOf(e, rest) + [TxOf(e, a)];
      assert Init(txs) == pre + TxsOf(e, rest) && Last(txs) == TxOf(e, a);
      UndoInverse(e, pre, rest);
      UndoOne(e, a);
      CanonicalSplit(e, rest, a);
    }
  }
}
