/** What one received native block does to the converter's state, as functions.
    The class in Converter.dfy works in place and is proved to compute `Step`. */
module Conversion {
  import opened Types
  import opened Seqs

  datatype State = State(
    native: seq<NativeBlock>,
    evm: seq<Block>,
    lib: Option<nat>,
    published: seq<Block>)

  const MICROS := 1_000_000
  const TWO_TO_THE_32 := 0x1_0000_0000

  /** Number of the EVM block an Antelope timestamp belongs to. */
  function EvmNum(e: Env, timestamp: nat): nat {
    var s := timestamp / MICROS;
    if s < e.genesis then 0 else 1 + (s - e.genesis)
  }

  function Num(e: Env, b: NativeBlock): nat {
    EvmNum(e, b.timestamp)
  }

  /** At or after genesis, and early enough for a 32-bit EVM block number. */
  predicate InTime(e: Env, b: NativeBlock) {
    1 <= Num(e, b) < TWO_TO_THE_32
  }

  /** The 32-bit `n - 1`. */
  function MinusOne32(n: nat): nat {
    if n == 0 then TWO_TO_THE_32 - 1 else n - 1
  }

  // ----- actions -----

  /** The actions of a list of transactions, in execution order. */
  function Flatten(trxs: seq<NativeTrx>): seq<Action> {
    if trxs == [] then [] else Flatten(Init(trxs)) + Last(trxs).actions
  }

  function Actions(b: NativeBlock): seq<Action> {
    Flatten(b.transactions)
  }

  function Deserialize(e: Env, a: Action): Result<ActionTx> {
    if a.name == PushTx then
      match e.readPush(a.data)
      case None => Failure(BadAction)
      case Some(rlpx) => Success(V1(0, rlpx, 0))
    else
      match e.readEvm(a.data)
      case None => Failure(BadAction)
      case Some(tx) => Success(tx)
  }

  function DecodeAction(e: Env, a: Action): Result<Tx> {
    var d :- Deserialize(e, a);
    match e.decode(d.rlpx)
    case None => Failure(DecodeFailed)
    case Some(tx) => Success(tx)
  }

  // ----- extending the EVM chain -----

  /** A new, empty EVM block on top of `last`. */
  function Fresh(e: Env, last: Block): Block {
    var version := if last.header.number == 0 then e.genesisVersion else last.header.version;
    var n := last.header.number + 1;
    var fee := last.header.baseFee;
    Block(Header(n, e.headerHash(last.header), e.blockTime(n), version, e.headerFee(version, fee),
                 0, e.emptyRoot, e.headerRest(n, version, fee)),
          [], false, last.cpi, last.gasPrices)
  }

  /** The block as it is published: its transactions root is up to date. */
  function Close(e: Env, x: Block): Block {
    x.(header := x.header.(txRoot := e.rootHash(x.transactions)))
  }

  /** What the last block `x` becomes when the chain is extended up to number `k`:
      closed blocks, then one open block. */
  function Tail(e: Env, x: Block, k: nat): (r: seq<Block>)
    ensures r != []
    decreases if x.header.number < k then k - x.header.number else 0
  {
    if x.header.number < k then [Close(e, x)] + Tail(e, Fresh(e, Close(e, x)), k) else [x]
  }

  // ----- adding a native block to the open EVM block -----

  function SetUpperBound(x: Block, b: NativeBlock): Block {
    x.(header := x.header.(prevRandao := b.id), irreversible := b.blockNum <= b.lib)
  }

  function ApplyConfig(e: Env, x: Block, b: NativeBlock): Result<Block> {
    match b.newConfig
    case None => Success(x)
    case Some(a) =>
      if x.transactions != [] then Failure(ConfigMidBlock)
      else match e.readConfig(a.data)
        case None => Failure(BadAction)
        case Some(h) => Success(x.(cpi := Some(h)))
  }

  /** An action may raise the version of an empty block and must otherwise agree with it. */
  function ApplyVersion(x: Block, version: nat): Result<Block> {
    if version < x.header.version then Failure(VersionTooLow)
    else if version == x.header.version then Success(x)
    else if x.transactions == [] then Success(x.(header := x.header.(version := version)))
    else Failure(VersionTooHigh)
  }

  function ApplyPrices(e: Env, x: Block, d: ActionTx): Result<Block> {
    if x.header.version < 3 then Success(x)
    else if !d.V3? then Failure(WrongVariant)
    else if x.gasPrices.Some? && x.gasPrices.value != d.prices && x.transactions != [] then
      Failure(GasPricesDiffer)
    else
      Success(x.(gasPrices := Some(d.prices), header := x.header.(baseFee := Some(e.feeOf(d.prices)))))
  }

  function ApplyBaseFee(x: Block, d: ActionTx): Result<Block> {
    if !(1 <= x.header.version < 3) then Success(x)
    else if !d.V1? then Failure(WrongVariant)
    else if x.header.baseFee.Some? && x.header.baseFee.value != d.baseFee && x.transactions != [] then
      Failure(BaseFeeDiffers)
    else
      Success(x.(header := x.header.(baseFee := Some(d.baseFee))))
  }

  /** Adds the transaction of one action to the open block. */
  function ApplyAction(e: Env, x: Block, a: Action): Result<Block> {
    var d :- Deserialize(e, a);
    var x1 :- ApplyVersion(x, d.version);
    var x2 :- ApplyPrices(e, x1, d);
    match e.decode(d.rlpx)
    case None => Failure(DecodeFailed)
    case Some(tx) =>
      var x3 :- ApplyBaseFee(x2, d);
      Success(x3.(transactions := x3.transactions + [tx]))
  }

  function ApplyAll(e: Env, x: Block, acts: seq<Action>): Result<Block> {
    if acts == [] then Success(x)
    else
      var y :- ApplyAll(e, x, Init(acts));
      ApplyAction(e, y, Last(acts))
  }

  /** Adds native block `b` to the open EVM block `x`. */
  function Append(e: Env, x: Block, b: NativeBlock): Result<Block> {
    var x1 :- ApplyConfig(e, x, b);
    var x2 :- ApplyAll(e, x1, Actions(b));
    Success(SetUpperBound(x2, b))
  }

  /** Extends up to the EVM block of `b` and adds `b` there. */
  function Grow(e: Env, x: Block, b: NativeBlock): (r: Result<seq<Block>>)
    ensures r.Success? ==> r.value != []
  {
    var tail := Tail(e, x, Num(e, b));
    var last :- Append(e, Last(tail), b);
    Success(Init(tail) + [last])
  }

  // ----- rolling back to a fork point -----

  function PopEvm(evm: seq<Block>, k: nat): seq<Block> {
    if evm != [] && k < Last(evm).header.number then PopEvm(Init(evm), k) else evm
  }

  /** Removes the transactions of `acts` from the end of `txs`, last action first. */
  function Undo(e: Env, txs: seq<Tx>, acts: seq<Action>): Result<seq<Tx>> {
    if acts == [] then Success(txs)
    else
      var d :- Deserialize(e, Last(acts));
      if txs == [] then Failure(Undefined)
      else if e.keccak(d.rlpx) != e.keccak(e.encode(Last(txs))) then Failure(UnableToRemoveTransaction)
      else Undo(e, Init(txs), Init(acts))
  }

  function UndoBlock(e: Env, evm: seq<Block>, b: NativeBlock): Result<seq<Block>> {
    if evm == [] || Num(e, b) != Last(evm).header.number then Failure(UnableToRemoveTransactions)
    else
      var txs :- Undo(e, Last(evm).transactions, Actions(b));
      Success(Init(evm) + [Last(evm).(transactions := txs)])
  }

  /** Undoes `b` if it has transactions and they are in the EVM block of `fork`. */
  function UndoIfShared(e: Env, evm: seq<Block>, b: NativeBlock, fork: NativeBlock): Result<seq<Block>> {
    if b.transactions != [] && Num(e, b) == Num(e, fork) then UndoBlock(e, evm, b) else Success(evm)
  }

  /** Pops native blocks down to `fork`, undoing those in the EVM block of `fork`. */
  function PopNative(e: Env, s: State, fork: NativeBlock): Result<State>
    decreases |s.native|
  {
    if s.native == [] || Last(s.native).id == fork.id then Success(s)
    else
      var b := Last(s.native);
      var evm :- UndoIfShared(e, s.evm, b, fork);
      PopNative(e, s.(native := Init(s.native), evm := evm), fork)
  }

  function Rollback(e: Env, s: State, fork: NativeBlock): Result<State> {
    var s1 :- PopNative(e, s.(evm := PopEvm(s.evm, Num(e, fork))), fork);
    if s1.native == [] then Failure(Undefined)
    else if s1.evm == [] || Num(e, Last(s1.native)) != Last(s1.evm).header.number then
      Failure(UnableToSetUpperBound)
    else
      Success(s1.(evm := Init(s1.evm) + [SetUpperBound(Last(s1.evm), Last(s1.native))]))
  }

  // ----- pruning below the last irreversible block -----

  /** Number of leading blocks numbered at or below `lib`. */
  function UpperBound(native: seq<NativeBlock>, lib: nat): (n: nat)
    ensures n <= |native|
  {
    if native == [] || lib < native[0].blockNum then 0 else 1 + UpperBound(native[1..], lib)
  }

  function DropNativeBelow(e: Env, native: seq<NativeBlock>, h: nat): seq<NativeBlock> {
    if native != [] && Num(e, native[0]) < h then DropNativeBelow(e, native[1..], h) else native
  }

  function DropEvmBelow(evm: seq<Block>, h: nat): seq<Block> {
    if evm != [] && evm[0].header.number < h then DropEvmBelow(evm[1..], h) else evm
  }

  function PruneBelow(e: Env, s: State, h: nat): State {
    State(DropNativeBelow(e, s.native, h), DropEvmBelow(s.evm, h), Some(h), s.published)
  }

  /** The number below the EVM block of the last cached native block at or below `lib`
      becomes the last irreversible EVM block. */
  function Prune(e: Env, s: State, lib: nat): State {
    var n := UpperBound(s.native, lib);
    if n == 0 then s else PruneBelow(e, s, MinusOne32(Num(e, s.native[n - 1])))
  }

  // ----- the whole step -----

  /** Index of the first block with this id. */
  function Find(native: seq<NativeBlock>, id: Hash): (r: Option<nat>)
    ensures r.Some? ==> r.value < |native| && native[r.value].id == id
    ensures r.None? ==> forall i :: 0 <= i < |native| ==> native[i].id != id
  {
    if native == [] then None
    else if native[0].id == id then Some(0)
    else match Find(native[1..], id)
      case None => None
      case Some(i) => Some(i + 1)
  }

  /** Enqueues `b`, which follows the last cached native block. */
  function Accept(e: Env, s: State, b: NativeBlock): Result<State> {
    if s.evm == [] then Failure(Undefined)
    else
      var grown :- Grow(e, Last(s.evm), b);
      var s1 := State(s.native + [b], Init(s.evm) + grown, s.lib, s.published + Init(grown));
      Success(Prune(e, s1, b.lib))
  }

  /** The handler: a block links, is a duplicate, or starts a fork. */
  function Step(e: Env, s: State, b: NativeBlock): Result<State> {
    if s.native == [] || Last(s.native).id == b.prev then Accept(e, s, b)
    else if Find(s.native, b.id).Some? then Success(s)
    else match Find(s.native, b.prev)
      case None => Failure(NoForkBlock)
      case Some(j) =>
        var s1 :- Rollback(e, s, s.native[j]);
        Accept(e, s1, b)
  }

  /** Several received blocks; an exception ends the run. */
  function Run(e: Env, s: State, bs: seq<NativeBlock>): Result<State> {
    if bs == [] then Success(s)
    else
      var s1 :- Run(e, s, Init(bs));
      Step(e, s1, Last(bs))
  }
}
