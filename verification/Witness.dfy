/** Two concrete forks.  After the first the converter keeps a header field of a dropped
    native block, so the neutrality condition of `Headers` cannot be left out; at the second
    it stops, because a dropped transaction arrived wrapped.  The hash functions are
    arbitrary, collision-free ones included. */
module Witness {
  import opened Types
  import opened Seqs
  import opened Conversion
  import opened Grouping
  import opened RollbackProofs
  import Converters
  import Engine
  import Finality
  import FoldRuns
  import Output
  import Restart
  import Runs
  import StoreRestart

  datatype Hashes = Hashes(header: Header -> Hash, root: seq<Tx> -> Hash, bytes: Bytes -> Hash)

  /** First byte of a transaction wrapped in a string. */
  const WRAPPER := 184

  /** Both forms decode; encoding yields the form without wrapper. */
  function SampleDecode(d: Bytes): Option<Tx> {
    Some(Tx(if d != [] && d[0] == WRAPPER then d[1..] else d))
  }

  function SampleEnv(h: Hashes): Env {
    Env(1, 0, x => x % 100, h.header, h.root, h.root([]), n => 1 + n, (v, f) => f, (n, v, f) => 0, p => 0,
        d => None, d => Some(V1(1, d, 7)), d => None, SampleDecode, (t: Tx) => t.payload, h.bytes)
  }

  function SampleStart(h: Hashes): Block {
    Block(Header(1, 0, 2, 0, None, 10, h.root([]), 0), [], true, None, None)
  }

  /** Two native blocks of EVM block 2, the second with one transaction that raises the
      version, and a competitor of the second without transactions. */
  function Quiet(): NativeBlock {
    NativeBlock(11, 10, 11, 2_000_000, 11, None, [])
  }

  function Upgrade(rlpx: Bytes): NativeBlock {
    NativeBlock(12, 11, 12, 2_500_000, 11, None, [NativeTrx([Action(EvmTx, rlpx)])])
  }

  function Rival(): NativeBlock {
    NativeBlock(112, 11, 12, 2_500_000, 11, None, [])
  }

  function Version(r: Result<State>): Option<nat> {
    if r.Success? && r.value.evm != [] then Some(Last(r.value.evm).header.version) else None
  }

  // ----- the states on the way -----

  function Head(h: Hashes): NativeBlock {
    Converters.HeadBlock(SampleEnv(h), SampleStart(h))
  }

  function Open(h: Hashes, version: nat, fee: Option<nat>, id: Hash, txs: seq<Tx>, flag: bool): Block {
    Block(Header(2, h.header(SampleStart(h).header), 3, version, fee, id, h.root([]), 0), txs, flag, None, None)
  }

  function At(h: Hashes, native: seq<NativeBlock>, x: Block): State {
    State([Head(h)] + native, [SampleStart(h), x], Some(1), [SampleStart(h)])
  }

  function Before(h: Hashes): State {
    Converters.HeadState(SampleEnv(h), SampleStart(h))
  }

  lemma RunOneMore(e: Env, s: State, bs: seq<NativeBlock>, b: NativeBlock)
    ensures Run(e, s, bs + [b]) == if Run(e, s, bs).Success? then Step(e, Run(e, s, bs).value, b) else Run(e, s, bs)
  {
    hide Step;
    assert Init(bs + [b]) == bs;
  }

  lemma FirstStep(h: Hashes)
    ensures Step(SampleEnv(h), Before(h), Quiet()) == Success(At(h, [Quiet()], Open(h, 0, None, 11, [], true)))
  {
    var e, x, b := SampleEnv(h), SampleStart(h), Quiet();
    var head := Head(h);
    assert Num(e, b) == 2 && Num(e, head) == 2;
    assert Close(e, x) == x && Fresh(e, x) == Open(h, 0, None, 0, [], false);
    assert Tail(e, Fresh(e, x), 2) == [Fresh(e, x)];
    assert Tail(e, x, 2) == [x, Fresh(e, x)];
    assert Actions(b) == [];
    assert Append(e, Fresh(e, x), b) == Success(Open(h, 0, None, 11, [], true));
    assert Grow(e, x, b).value == [x, Open(h, 0, None, 11, [], true)];
    var s, y := Before(h), Open(h, 0, None, 11, [], true);
    assert s.native + [b] == [head, b] && Init(s.evm) + [x, y] == [x, y] && s.published + Init([x, y]) == [x];
    PruneNothing(e, State([head, b], [x, y], None, [x]), 11);
  }

  /** With the second cached block as the last irreversible one, nothing is dropped. */
  lemma PruneNothing(e: Env, s: State, lib: nat)
    requires |s.native| > 1 && s.native[0].blockNum <= lib && s.native[1].blockNum <= lib
    requires |s.native| > 2 ==> lib < s.native[2].blockNum
    requires Num(e, s.native[0]) == 2 && Num(e, s.native[1]) == 2
    requires s.evm != [] && s.evm[0].header.number == 1
    ensures Prune(e, s, lib) == s.(lib := Some(1))
  {
    hide EvmNum;
    var t := s.native[1..];
    assert t[0] == s.native[1] && (|t| > 1 ==> t[1] == s.native[2]);
    var u := t[1..];
    assert |u| > 0 ==> u[0] == s.native[2];
    assert UpperBound(u, lib) == 0;
    assert UpperBound(t, lib) == 1;
    assert UpperBound(s.native, lib) == 2;
  }

  lemma UpgradeActions(rlpx: Bytes)
    ensures Actions(Upgrade(rlpx)) == [Action(EvmTx, rlpx)]
  {
    var t := NativeTrx([Action(EvmTx, rlpx)]);
    assert Init([t]) == [] && Last([t]) == t;
    assert Flatten([t]) == Flatten([]) + t.actions;
  }

  /** The open block after the second native block. */
  function Upgraded(h: Hashes, rlpx: Bytes): Block {
    Open(h, 1, Some(7), 12, [SampleDecode(rlpx).value], false)
  }

  lemma UpgradeAction(h: Hashes, rlpx: Bytes)
    ensures ApplyAll(SampleEnv(h), Open(h, 0, None, 11, [], true), [Action(EvmTx, rlpx)]) ==
      Success(Open(h, 1, Some(7), 11, [SampleDecode(rlpx).value], true))
  {
    var e, x, act, tx := SampleEnv(h), Open(h, 0, None, 11, [], true), Action(EvmTx, rlpx), SampleDecode(rlpx).value;
    assert Deserialize(e, act) == Success(V1(1, rlpx, 7));
    assert ApplyVersion(x, 1) == Success(Open(h, 1, None, 11, [], true));
    assert ApplyPrices(e, Open(h, 1, None, 11, [], true), V1(1, rlpx, 7)) == Success(Open(h, 1, None, 11, [], true));
    assert ApplyBaseFee(Open(h, 1, None, 11, [], true), V1(1, rlpx, 7)) == Success(Open(h, 1, Some(7), 11, [], true));
    assert e.decode(rlpx) == Some(tx) && [] + [tx] == [tx];
    assert ApplyAction(e, x, act) == Success(Open(h, 1, Some(7), 11, [tx], true));
    assert Init([act]) == [] && ApplyAll(e, x, [act]) == ApplyAction(e, x, act);
  }

  lemma UpgradeStep(h: Hashes, rlpx: Bytes)
    ensures Step(SampleEnv(h), At(h, [Quiet()], Open(h, 0, None, 11, [], true)), Upgrade(rlpx)) ==
      Success(At(h, [Quiet(), Upgrade(rlpx)], Upgraded(h, rlpx)))
  {
    hide ApplyAll;
    var e, b, x, y := SampleEnv(h), Upgrade(rlpx), Open(h, 0, None, 11, [], true), Upgraded(h, rlpx);
    var s := At(h, [Quiet()], x);
    assert Num(e, b) == 2;
    UpgradeActions(rlpx);
    UpgradeAction(h, rlpx);
    assert Append(e, x, b) == Success(y);
    assert Grow(e, x, b).value == [y];
    assert s.native + [b] == At(h, [Quiet(), b], y).native && Init(s.evm) + [y] == [SampleStart(h), y];
    assert s.published + Init([y]) == s.published;
    PruneNothing(e, At(h, [Quiet(), b], y), 11);
  }

  lemma QuietGrow(h: Hashes, version: nat, fee: Option<nat>)
    ensures Grow(SampleEnv(h), Open(h, version, fee, 11, [], true), Rival()) ==
      Success([Open(h, version, fee, 112, [], false)])
  {
    var e, b, x := SampleEnv(h), Rival(), Open(h, version, fee, 11, [], true);
    assert Num(e, b) == 2 && Actions(b) == [] && ApplyAll(e, x, []) == Success(x);
    assert Tail(e, x, 2) == [x];
    assert Append(e, x, b) == Success(Open(h, version, fee, 112, [], false));
    assert Init([x]) == [] && [] + [Open(h, version, fee, 112, [], false)] == [Open(h, version, fee, 112, [], false)];
  }

  lemma QuietAppend(h: Hashes, version: nat, fee: Option<nat>)
    ensures Accept(SampleEnv(h), At(h, [Quiet()], Open(h, version, fee, 11, [], true)), Rival()) ==
      Success(At(h, [Quiet(), Rival()], Open(h, version, fee, 112, [], false)))
  {
    hide Grow, SampleEnv, Prune;
    var e, b, x, y := SampleEnv(h), Rival(), Open(h, version, fee, 11, [], true), Open(h, version, fee, 112, [], false);
    var s := At(h, [Quiet()], x);
    QuietGrow(h, version, fee);
    SampleNum(h);
    assert s.native + [b] == At(h, [Quiet(), b], y).native && Init(s.evm) + [y] == [SampleStart(h), y];
    assert s.published + Init([y]) == s.published;
    HeadNumber(h);
    PruneNothing(e, At(h, [Quiet(), b], y), 11);
  }

  lemma HeadNumber(h: Hashes)
    ensures Head(h).blockNum == 10 && Num(SampleEnv(h), Head(h)) == 2
  {
  }

  /** Undoing the second native block compares its bytes with the transaction's encoding. */
  lemma UndoUpgrade(h: Hashes, rlpx: Bytes)
    ensures var e, tx := SampleEnv(h), SampleDecode(rlpx).value;
      var s := At(h, [Quiet(), Upgrade(rlpx)], Upgraded(h, rlpx));
      UndoIfShared(e, s.evm, Upgrade(rlpx), Quiet()) ==
        if h.bytes(rlpx) != h.bytes(tx.payload) then Failure(UnableToRemoveTransaction)
        else Success([SampleStart(h), Open(h, 1, Some(7), 12, [], false)])
  {
    var e, b, tx, act := SampleEnv(h), Upgrade(rlpx), SampleDecode(rlpx).value, Action(EvmTx, rlpx);
    var evm := At(h, [Quiet(), b], Upgraded(h, rlpx)).evm;
    UpgradeActions(rlpx);
    assert Num(e, Quiet()) == 2 && Num(e, b) == 2;
    assert Deserialize(e, act) == Success(V1(1, rlpx, 7)) && Last([act]) == act && Last([tx]) == tx;
    assert Init([act]) == [] && Init([tx]) == [] && Undo(e, [], []) == Success([]);
    assert Init(evm) + [Open(h, 1, Some(7), 12, [], false)] == [SampleStart(h), Open(h, 1, Some(7), 12, [], false)];
  }

  /** The rival is not cached, and forks at the first native block. */
  lemma RivalForks(h: Hashes, rlpx: Bytes)
    ensures var e, s := SampleEnv(h), At(h, [Quiet(), Upgrade(rlpx)], Upgraded(h, rlpx));
      Step(e, s, Rival()) ==
        match Rollback(e, s, Quiet())
        case Failure(error) => Failure(error)
        case Success(s1) => Accept(e, s1, Rival())
  {
    hide Rollback, Accept;
    var s := At(h, [Quiet(), Upgrade(rlpx)], Upgraded(h, rlpx));
    assert s.native[0].id == 10 && s.native[1].id == 11 && s.native[2].id == 12;
    assert Find(s.native, 112).None?;
    assert Find(s.native, 11).Some?;
  }

  lemma RollbackUpgrade(h: Hashes, rlpx: Bytes)
    ensures var e, s := SampleEnv(h), At(h, [Quiet(), Upgrade(rlpx)], Upgraded(h, rlpx));
      Rollback(e, s, Quiet()) ==
        if h.bytes(rlpx) != h.bytes(SampleDecode(rlpx).value.payload) then Failure(UnableToRemoveTransaction)
        else Success(At(h, [Quiet()], Open(h, 1, Some(7), 11, [], true)))
  {
    hide UndoIfShared, SampleEnv;
    var e, fork := SampleEnv(h), Quiet();
    var s, s1 := At(h, [fork, Upgrade(rlpx)], Upgraded(h, rlpx)), At(h, [fork], Open(h, 1, Some(7), 12, [], false));
    SampleNum(h);
    UndoUpgrade(h, rlpx);
    assert PopEvm(s.evm, 2) == s.evm && s.(evm := PopEvm(s.evm, 2)) == s;
    assert Last(s.native) == Upgrade(rlpx) && Init(s.native) == s1.native && Last(s1.native) == fork;
    var evm := UndoIfShared(e, s.evm, Upgrade(rlpx), fork);
    assert evm.Success? ==> s.(native := Init(s.native), evm := evm.value) == s1;
    assert PopNative(e, s1, fork) == Success(s1);
    assert PopNative(e, s, fork) == if evm.Failure? then Failure(evm.error) else Success(s1);
    assert SetUpperBound(Last(s1.evm), fork) == Open(h, 1, Some(7), 11, [], true);
    assert Init(s1.evm) + [Open(h, 1, Some(7), 11, [], true)] == At(h, [fork], Open(h, 1, Some(7), 11, [], true)).evm;
  }

  lemma SampleNum(h: Hashes)
    ensures Num(SampleEnv(h), Quiet()) == 2
  {
  }

  lemma SampleChains(h: Hashes, rlpx: Bytes)
    ensures var e, chain := SampleEnv(h), [Head(h)];
      var forked, plain := [Quiet(), Upgrade(rlpx), Rival()], [Quiet(), Rival()];
      && AdmissibleRun(e, chain, forked) && AdmissibleRun(e, chain, plain)
      && ChainRun(chain, forked) == ChainRun(chain, plain)
  {
    var e, a, b, c := SampleEnv(h), Quiet(), Upgrade(rlpx), Rival();
    var head := Head(h);
    var chain := [head];
    assert Init([a, b, c]) == [a, b] && Init([a, b]) == [a] && Init([a, c]) == [a] && Init([a]) == [];
    assert ChainRun(chain, [a]) == [head, a];
    assert ChainRun(chain, [a, b]) == [head, a, b];
    assert Find([head, a, b], 112).None?;
    assert ChainRun(chain, [a, b, c]) == [head, a, c];
    assert ChainRun(chain, [a, c]) == [head, a, c];
    assert AdmissibleRun(e, chain, []);
    assert AdmissibleRun(e, chain, [a]);
    assert AdmissibleRun(e, chain, [a, b]);
  }

  /** The run up to the second native block, and one block more. */
  lemma UpgradeRun(h: Hashes, rlpx: Bytes)
    ensures var e, forked := SampleEnv(h), [Quiet(), Upgrade(rlpx)];
      && Run(e, Before(h), forked) == Success(At(h, forked, Upgraded(h, rlpx)))
      && Run(e, Before(h), forked + [Rival()]) == Step(e, At(h, forked, Upgraded(h, rlpx)), Rival())
      && Run(e, Before(h), [Quiet()]) == Success(At(h, [Quiet()], Open(h, 0, None, 11, [], true)))
  {
    hide Step, SampleEnv, Before, Quiet, Upgrade, Rival, At, Open, Upgraded;
    var e, a, b, c := SampleEnv(h), Quiet(), Upgrade(rlpx), Rival();
    assert Run(e, Before(h), []) == Success(Before(h));
    FirstStep(h);
    UpgradeStep(h, rlpx);
    assert [] + [a] == [a] && [a] + [b] == [a, b];
    RunOneMore(e, Before(h), [], a);
    RunOneMore(e, Before(h), [a], b);
    RunOneMore(e, Before(h), [a, b], c);
  }

  // ----- the results -----

  /** Both runs are accepted and end in the same native chain, yet their open EVM blocks have
      different versions: the dropped block raised the version and the fork left it raised. */
  lemma {:induction false} HeaderDependsOnHistory(h: Hashes)
    ensures var e, chain := SampleEnv(h), [Head(h)];
      var forked, plain := [Quiet(), Upgrade([5]), Rival()], [Quiet(), Rival()];
      && AdmissibleRun(e, chain, forked) && AdmissibleRun(e, chain, plain)
      && ChainRun(chain, forked) == ChainRun(chain, plain)
      && Version(Run(e, Before(h), forked)) == Some(1)
      && Version(Run(e, Before(h), plain)) == Some(0)
  {
    hide Run, Step, AdmissibleRun, ChainRun, Accept, Rollback, SampleEnv, Head;
    var e, s, a := SampleEnv(h), Before(h), Quiet();
    UpgradeRun(h, [5]);
    RivalForks(h, [5]);
    RollbackUpgrade(h, [5]);
    QuietAppend(h, 1, Some(7));
    QuietAppend(h, 0, None);
    PlainStep(h);
    assert [a, Upgrade([5])] + [Rival()] == [a, Upgrade([5]), Rival()] && [a] + [Rival()] == [a, Rival()];
    RunOneMore(e, s, [a], Rival());
    SampleChains(h, [5]);
  }

  lemma PlainStep(h: Hashes)
    ensures var e, s := SampleEnv(h), At(h, [Quiet()], Open(h, 0, None, 11, [], true));
      Step(e, s, Rival()) == Accept(e, s, Rival())
  {
    hide Accept;
  }

  /** A transaction that arrived wrapped is accepted, and stops the node when a fork drops it. */
  lemma {:induction false} WrappedStopsFork(h: Hashes)
    requires h.bytes([WRAPPER, 5]) != h.bytes([5])
    ensures var e, bs := SampleEnv(h), [Quiet(), Upgrade([WRAPPER, 5])];
      && AdmissibleRun(e, [Head(h)], bs + [Rival()])
      && Run(e, Before(h), bs).Success?
      && Run(e, Before(h), bs + [Rival()]) == Failure(UnableToRemoveTransaction)
  {
    hide Run, Step, AdmissibleRun, ChainRun, Accept, Rollback, SampleEnv, Head;
    var rlpx := [WRAPPER, 5];
    assert rlpx[1..] == [5] && SampleDecode(rlpx).value == Tx([5]);
    UpgradeRun(h, rlpx);
    RivalForks(h, rlpx);
    RollbackUpgrade(h, rlpx);
    SampleChains(h, rlpx);
    assert [Quiet(), Upgrade(rlpx)] + [Rival()] == [Quiet(), Upgrade(rlpx), Rival()];
  }

  // ----- the hypotheses of the restart theorem can be met -----

  /** A node that stops after the first native block: its store holds the start block. */
  function SampleStore(h: Hashes): Engine.Store {
    Engine.Store(map[1 := SampleStart(h)], 1, Some(1))
  }

  lemma SampleSource(h: Hashes)
    ensures Finality.SourceRun(SampleEnv(h), [Head(h)], 0, [Quiet()])
  {
    assert Init([Quiet()]) == [] && Last([Quiet()]) == Quiet();
    assert Finality.Offers([Head(h)], 0, Quiet(), 0);
  }

  lemma {:induction false} SampleRestart(h: Hashes)
    ensures StoreRestart.GoodRun(SampleEnv(h), SampleStart(h), [Quiet()] + [])
    ensures var r := StoreRestart.After(SampleEnv(h), SampleStart(h), [Quiet()]);
      StoreRestart.Keeps(SampleStore(h), 1, r.published, 1) && r.lib == Some(1) == SampleStore(h).lib
  {
    hide Step, Finality.SourceRun;
    var e, s, bs := SampleEnv(h), Before(h), [Quiet()];
    assert bs + [] == bs && Init(bs) == [] && Last(bs) == Quiet();
    SampleSource(h);
    FirstStep(h);
    assert Run(e, s, []) == Success(s);
    assert FoldRuns.BenignRun(e, s, SampleStart(h), [Head(h)], []);
    assert Runs.Classify([Head(h)], 0, Quiet()).Links?;
    assert Output.LastNumbered([SampleStart(h)], 1) == Some(SampleStart(h));
    assert [SampleStart(h)][..1] == [SampleStart(h)];
  }
}
