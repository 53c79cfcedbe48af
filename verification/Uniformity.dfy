/** All transactions of one EVM block were added under that block's version, base fee and
    gas prices, even after rollbacks. */
module Uniformity {
  import opened Types
  import opened Seqs
  import opened Conversion
  import opened Grouping
  import opened RollbackProofs
  import opened Runs
  import Output

  /** The actions of the chain that belong to EVM block `k`, in order. */
  function ActsOf(e: Env, chain: seq<NativeBlock>, k: nat): seq<Action>
    requires chain != []
  {
    if |chain| == 1 then []
    else
      var r := ActsOf(e, Init(chain), k);
      if Num(e, Last(chain)) == k then r + Actions(Last(chain)) else r
  }

  /** The header and price fields an action must agree with. */
  datatype Key = Key(version: nat, baseFee: Option<nat>, gasPrices: Option<GasPrices>)

  function KeyOf(x: Block): Key {
    Key(x.header.version, x.header.baseFee, x.gasPrices)
  }

  /** The action carries the version, and the fee or prices, in `key`. */
  predicate UnderKey(e: Env, key: Key, a: Action) {
    var d := Deserialize(e, a);
    && d.Success?
    && d.value.version == key.version
    && (1 <= key.version < 3 ==> d.value.V1? && key.baseFee == Some(d.value.baseFee))
    && (3 <= key.version ==>
          && d.value.V3? && key.gasPrices == Some(d.value.prices)
          && key.baseFee == Some(e.feeOf(d.value.prices)))
  }

  ghost predicate AllUnderKey(e: Env, key: Key, acts: seq<Action>) {
    forall a :: a in acts ==> UnderKey(e, key, a)
  }

  /** Versions never decrease from a block other than genesis to its child. */
  ghost predicate VersionsRise(evm: seq<Block>) {
    forall i :: 0 <= i < |evm| - 1 && evm[i].header.number != 0 ==> evm[i].header.version <= evm[i + 1].header.version
  }

  /** A config only comes in an EVM block that has no action yet. */
  ghost predicate ConfigsFirst(e: Env, start: Block, chain: seq<NativeBlock>) {
    forall i :: 0 < i < |chain| && chain[i].newConfig.Some? && start.header.number < Num(e, chain[i]) ==>
      ActsOf(e, chain[..i], Num(e, chain[i])) == []
  }

  ghost predicate KeysMatch(e: Env, evm: seq<Block>, start: Block, chain: seq<NativeBlock>)
    requires chain != []
  {
    forall i :: 0 <= i < |evm| && start.header.number < evm[i].header.number ==>
      AllUnderKey(e, KeyOf(evm[i]), ActsOf(e, chain, evm[i].header.number))
  }

  ghost predicate Uniform(e: Env, s: State, start: Block, chain: seq<NativeBlock>)
    requires chain != []
  {
    KeysMatch(e, s.evm, start, chain) && VersionsRise(s.evm) && ConfigsFirst(e, start, chain)
  }

  // ----- actions of a chain -----

  lemma {:induction false} TxsOfLength(e: Env, acts: seq<Action>)
    ensures |TxsOf(e, acts)| == |acts|
  {
    if acts != [] { TxsOfLength(e, Init(acts)); }
  }

  lemma {:induction false} ActsOfLength(e: Env, start: Block, chain: seq<NativeBlock>, k: nat)
    requires chain != [] && k != start.header.number
    ensures |Expected(e, start, chain, k).transactions| == |ActsOf(e, chain, k)|
    decreases |chain|
  {
    if |chain| > 1 {
      ActsOfLength(e, start, Init(chain), k);
      TxsOfLength(e, Actions(Last(chain)));
    }
  }

  lemma {:induction false} ActsOfPrefix(e: Env, chain: seq<NativeBlock>, n: nat, k: nat)
    requires 0 < n <= |chain|
    ensures ActsOf(e, chain[..n], k) <= ActsOf(e, chain, k)
    decreases |chain|
  {
    if n == |chain| {
      assert chain[..n] == chain;
    } else {
      ActsOfPrefix(e, Init(chain), n, k);
      assert Init(chain)[..n] == chain[..n];
    }
  }

  // ----- one action, one native block -----

  /** An accepted action is under the block's key afterwards, together with all earlier
      ones; and a block that has transactions keeps its key. */
  lemma {:induction false} ApplyActionKey(e: Env, x: Block, a: Action, acts: seq<Action>)
    requires ApplyAction(e, x, a).Success?
    requires |acts| == |x.transactions| && AllUnderKey(e, KeyOf(x), acts)
    ensures var y := ApplyAction(e, x, a).value;
      && |y.transactions| == |acts| + 1
      && AllUnderKey(e, KeyOf(y), acts + [a])
      && x.header.version <= y.header.version && y.cpi == x.cpi
      && (acts != [] ==> KeyOf(y) == KeyOf(x))
      && (acts == [] && UnderKey(e, KeyOf(x), a) ==> KeyOf(y) == KeyOf(x))
  {
    var y := ApplyAction(e, x, a).value;
    if acts != [] {
      assert acts[0] in acts && UnderKey(e, KeyOf(x), acts[0]);
    }
    assert UnderKey(e, KeyOf(y), a);
  }

  lemma {:induction false} ApplyAllKey(e: Env, x: Block, acts: seq<Action>, before: seq<Action>)
    requires ApplyAll(e, x, acts).Success?
    requires |before| == |x.transactions| && AllUnderKey(e, KeyOf(x), before)
    ensures var y := ApplyAll(e, x, acts).value;
      && |y.transactions| == |before + acts|
      && AllUnderKey(e, KeyOf(y), before + acts)
      && x.header.version <= y.header.version && y.cpi == x.cpi
      && (before != [] || acts == [] || UnderKey(e, KeyOf(x), acts[0]) ==> KeyOf(y) == KeyOf(x))
    decreases |acts|
  {
    hide ApplyAction, UnderKey, AllUnderKey, KeyOf;
    if acts == [] {
      assert before + acts == before;
    } else {
      ApplyAllKey(e, x, Init(acts), before);
      var y := ApplyAll(e, x, Init(acts)).value;
      assert before + Init(acts) + [Last(acts)] == before + acts;
      assert acts[0] == if |acts| == 1 then Last(acts) else Init(acts)[0];
      assert before + Init(acts) == [] ==> before == [] && Init(acts) == [];
      ApplyActionKey(e, y, Last(acts), before + Init(acts));
    }
  }

  lemma {:induction false} AppendKey(e: Env, x: Block, b: NativeBlock, before: seq<Action>)
    requires Append(e, x, b).Success?
    requires |before| == |x.transactions| && AllUnderKey(e, KeyOf(x), before)
    ensures var y, acts := Append(e, x, b).value, Actions(b);
      && AllUnderKey(e, KeyOf(y), before + acts)
      && x.header.version <= y.header.version
      && (b.newConfig.Some? ==> before == [])
      && (before != [] || acts == [] || UnderKey(e, KeyOf(x), acts[0]) ==> KeyOf(y) == KeyOf(x))
  {
    ApplyAllKey(e, ApplyConfig(e, x, b).value, Actions(b), before);
  }

  lemma {:induction false} TailVersions(e: Env, x: Block, k: nat)
    ensures VersionsRise(Tail(e, x, k)) && Tail(e, x, k)[0].header.version == x.header.version
    ensures Tail(e, x, k)[0].header.number == x.header.number && KeyOf(Tail(e, x, k)[0]) == KeyOf(x)
    decreases if x.header.number < k then k - x.header.number else 0
  {
    if x.header.number < k {
      var y := Fresh(e, Close(e, x));
      TailVersions(e, y, k);
      var t, u := Tail(e, x, k), Tail(e, y, k);
      assert t == [Close(e, x)] + u;
      forall i | 0 <= i < |t| - 1 && t[i].header.number != 0
        ensures t[i].header.version <= t[i + 1].header.version
      {
        assert t[i + 1] == u[i];
        if i > 0 { assert t[i] == u[i - 1]; }
      }
    }
  }

  // ----- steps -----

  lemma GrowParts(e: Env, x: Block, b: NativeBlock)
    requires Grow(e, x, b).Success?
    ensures var t, g := Tail(e, x, Num(e, b)), Grow(e, x, b).value;
      && |g| == |t| && Init(g) == Init(t)
      && Append(e, Last(t), b) == Success(Last(g))
  {
  }

  /** The key of the open block covers the actions it had and those of `b`. */
  lemma {:induction false} GrowLastKey(e: Env, s: State, start: Block, chain: seq<NativeBlock>, b: NativeBlock)
    requires Tracks(e, s, start, chain) && KeysMatch(e, s.evm, start, chain)
    requires Grow(e, Last(s.evm), b).Success? && Top(e, start, chain) <= Num(e, b)
    requires start.header.number < Num(e, b)
    ensures AllUnderKey(e, KeyOf(Last(Grow(e, Last(s.evm), b).value)), ActsOf(e, chain, Num(e, b)) + Actions(b))
    ensures b.newConfig.Some? ==> ActsOf(e, chain, Num(e, b)) == []
  {
    hide UnderKey, Expected, Append, ApplyAll, Grow, Tail, ChainOk;
    var x, k, m := Last(s.evm), Num(e, b), |s.evm| - 1;
    var t := Tail(e, x, k);
    assert x == s.evm[m];
    assert BodyOf(s.evm[m]) == Expected(e, start, chain, s.evm[m].header.number);
    GrowParts(e, x, b);
    TailShape(e, x, k);
    TailVersions(e, x, k);
    ActsOfLength(e, start, chain, k);
    if |t| > 1 {
      ExpectedAboveTop(e, start, chain, k);
      assert BodyOf(Last(t)).transactions == [];
    } else {
      assert BodyOf(Last(t)) == BodyOf(x);
    }
    AppendKey(e, Last(t), b, ActsOf(e, chain, k));
  }

  lemma ActsOfMore(e: Env, chain: seq<NativeBlock>, b: NativeBlock, k: nat)
    requires chain != []
    ensures ActsOf(e, chain + [b], k) == ActsOf(e, chain, k) + (if Num(e, b) == k then Actions(b) else [])
  {
    hide Actions, EvmNum;
    assert Init(chain + [b]) == chain && Last(chain + [b]) == b;
    assert ActsOf(e, chain, k) + [] == ActsOf(e, chain, k);
  }

  /** Blocks opened on the way have no action. */
  lemma ActsAboveTop(e: Env, start: Block, chain: seq<NativeBlock>, k: nat)
    requires ChainOk(e, start, chain) && Top(e, start, chain) < k
    ensures ActsOf(e, chain, k) == []
  {
    hide Expected, LinkedAt, ActsOf;
    ExpectedAboveTop(e, start, chain, k);
    TopBound(e, start, chain);
    ActsOfLength(e, start, chain, k);
  }

  /** Where block `i` of the grown list comes from. */
  lemma GrownAt(e: Env, evm: seq<Block>, b: NativeBlock, i: nat)
    requires evm != [] && Consecutive(evm) && Grow(e, Last(evm), b).Success?
    requires i < |Init(evm) + Grow(e, Last(evm), b).value|
    ensures var g, m := Grow(e, Last(evm), b).value, |evm| - 1; var y := (Init(evm) + g)[i];
      && y.header.number == evm[0].header.number + i
      && (i < m ==> y == evm[i])
      && (i >= m ==> y == g[i - m])
      && (m <= i < m + |g| - 1 ==> y == Tail(e, Last(evm), Num(e, b))[i - m] && y.header.number < Num(e, b))
      && (i == m + |g| - 1 ==> y == Last(g) && Num(e, b) <= y.header.number)
      && (i == m + |g| - 1 && i > m ==> Num(e, b) == y.header.number)
  {
    hide Grow, Tail, EvmNum;
    var x, m := Last(evm), |evm| - 1;
    var t, g := Tail(e, x, Num(e, b)), Grow(e, x, b).value;
    assert x == evm[m];
    GrowParts(e, x, b);
    TailShape(e, x, Num(e, b));
    GrownShape(e, x, b);
    if m <= i < m + |g| - 1 { assert Init(g)[i - m] == Init(t)[i - m]; }
  }

  lemma {:induction false} GrownKeyAt(e: Env, s: State, start: Block, chain: seq<NativeBlock>, b: NativeBlock, i: nat)
    requires Tracks(e, s, start, chain) && KeysMatch(e, s.evm, start, chain)
    requires Grow(e, Last(s.evm), b).Success? && Top(e, start, chain) <= Num(e, b)
    requires i < |Init(s.evm) + Grow(e, Last(s.evm), b).value|
    requires start.header.number < (Init(s.evm) + Grow(e, Last(s.evm), b).value)[i].header.number
    ensures var y := (Init(s.evm) + Grow(e, Last(s.evm), b).value)[i];
      AllUnderKey(e, KeyOf(y), ActsOf(e, chain + [b], y.header.number))
  {
    hide UnderKey, AllUnderKey, Grow, Tail, ChainOk, BodiesMatch, EvmNum, KeyOf, ActsOf;
    var x, k, m := Last(s.evm), Num(e, b), |s.evm| - 1;
    var y := (Init(s.evm) + Grow(e, x, b).value)[i];
    assert x == s.evm[m];
    GrownAt(e, s.evm, b, i);
    ActsOfMore(e, chain, b, y.header.number);
    assert ActsOf(e, chain, y.header.number) + [] == ActsOf(e, chain, y.header.number);
    if i < m {
      assert y.header.number < x.header.number;
    } else if i < m + |Grow(e, x, b).value| - 1 {
      if i == m {
        TailVersions(e, x, k);
      } else {
        ActsAboveTop(e, start, chain, y.header.number);
        NoActions(e, KeyOf(y));
      }
    } else {
      GrowLastKey(e, s, start, chain, b);
    }
  }

  lemma NoActions(e: Env, key: Key)
    ensures AllUnderKey(e, key, [])
  {
  }

  lemma {:induction false} GrowKeys(e: Env, s: State, start: Block, chain: seq<NativeBlock>, b: NativeBlock)
    requires Tracks(e, s, start, chain) && KeysMatch(e, s.evm, start, chain)
    requires Grow(e, Last(s.evm), b).Success? && Top(e, start, chain) <= Num(e, b)
    ensures KeysMatch(e, Init(s.evm) + Grow(e, Last(s.evm), b).value, start, chain + [b])
    ensures b.newConfig.Some? && start.header.number < Num(e, b) ==> ActsOf(e, chain, Num(e, b)) == []
  {
    hide UnderKey, AllUnderKey, Grow, Tail, ChainOk, Consecutive, BodiesMatch, Top, EvmNum;
    var evm := Init(s.evm) + Grow(e, Last(s.evm), b).value;
    if start.header.number < Num(e, b) { GrowLastKey(e, s, start, chain, b); }
    forall i | 0 <= i < |evm| && start.header.number < evm[i].header.number
      ensures AllUnderKey(e, KeyOf(evm[i]), ActsOf(e, chain + [b], evm[i].header.number))
    {
      GrownKeyAt(e, s, start, chain, b, i);
    }
  }

  lemma {:induction false} GrowVersions(e: Env, evm: seq<Block>, b: NativeBlock)
    requires evm != [] && VersionsRise(evm) && Grow(e, Last(evm), b).Success?
    ensures VersionsRise(Init(evm) + Grow(e, Last(evm), b).value)
  {
    var x, m := Last(evm), |evm| - 1;
    var t, g := Tail(e, x, Num(e, b)), Grow(e, x, b).value;
    TailVersions(e, x, Num(e, b));
    VersionNeverFalls(e, ApplyConfig(e, Last(t), b).value, Actions(b));
    var r := Init(evm) + g;
    forall i | 0 <= i < |r| - 1 && r[i].header.number != 0
      ensures r[i].header.version <= r[i + 1].header.version
    {
      if i < m {
        assert r[i] == evm[i] && r[i + 1] == if i + 1 < m then evm[i + 1] else g[0];
        assert evm[i].header.version <= evm[i + 1].header.version;
        assert evm[m] == x && x.header.version <= g[0].header.version;
      } else {
        assert r[i] == t[i - m] && r[i + 1] == g[i - m + 1];
        assert t[i - m].header.version <= t[i - m + 1].header.version;
      }
    }
  }

  lemma {:induction false} VersionNeverFalls(e: Env, x: Block, acts: seq<Action>)
    requires ApplyAll(e, x, acts).Success?
    ensures x.header.version <= ApplyAll(e, x, acts).value.header.version
    decreases |acts|
  {
    if acts != [] { VersionNeverFalls(e, x, Init(acts)); }
  }

  lemma {:induction false} ConfigsFirstMore(e: Env, start: Block, chain: seq<NativeBlock>, b: NativeBlock)
    requires chain != [] && ConfigsFirst(e, start, chain)
    requires b.newConfig.Some? && start.header.number < Num(e, b) ==> ActsOf(e, chain, Num(e, b)) == []
    ensures ConfigsFirst(e, start, chain + [b])
  {
    var longer := chain + [b];
    forall i | 0 < i < |longer| && longer[i].newConfig.Some? && start.header.number < Num(e, longer[i])
      ensures ActsOf(e, longer[..i], Num(e, longer[i])) == []
    {
      assert longer[..i] == chain[..i];
      if i == |chain| { assert chain[..i] == chain; }
    }
  }

  lemma {:induction false} AcceptUniform(e: Env, s: State, start: Block, chain: seq<NativeBlock>, b: NativeBlock)
    requires Tracks(e, s, start, chain) && Uniform(e, s, start, chain)
    requires Admissible(e, chain, b) && Last(chain).id == b.prev && Accept(e, s, b).Success?
    ensures Uniform(e, Accept(e, s, b).value, start, chain + [b])
  {
    var g, longer := Grow(e, Last(s.evm), b).value, chain + [b];
    var s1 := State(s.native + [b], Init(s.evm) + g, s.lib, s.published + Init(g));
    GrownShape(e, Last(s.evm), b);
    ChainExtend(e, start, chain, b);
    TopBound(e, start, chain);
    GrowKeys(e, s, start, chain, b);
    GrowVersions(e, s.evm, b);
    ConfigsFirstMore(e, start, chain, b);
    var r := Prune(e, s1, b.lib);
    if r != s1 { Output.DropEvmSuffix(s1.evm, r.lib.value); }
    SuffixUniform(e, s1, r, start, longer);
  }

  lemma SuffixUniform(e: Env, s: State, r: State, start: Block, chain: seq<NativeBlock>)
    requires chain != [] && Uniform(e, s, start, chain) && Suffix(r.evm, s.evm)
    ensures Uniform(e, r, start, chain)
  {
    var d := |s.evm| - |r.evm|;
    assert forall i :: 0 <= i < |r.evm| ==> r.evm[i] == s.evm[i + d];
    forall i | 0 <= i < |r.evm| - 1 && r.evm[i].header.number != 0
      ensures r.evm[i].header.version <= r.evm[i + 1].header.version
    {
      assert s.evm[i + d].header.version <= s.evm[i + d + 1].header.version;
    }
  }

  /** Cutting the EVM blocks and the chain keeps what was uniform. */
  lemma {:induction false} CutUniform(
    e: Env, cut: seq<Block>, evm: seq<Block>, start: Block, chain: seq<NativeBlock>, n: nat)
    requires Output.CutOf(cut, evm) && 0 < n <= |chain|
    requires KeysMatch(e, evm, start, chain) && VersionsRise(evm)
    ensures KeysMatch(e, cut, start, chain[..n]) && VersionsRise(cut)
  {
    forall i | 0 <= i < |cut|
      ensures KeyOf(cut[i]) == KeyOf(evm[i]) && cut[i].header.number == evm[i].header.number
    {
      if i == |cut| - 1 {
        assert cut[i].header.(prevRandao := 0).number == evm[i].header.(prevRandao := 0).number;
      }
    }
    forall i | 0 <= i < |cut| && start.header.number < cut[i].header.number
      ensures AllUnderKey(e, KeyOf(cut[i]), ActsOf(e, chain[..n], cut[i].header.number))
    {
      ActsOfPrefix(e, chain, n, cut[i].header.number);
      assert AllUnderKey(e, KeyOf(evm[i]), ActsOf(e, chain, evm[i].header.number));
    }
    forall i | 0 <= i < |cut| - 1 && cut[i].header.number != 0
      ensures cut[i].header.version <= cut[i + 1].header.version
    {
      assert KeyOf(cut[i]) == KeyOf(evm[i]) && KeyOf(cut[i + 1]) == KeyOf(evm[i + 1]);
      assert evm[i].header.version <= evm[i + 1].header.version;
    }
  }

  lemma ConfigsFirstCut(e: Env, start: Block, chain: seq<NativeBlock>, n: nat)
    requires 0 < n <= |chain| && ConfigsFirst(e, start, chain)
    ensures ConfigsFirst(e, start, chain[..n])
  {
    var cut := chain[..n];
    forall i | 0 < i < n
      ensures cut[i] == chain[i] && cut[..i] == chain[..i]
    {
    }
  }

  lemma {:induction false} RollbackUniform(e: Env, s: State, start: Block, chain: seq<NativeBlock>, j: nat)
    requires 0 < j < |chain| && Uniform(e, s, start, chain)
    requires Rollback(e, s, chain[j]).Success?
    ensures Uniform(e, Rollback(e, s, chain[j]).value, start, chain[..j + 1])
  {
    Output.RollbackCut(e, s, chain[j]);
    CutUniform(e, Rollback(e, s, chain[j]).value.evm, s.evm, start, chain, j + 1);
    ConfigsFirstCut(e, start, chain, j + 1);
  }

  lemma {:induction false} ForkUniform(
    e: Env, s: State, start: Block, chain: seq<NativeBlock>, b: NativeBlock, j: nat)
    requires Tracks(e, s, start, chain) && Uniform(e, s, start, chain) && Admissible(e, chain, b)
    requires 0 < j < |chain| && |chain| - |s.native| <= j && chain[j].id == b.prev && Find(chain, b.id).None?
    requires Rollback(e, s, chain[j]).Success? && Accept(e, Rollback(e, s, chain[j]).value, b).Success?
    ensures Uniform(e, Accept(e, Rollback(e, s, chain[j]).value, b).value, start, chain[..j + 1] + [b])
  {
    hide Accept, Rollback, Tracks, Uniform, Admissible;
    RollbackTracks(e, s, start, chain, j);
    RollbackUniform(e, s, start, chain, j);
    CutAdmissible(e, chain, b, j);
    AcceptUniform(e, Rollback(e, s, chain[j]).value, start, chain[..j + 1], b);
  }

  /** One step keeps every EVM block uniform, whether the block links, repeats or forks. */
  lemma {:induction false} StepUniform(e: Env, s: State, start: Block, chain: seq<NativeBlock>, b: NativeBlock)
    requires Tracks(e, s, start, chain) && Uniform(e, s, start, chain) && Admissible(e, chain, b)
    requires Step(e, s, b).Success?
    ensures Uniform(e, Step(e, s, b).value, start, ChainStep(chain, b))
  {
    hide Accept, Rollback, Classify, Tracks, Uniform, Admissible, Step, ChainStep;
    StepCases(e, s, start, chain, b);
    match Classify(chain, |chain| - |s.native|, b)
    case Links => AcceptUniform(e, s, start, chain, b);
    case Duplicate =>
    case Fork(j) => ForkUniform(e, s, start, chain, b, j);
    case Unknown =>
  }

  /** In every reachable state, all actions of an EVM block after the start block agree with
      its version, base fee and gas prices, configs precede actions, and versions never fall. */
  lemma {:induction false} RunUniform(e: Env, s: State, start: Block, chain: seq<NativeBlock>, bs: seq<NativeBlock>)
    requires Tracks(e, s, start, chain) && Uniform(e, s, start, chain) && AdmissibleRun(e, chain, bs)
    requires Run(e, s, bs).Success?
    ensures Uniform(e, Run(e, s, bs).value, start, ChainRun(chain, bs))
    decreases |bs|
  {
    if bs != [] {
      RunUniform(e, s, start, chain, Init(bs));
      RunTracks(e, s, start, chain, Init(bs));
      StepUniform(e, Run(e, s, Init(bs)).value, start, ChainRun(chain, Init(bs)), Last(bs));
    }
  }
}
