/** Which native blocks the converter accepts, decided on the contents of the actions and the
    native chain alone. */
module Acceptance {
  import opened Types
  import opened Seqs
  import opened Conversion
  import opened Grouping
  import opened RollbackProofs
  import opened Runs
  import opened Uniformity
  import opened Headers
  import opened FoldRuns
  import opened Marking
  import opened Settings

  // ----- what an action asks for -----

  /** Version, and the fee or the prices that this version makes binding for a whole block. */
  datatype Terms = Terms(version: nat, baseFee: Option<nat>, prices: Option<GasPrices>)

  /** The raw transaction of an action. */
  function RlpxOf(e: Env, a: Action): Option<Bytes> {
    if a.name == PushTx then e.readPush(a.data)
    else match e.readEvm(a.data)
      case None => None
      case Some(V1(_, rlpx, _)) => Some(rlpx)
      case Some(V3(_, rlpx, _)) => Some(rlpx)
  }

  /** A `pushtx` has version 0. */
  function VersionOf(e: Env, a: Action): nat {
    if a.name == PushTx then 0
    else match e.readEvm(a.data)
      case None => 0
      case Some(V1(version, _, _)) => version
      case Some(V3(version, _, _)) => version
  }

  function FeeOf(e: Env, a: Action): Option<nat> {
    if a.name == PushTx then Some(0)
    else match e.readEvm(a.data)
      case Some(V1(_, _, fee)) => Some(fee)
      case _ => None
  }

  function PricesOf(e: Env, a: Action): Option<GasPrices> {
    if a.name == PushTx then None
    else match e.readEvm(a.data)
      case Some(V3(_, _, prices)) => Some(prices)
      case _ => None
  }

  predicate Decodes(e: Env, a: Action) {
    RlpxOf(e, a).Some? && e.decode(RlpxOf(e, a).value).Some?
  }

  /** Versions 1 and 2 need a fee, later ones need prices. */
  predicate FitsVersion(e: Env, a: Action) {
    && (1 <= VersionOf(e, a) < 3 ==> FeeOf(e, a).Some?)
    && (3 <= VersionOf(e, a) ==> PricesOf(e, a).Some?)
  }

  predicate Sound(e: Env, a: Action) {
    Decodes(e, a) && FitsVersion(e, a)
  }

  function TermsOf(e: Env, a: Action): Terms {
    var v := VersionOf(e, a);
    Terms(v, if 1 <= v < 3 then FeeOf(e, a) else None, if 3 <= v then PricesOf(e, a) else None)
  }

  /** The terms the transactions of a block were added under. */
  function HeldTerms(x: Block): Terms {
    var v := x.header.version;
    Terms(v, if 1 <= v < 3 then x.header.baseFee else None, if 3 <= v then x.gasPrices else None)
  }

  /** The transaction added for an action is the one its bytes decode to. */
  lemma DecodedTx(e: Env, a: Action)
    ensures DecodeAction(e, a).Success? <==> Decodes(e, a)
    ensures Decodes(e, a) ==> e.decode(RlpxOf(e, a).value) == Some(TxOf(e, a))
  {
  }

  // ----- one action -----

  /** An empty block takes any sound action whose version is not below its own; a block with
      transactions takes one of its own version whose fee or prices are those it has, if any. */
  predicate Takes(e: Env, x: Block, a: Action) {
    if x.transactions == [] then x.header.version <= VersionOf(e, a)
    else
      && VersionOf(e, a) == x.header.version
      && (1 <= x.header.version < 3 && x.header.baseFee.Some? ==> x.header.baseFee == FeeOf(e, a))
      && (3 <= x.header.version && x.gasPrices.Some? ==> x.gasPrices == PricesOf(e, a))
  }

  lemma {:induction false} ActionAccepted(e: Env, x: Block, a: Action)
    ensures ApplyAction(e, x, a).Success? <==> Sound(e, a) && Takes(e, x, a)
    ensures ApplyAction(e, x, a).Success? ==>
      var y, v := ApplyAction(e, x, a).value, VersionOf(e, a);
      && y.header.version == v && y.transactions == x.transactions + [e.decode(RlpxOf(e, a).value).value]
      && y.gasPrices == (if 3 <= v then PricesOf(e, a) else x.gasPrices)
      && y.header.baseFee == (if 3 <= v then Some(e.feeOf(PricesOf(e, a).value))
                              else if 1 <= v then FeeOf(e, a) else x.header.baseFee)
      && y == x.(transactions := y.transactions, gasPrices := y.gasPrices,
                 header := x.header.(version := v, baseFee := y.header.baseFee))
  {
  }

  /** Why an action is refused. */
  lemma {:induction false} ActionRefused(e: Env, x: Block, a: Action)
    ensures var r, v, held, full := ApplyAction(e, x, a), VersionOf(e, a), x.header.version, x.transactions != [];
      && (r == Failure(BadAction) <==> RlpxOf(e, a).None?)
      && (r == Failure(VersionTooLow) <==> RlpxOf(e, a).Some? && v < held)
      && (r == Failure(VersionTooHigh) <==> RlpxOf(e, a).Some? && held < v && full)
      && (r == Failure(GasPricesDiffer) <==>
            RlpxOf(e, a).Some? && 3 <= v == held && full && PricesOf(e, a).Some? && x.gasPrices.Some? &&
            x.gasPrices != PricesOf(e, a))
      && (r == Failure(BaseFeeDiffers) <==>
            Decodes(e, a) && 1 <= v < 3 && v == held && full && FeeOf(e, a).Some? && x.header.baseFee.Some? &&
            x.header.baseFee != FeeOf(e, a))
      && (r == Failure(DecodeFailed) ==> !Decodes(e, a))
      && (r == Failure(WrongVariant) ==> !FitsVersion(e, a))
  {
  }

  /** In a block whose header is settled, exactly the actions under its terms are taken. */
  lemma {:induction false} SettledTakes(e: Env, x: Block, a: Action)
    requires x.transactions != [] && Settled(e, x) && Sound(e, a)
    ensures Takes(e, x, a) <==> TermsOf(e, a) == HeldTerms(x)
    ensures Takes(e, x, a) <==> UnderKey(e, KeyOf(x), a)
  {
  }

  // ----- a list of actions, a native block -----

  /** All actions are sound and ask for the same. */
  predicate Agreeing(e: Env, acts: seq<Action>) {
    forall a :: a in acts ==> Sound(e, a) && TermsOf(e, a) == TermsOf(e, acts[0])
  }

  /** The first action of a list fits a block of this version, or one with these terms. */
  predicate Opens(e: Env, acts: seq<Action>, version: nat) {
    acts != [] ==> version <= VersionOf(e, acts[0])
  }

  predicate Continues(e: Env, acts: seq<Action>, held: Terms) {
    acts != [] ==> TermsOf(e, acts[0]) == held
  }

  /** An action that was taken leaves a settled block with its terms. */
  lemma {:induction false} TakenSettles(e: Env, x: Block, a: Action)
    requires ApplyAction(e, x, a).Success?
    ensures var y := ApplyAction(e, x, a).value;
      y.transactions != [] && Settled(e, y) && HeldTerms(y) == TermsOf(e, a)
  {
    ActionAccepted(e, x, a);
  }

  lemma AgreeingMore(e: Env, acts: seq<Action>, a: Action)
    ensures Agreeing(e, acts + [a]) <==>
      && Agreeing(e, acts) && Sound(e, a)
      && (acts != [] ==> TermsOf(e, a) == TermsOf(e, acts[0]))
  {
    hide Sound, TermsOf;
    var more := acts + [a];
    assert forall x :: x in more <==> x in acts || x == a;
    assert acts != [] ==> more[0] == acts[0] && acts[0] in more;
    assert a in more;
  }

  lemma {:induction false} ActionsAccepted(e: Env, x: Block, acts: seq<Action>)
    requires x.transactions != [] ==> Settled(e, x)
    ensures ApplyAll(e, x, acts).Success? <==>
      && Agreeing(e, acts)
      && (if x.transactions == [] then Opens(e, acts, x.header.version) else Continues(e, acts, HeldTerms(x)))
    ensures ApplyAll(e, x, acts).Success? && acts != [] ==>
      var y := ApplyAll(e, x, acts).value;
      y.transactions != [] && Settled(e, y) && HeldTerms(y) == TermsOf(e, acts[0])
    decreases |acts|
  {
    hide ApplyAction, Sound, TermsOf, HeldTerms, Settled, Takes, Agreeing;
    if acts == [] {
      assert Agreeing(e, []) by { NoneAgree(e); }
    } else {
      var rest, a := Init(acts), Last(acts);
      assert acts == rest + [a];
      ActionsAccepted(e, x, rest);
      AgreeingMore(e, rest, a);
      if ApplyAll(e, x, rest).Success? {
        var y := ApplyAll(e, x, rest).value;
        ActionAccepted(e, y, a);
        if ApplyAction(e, y, a).Success? { TakenSettles(e, y, a); }
        if y.transactions != [] && Sound(e, a) && Settled(e, y) { SettledTakes(e, y, a); }
        if rest == [] && x.transactions == [] { FirstTaken(e, x, a); }
      }
    }
  }

  lemma NoneAgree(e: Env)
    ensures Agreeing(e, [])
  {
  }

  lemma FirstTaken(e: Env, x: Block, a: Action)
    requires x.transactions == []
    ensures Takes(e, x, a) <==> Opens(e, [a], x.header.version)
  {
  }

  /** A native block is accepted by an open EVM block exactly when its config, if any, can be
      read and finds the block empty, its actions agree, and they fit the block. */
  lemma {:induction false} AppendAccepted(e: Env, x: Block, b: NativeBlock)
    requires x.transactions != [] ==> Settled(e, x)
    ensures Append(e, x, b).Success? <==>
      && (b.newConfig.Some? ==> x.transactions == [] && e.readConfig(b.newConfig.value.data).Some?)
      && Agreeing(e, Actions(b))
      && (if x.transactions == [] then Opens(e, Actions(b), x.header.version)
          else Continues(e, Actions(b), HeldTerms(x)))
  {
    hide ApplyAll, Actions, Agreeing, Opens, Continues;
    var r := ApplyConfig(e, x, b);
    if r.Success? { ActionsAccepted(e, r.value, Actions(b)); }
  }

  /** Whether `b` falls into a later EVM block than the open one, and the version it finds. */
  predicate Later(e: Env, x: Block, b: NativeBlock) {
    x.header.number < Num(e, b)
  }

  function VersionFor(e: Env, x: Block, b: NativeBlock): nat {
    if Later(e, x, b) && x.header.number == 0 then e.genesisVersion else x.header.version
  }

  lemma {:induction false} TailEnd(e: Env, x: Block, b: NativeBlock)
    ensures var y := Last(Tail(e, x, Num(e, b)));
      if Later(e, x, b) then y.transactions == [] && y.header.version == VersionFor(e, x, b) else y == x
  {
    hide Fresh, Close, EvmNum;
    if Later(e, x, b) {
      TailShape(e, x, Num(e, b));
      var t := Tail(e, x, Num(e, b));
      assert BodyOf(t[|t| - 1]).transactions == [];
      if x.header.number == 0 {
        TailFromStart(e, x, Num(e, b));
      } else {
        TailSettings(e, x, Num(e, b));
      }
    }
  }

  /** The same with the extension in between: a later EVM block is empty. */
  lemma {:induction false} GrowAccepted(e: Env, x: Block, b: NativeBlock)
    requires x.transactions != [] ==> Settled(e, x)
    ensures Grow(e, x, b).Success? <==>
      var empty := Later(e, x, b) || x.transactions == [];
      && (b.newConfig.Some? ==> empty && e.readConfig(b.newConfig.value.data).Some?)
      && Agreeing(e, Actions(b))
      && (if empty then Opens(e, Actions(b), VersionFor(e, x, b)) else Continues(e, Actions(b), HeldTerms(x)))
  {
    hide Append, Tail, Actions, Agreeing, Opens, Continues, Settled;
    TailEnd(e, x, b);
    AppendAccepted(e, Last(Tail(e, x, Num(e, b))), b);
  }

  // ----- native chains -----

  /** The version in force after a native chain: that of its last action. */
  function LatestVersion(e: Env, start: Block, chain: seq<NativeBlock>): nat
    requires chain != []
  {
    if |chain| == 1 then (if start.header.number == 0 then e.genesisVersion else start.header.version)
    else
      var acts := Actions(Last(chain));
      if acts == [] then LatestVersion(e, start, Init(chain)) else VersionOf(e, Last(acts))
  }

  /** `b` may follow the chain: a config is readable and comes before the actions of its EVM
      block, all actions of an EVM block agree, and no version falls. */
  predicate BlockFits(e: Env, start: Block, chain: seq<NativeBlock>, b: NativeBlock)
    requires chain != []
  {
    var before := ActsOf(e, chain, Num(e, b));
    && (b.newConfig.Some? ==> before == [] && e.readConfig(b.newConfig.value.data).Some?)
    && Agreeing(e, before + Actions(b))
    && (before == [] ==> Opens(e, Actions(b), LatestVersion(e, start, chain)))
  }

  lemma {:induction false} AnnouncedVersion(e: Env, st: Settings, acts: seq<Action>)
    requires acts != [] && RlpxOf(e, Last(acts)).Some?
    ensures Announce(e, st, acts).version == VersionOf(e, Last(acts))
  {
  }

  lemma {:induction false} LatestIs(e: Env, start: Block, chain: seq<NativeBlock>)
    requires ChainOk(e, start, chain)
    ensures Latest(e, start, chain).version == LatestVersion(e, start, chain)
    decreases |chain|
  {
    hide Announce, VersionOf, Actions, RlpxOf, Decodable;
    if |chain| > 1 {
      var acts := Actions(Last(chain));
      ChainPrefix(e, start, chain, |chain| - 1);
      LatestIs(e, start, Init(chain));
      if acts == [] {
        AnnounceNone(e);
      } else {
        LastDecodes(e, start, chain);
        AnnouncedVersion(e, LatestBefore(e, start, chain), acts);
      }
    }
  }

  /** The settings in force when the actions of the last native block are added. */
  function LatestBefore(e: Env, start: Block, chain: seq<NativeBlock>): Settings
    requires |chain| > 1
  {
    var st := Latest(e, start, Init(chain));
    match Last(chain).newConfig
    case None => st
    case Some(a) => st.(cpi := e.readConfig(a.data))
  }

  lemma AnnounceNone(e: Env)
    ensures forall st :: Announce(e, st, []) == st
  {
  }

  lemma LastDecodes(e: Env, start: Block, chain: seq<NativeBlock>)
    requires ChainOk(e, start, chain) && |chain| > 1 && Actions(Last(chain)) != []
    ensures Decodes(e, Last(Actions(Last(chain))))
  {
    hide Decodes, Actions, DecodeAction;
    var acts := Actions(Last(chain));
    assert LinkedAt(e, chain, |chain| - 1);
    assert Last(acts) in acts;
    DecodedTx(e, Last(acts));
  }

  /** The actions of a chain decode. */
  lemma {:induction false} ActsDecode(e: Env, start: Block, chain: seq<NativeBlock>, k: nat)
    requires ChainOk(e, start, chain)
    ensures Decodable(e, ActsOf(e, chain, k))
    decreases |chain|
  {
    hide Actions, DecodeAction;
    if |chain| > 1 {
      ChainPrefix(e, start, chain, |chain| - 1);
      ActsDecode(e, start, Init(chain), k);
      assert LinkedAt(e, chain, |chain| - 1);
    }
  }

  /** Actions under the key of a block have its terms. */
  lemma KeyTerms(e: Env, x: Block, acts: seq<Action>)
    requires Decodable(e, acts) && AllUnderKey(e, KeyOf(x), acts)
    ensures Agreeing(e, acts) && (acts != [] ==> Settled(e, x) && TermsOf(e, acts[0]) == HeldTerms(x))
  {
    forall a | a in acts
      ensures Sound(e, a) && TermsOf(e, a) == HeldTerms(x) && Settled(e, x)
    {
      assert UnderKey(e, KeyOf(x), a);
      DecodedTx(e, a);
    }
    assert acts != [] ==> acts[0] in acts;
  }

  lemma AgreeingJoin(e: Env, p: seq<Action>, q: seq<Action>)
    requires Agreeing(e, p)
    ensures Agreeing(e, p + q) <==> Agreeing(e, q) && (p != [] && q != [] ==> TermsOf(e, q[0]) == TermsOf(e, p[0]))
  {
    hide Sound, TermsOf;
    var r := p + q;
    assert forall a :: a in r <==> a in p || a in q;
    assert p != [] ==> r[0] == p[0];
    assert q != [] ==> q[0] in q;
    assert p == [] ==> r == q;
  }

  /** The open block of a folded chain: its transactions, its terms, its version. */
  lemma {:induction false} OpenTerms(e: Env, start: Block, chain: seq<NativeBlock>)
    requires ChainOk(e, start, chain) && Fold(e, start, chain).Success? && |chain| > 1
    requires start.header.number < Num(e, chain[0])
    ensures var x := Last(Fold(e, start, chain).value); var acts := ActsOf(e, chain, x.header.number);
      && x.header.number == Top(e, start, chain) && 0 < x.header.number
      && |x.transactions| == |acts|
      && Agreeing(e, acts) && (acts != [] ==> Settled(e, x) && TermsOf(e, acts[0]) == HeldTerms(x))
      && x.header.version == LatestVersion(e, start, chain)
  {
    hide Fold, BodiesMatch, ActsOf, Expected, KeyOf, AllUnderKey, Agreeing, Settled, HeldTerms, TermsOf;
    FoldTracks(e, start, chain);
    FoldShape(e, start, chain);
    var f := Fold(e, start, chain).value;
    var x, k := Last(f), Last(f).header.number;
    assert x == f[|f| - 1];
    ChainMonotone(e, start, chain, 0, |chain| - 1);
    OpenBody(e, start, chain);
    ActsOfLength(e, start, chain, k);
    assert AllUnderKey(e, KeyOf(f[|f| - 1]), ActsOf(e, chain, f[|f| - 1].header.number));
    ActsDecode(e, start, chain, k);
    KeyTerms(e, x, ActsOf(e, chain, k));
    OpenSettings(e, start, chain);
    LatestIs(e, start, chain);
  }

  /** The fold accepts one more native block exactly when it fits the chain. */
  lemma {:induction false} FoldAccepts(e: Env, start: Block, chain: seq<NativeBlock>, b: NativeBlock)
    requires ChainOk(e, start, chain) && Fold(e, start, chain).Success? && start.header.number < Num(e, chain[0])
    requires Admissible(e, chain, b) && Last(chain).id == b.prev
    ensures Fold(e, start, chain + [b]).Success? <==> BlockFits(e, start, chain, b)
  {
    hide Fold, Grow, Agreeing, Opens, Continues, Settled, HeldTerms, TermsOf, Actions, ActsOf, Admissible, LinkedAt;
    var x := Last(Fold(e, start, chain).value);
    var before := ActsOf(e, chain, Num(e, b));
    FoldMore(e, start, chain, b);
    LastNotLater(e, start, chain, b);
    if |chain| == 1 {
      FoldOne(e, start, chain);
      ActsOfOne(e, chain, Num(e, b));
      LaterAccepts(e, start, chain, b, start);
    } else {
      OpenTerms(e, start, chain);
      if Later(e, x, b) {
        ActsAboveTop(e, start, chain, Num(e, b));
        LaterAccepts(e, start, chain, b, x);
      } else {
        SameAccepts(e, start, chain, b, x);
      }
    }
  }

  lemma FoldOne(e: Env, start: Block, chain: seq<NativeBlock>)
    requires |chain| == 1
    ensures Fold(e, start, chain) == Success([start])
    ensures LatestVersion(e, start, chain) ==
      if start.header.number == 0 then e.genesisVersion else start.header.version
  {
  }

  lemma ActsOfOne(e: Env, chain: seq<NativeBlock>, k: nat)
    requires |chain| == 1
    ensures ActsOf(e, chain, k) == []
  {
  }

  lemma LastNotLater(e: Env, start: Block, chain: seq<NativeBlock>, b: NativeBlock)
    requires ChainOk(e, start, chain) && Admissible(e, chain, b) && Last(chain).id == b.prev
    ensures Num(e, chain[0]) <= Num(e, Last(chain)) <= Num(e, b)
  {
    hide LinkedAt;
    assert Follows(chain[|chain| - 1], b);
    EvmNumMonotone(e, Last(chain).timestamp, b.timestamp);
    ChainMonotone(e, start, chain, 0, |chain| - 1);
  }

  lemma LaterAccepts(e: Env, start: Block, chain: seq<NativeBlock>, b: NativeBlock, x: Block)
    requires chain != [] && Later(e, x, b) && ActsOf(e, chain, Num(e, b)) == []
    requires x.transactions != [] ==> Settled(e, x) || |chain| == 1
    requires VersionFor(e, x, b) == LatestVersion(e, start, chain)
    ensures Grow(e, x, b).Success? <==> BlockFits(e, start, chain, b)
  {
    hide Append, Tail, Agreeing, Opens, Actions, ActsOf, Settled;
    assert [] + Actions(b) == Actions(b);
    TailEnd(e, x, b);
    AppendAccepted(e, Last(Tail(e, x, Num(e, b))), b);
  }

  lemma SameAccepts(e: Env, start: Block, chain: seq<NativeBlock>, b: NativeBlock, x: Block)
    requires chain != [] && x.header.number == Num(e, b)
    requires var acts := ActsOf(e, chain, Num(e, b));
      && |x.transactions| == |acts| && Agreeing(e, acts)
      && (acts != [] ==> Settled(e, x) && TermsOf(e, acts[0]) == HeldTerms(x))
    requires x.header.version == LatestVersion(e, start, chain)
    ensures Grow(e, x, b).Success? <==> BlockFits(e, start, chain, b)
  {
    hide Grow, Agreeing, Opens, Settled, HeldTerms, TermsOf, Actions, ActsOf;
    var acts := ActsOf(e, chain, Num(e, b));
    GrowAccepted(e, x, b);
    AgreeingJoin(e, acts, Actions(b));
    assert acts == [] ==> acts + Actions(b) == Actions(b);
  }

  // ----- runs -----

  /** `b` fits where it goes: after the end of the chain, after its fork point, or nowhere
      because it repeats a block. */
  predicate StepFits(e: Env, start: Block, chain: seq<NativeBlock>, b: NativeBlock)
    requires chain != []
  {
    if Last(chain).id == b.prev then BlockFits(e, start, chain, b)
    else if Find(chain, b.id).Some? then true
    else match Find(chain, b.prev)
      case None => false
      case Some(j) => BlockFits(e, start, chain[..j + 1], b)
  }

  ghost predicate FitsThroughout(e: Env, start: Block, chain: seq<NativeBlock>, bs: seq<NativeBlock>)
    requires chain != []
  {
    bs != [] ==> FitsThroughout(e, start, chain, Init(bs)) && StepFits(e, start, ChainRun(chain, Init(bs)), Last(bs))
  }

  lemma {:induction false} LinkAccepted(e: Env, s: State, start: Block, chain: seq<NativeBlock>, b: NativeBlock)
    requires Tracks(e, s, start, chain) && Refines(e, s, start, chain)
    requires start.header.number < Num(e, chain[0])
    requires Admissible(e, chain, b) && Last(chain).id == b.prev
    ensures Accept(e, s, b).Success? <==> BlockFits(e, start, chain, b)
  {
    hide Accept, BlockFits, Admissible, EndOf, BodiesMatch, Consecutive, ChainOk, Fold;
    AcceptRefines(e, s, start, chain, b);
    FoldAccepts(e, start, chain, b);
  }

  lemma {:induction false} StepAccepted(e: Env, s: State, start: Block, chain: seq<NativeBlock>, b: NativeBlock)
    requires Tracks(e, s, start, chain) && Refines(e, s, start, chain)
    requires start.header.number < Num(e, chain[0])
    requires Admissible(e, chain, b) && Benign(e, s, start, chain, b)
    ensures Step(e, s, b).Success? <==> StepFits(e, start, chain, b)
  {
    hide Accept, Rollback, Tracks, Refines, Admissible, BlockFits, ChainOk, Fold, Step;
    hide DroppedCanonical, Neutral, Shared;
    StepCases(e, s, start, chain, b);
    var off := |chain| - |s.native|;
    match Classify(chain, off, b)
    case Links => LinkAccepted(e, s, start, chain, b);
    case Duplicate =>
    case Fork(j) =>
      ForkRefines(e, s, start, chain, b, j);
      CutAdmissible(e, chain, b, j);
      LinkAccepted(e, Rollback(e, s, chain[j]).value, start, chain[..j + 1], b);
    case Unknown =>
  }

  /** A benign run ends in an exception exactly when some received block does not fit the
      native chain it goes to. */
  lemma {:induction false} RunAccepted(e: Env, s: State, start: Block, chain: seq<NativeBlock>, bs: seq<NativeBlock>)
    requires chain != [] && Tracks(e, s, start, chain) && Refines(e, s, start, chain)
    requires start.header.number < Num(e, chain[0])
    requires AdmissibleRun(e, chain, bs) && BenignRun(e, s, start, chain, bs)
    ensures Run(e, s, bs).Success? <==> FitsThroughout(e, start, chain, bs)
    decreases |bs|
  {
    hide Tracks, Refines, Step, StepFits, Admissible, Benign, ChainStep;
    if bs != [] {
      RunAccepted(e, s, start, chain, Init(bs));
      if Run(e, s, Init(bs)).Success? {
        RunTracks(e, s, start, chain, Init(bs));
        RunRefines(e, s, start, chain, Init(bs));
        ChainRunStart(chain, Init(bs));
        StepAccepted(e, Run(e, s, Init(bs)).value, start, ChainRun(chain, Init(bs)), Last(bs));
      }
    }
  }
}
