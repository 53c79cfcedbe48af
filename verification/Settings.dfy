/** Version, gas prices and consensus parameters of an EVM block are the latest ones the
    native chain announced, however many EVM blocks lie in between. */
module Settings {
  import opened Types
  import opened Seqs
  import opened Conversion
  import opened Grouping
  import opened Headers

  datatype Settings = Settings(version: nat, gasPrices: Option<GasPrices>, cpi: Option<Hash>)

  function SettingsOf(x: Block): Settings {
    Settings(x.header.version, x.gasPrices, x.cpi)
  }

  /** What the first block after the start block begins with. */
  function Initial(e: Env, start: Block): Settings {
    Settings(if start.header.number == 0 then e.genesisVersion else start.header.version, start.gasPrices, start.cpi)
  }

  /** An action announces its version, and from version 3 on its prices. */
  function Announce(e: Env, st: Settings, acts: seq<Action>): Settings {
    if acts == [] then st
    else
      var r := Announce(e, st, Init(acts));
      match Deserialize(e, Last(acts))
      case Failure(_) => r
      case Success(d) =>
        var prices := if 3 <= d.version && d.V3? then Some(d.prices) else r.gasPrices;
        r.(version := d.version, gasPrices := prices)
  }

  /** The latest settings announced by a native chain. */
  function Latest(e: Env, start: Block, chain: seq<NativeBlock>): Settings
    requires chain != []
  {
    if |chain| == 1 then Initial(e, start)
    else
      var st, b := Latest(e, start, Init(chain)), Last(chain);
      var st1 := match b.newConfig case None => st case Some(a) => st.(cpi := e.readConfig(a.data));
      Announce(e, st1, Actions(b))
  }

  lemma {:induction false} ApplyAllSettings(e: Env, x: Block, acts: seq<Action>)
    requires ApplyAll(e, x, acts).Success?
    ensures SettingsOf(ApplyAll(e, x, acts).value) == Announce(e, SettingsOf(x), acts)
    decreases |acts|
  {
    if acts != [] {
      ApplyAllSettings(e, x, Init(acts));
      ApplyOneSettings(e, ApplyAll(e, x, Init(acts)).value, Last(acts));
    }
  }

  lemma ApplyOneSettings(e: Env, x: Block, a: Action)
    requires ApplyAction(e, x, a).Success?
    ensures var y, d := ApplyAction(e, x, a).value, Deserialize(e, a);
      && d.Success? && y.header.version == d.value.version && y.cpi == x.cpi
      && y.gasPrices == if 3 <= d.value.version && d.value.V3? then Some(d.value.prices) else x.gasPrices
  {
  }

  /** Blocks opened on the way inherit the settings; the block after genesis starts from the
      configured version. */
  lemma {:induction false} TailSettings(e: Env, x: Block, k: nat)
    requires 0 < x.header.number
    ensures SettingsOf(Last(Tail(e, x, k))) == SettingsOf(x)
    decreases if x.header.number < k then k - x.header.number else 0
  {
    if x.header.number < k {
      TailSettings(e, Fresh(e, Close(e, x)), k);
      assert Last(Tail(e, x, k)) == Last(Tail(e, Fresh(e, Close(e, x)), k));
    }
  }

  lemma {:induction false} TailFromStart(e: Env, start: Block, k: nat)
    requires start.header.number < k
    ensures SettingsOf(Last(Tail(e, start, k))) == Initial(e, start)
  {
    TailSettings(e, Fresh(e, Close(e, start)), k);
    assert Last(Tail(e, start, k)) == Last(Tail(e, Fresh(e, Close(e, start)), k));
  }

  lemma {:induction false} AppendSettings(e: Env, x: Block, b: NativeBlock)
    requires Append(e, x, b).Success?
    ensures SettingsOf(Append(e, x, b).value) ==
      Announce(e, match b.newConfig case None => SettingsOf(x)
                  case Some(a) => SettingsOf(x).(cpi := e.readConfig(a.data)), Actions(b))
  {
    hide ApplyAll, Announce, Actions;
    ApplyAllSettings(e, ApplyConfig(e, x, b).value, Actions(b));
  }

  /** The open EVM block of a folded native chain carries the latest announced settings; a
      closed block is the open block of a shorter chain. */
  lemma {:induction false} OpenSettings(e: Env, start: Block, chain: seq<NativeBlock>)
    requires ChainOk(e, start, chain) && Fold(e, start, chain).Success? && |chain| > 1
    requires start.header.number < Num(e, chain[0])
    ensures SettingsOf(Last(Fold(e, start, chain).value)) == Latest(e, start, chain)
    decreases |chain|
  {
    hide Append, Announce, EvmNum, Fresh, Close;
    var rest, b := Init(chain), Last(chain);
    ChainPrefix(e, start, chain, |chain| - 1);
    var x := Last(Fold(e, start, rest).value);
    if |rest| == 1 {
      ChainMonotone(e, start, chain, 0, 1);
      TailFromStart(e, start, Num(e, b));
    } else {
      OpenSettings(e, start, rest);
      FoldShape(e, start, rest);
      ChainMonotone(e, start, rest, 0, |rest| - 1);
      TailSettings(e, x, Num(e, b));
    }
    AppendSettings(e, Last(Tail(e, x, Num(e, b))), b);
    assert Last(Fold(e, start, chain).value) == Append(e, Last(Tail(e, x, Num(e, b))), b).value;
  }
}
