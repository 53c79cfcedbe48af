/** The SHiP receiver: which actions of a transaction it keeps, in which order, what a block
    may mix, and where it resumes after a disconnect. */
module ShipReceiver {
  import opened Types
  import opened Seqs

  /** One action trace; `receipt` is the global sequence of its receipt.  `creator` is the
      one-based position of the action that created it, 0 for none. */
  datatype ActionTrace = ActionTrace(creator: nat, receiver: nat, name: ActionName, receipt: Option<nat>, data: Bytes)

  datatype TransactionTrace = TransactionTrace(executed: bool, actions: seq<ActionTrace>)

  /** A block message; `thisBlock` is absent when the source has nothing to send. */
  datatype BlockMessage = BlockMessage(
    thisBlock: bool, id: Hash, prev: Hash, blockNum: nat, timestamp: nat, lib: nat, traces: seq<TransactionTrace>)

  // ----- which actions, in which order -----

  /** An entry of the ordered map: a sequence key and the position of a trace. */
  datatype Entry = Entry(key: nat, at: nat)

  function ToAction(t: ActionTrace): Action {
    Action(t.name, t.data)
  }

  function HasEvmTx(actions: seq<ActionTrace>, core: nat): bool {
    exists j :: 0 <= j < |actions| && actions[j].receiver == core && actions[j].name == EvmTx
  }

  /** The action name to look for: `evmtx` if the contract has one in this transaction. */
  function Searched(actions: seq<ActionTrace>, core: nat): ActionName {
    if HasEvmTx(actions, core) then EvmTx else PushTx
  }

  predicate Matches(actions: seq<ActionTrace>, core: nat, j: nat) {
    && j < |actions| && actions[j].receiver == core
    && (actions[j].name == Searched(actions, core) || actions[j].name == ConfigChange)
  }

  /** Position in execution order: an `evmtx` takes the sequence of the action that created
      it, a `configchange` comes first, a `pushtx` takes its own sequence. */
  function KeyOf(actions: seq<ActionTrace>, j: nat): Result<nat>
    requires j < |actions|
  {
    var t := actions[j];
    if t.receipt.None? then Failure(NoReceipt)
    else if t.name == EvmTx then
      if t.creator == 0 then Failure(ZeroCreator)
      else if j <= t.creator - 1 then Failure(ParentNotBefore)
      else match actions[t.creator - 1].receipt
        case None => Failure(ParentNoReceipt)
        case Some(sequence) => Success(sequence)
    else if t.name == ConfigChange then Success(0)
    else Success(t.receipt.value)
  }

  /** Assignment into a map ordered by key: a second entry with a key replaces the first. */
  function Insert(m: seq<Entry>, x: Entry): seq<Entry> {
    if m == [] || x.key < m[0].key then [x] + m
    else if x.key == m[0].key then [x] + m[1..]
    else [m[0]] + Insert(m[1..], x)
  }

  /** The ordered map after the first `n` traces. */
  function Collect(actions: seq<ActionTrace>, core: nat, n: nat): Result<seq<Entry>>
    requires n <= |actions|
  {
    if n == 0 then Success([])
    else
      var m :- Collect(actions, core, n - 1);
      if !Matches(actions, core, n - 1) then Success(m)
      else
        var key :- KeyOf(actions, n - 1);
        Success(Insert(m, Entry(key, n - 1)))
  }

  ghost predicate Sorted(m: seq<Entry>) {
    forall i, j :: 0 <= i < j < |m| ==> m[i].key < m[j].key
  }

  /** Number of matching traces among the first `n`. */
  function Count(actions: seq<ActionTrace>, core: nat, n: nat): nat {
    if n == 0 then 0 else Count(actions, core, n - 1) + (if Matches(actions, core, n - 1) then 1 else 0)
  }

  ghost predicate DistinctKeys(actions: seq<ActionTrace>, core: nat, n: nat)
    requires n <= |actions|
  {
    forall i, j :: 0 <= i < j < n && Matches(actions, core, i) && Matches(actions, core, j) ==>
      KeyOf(actions, i) != KeyOf(actions, j)
  }

  ghost predicate HasKey(m: seq<Entry>, key: nat) {
    exists y :: y in m && y.key == key
  }

  lemma {:induction false} InsertMembers(m: seq<Entry>, x: Entry)
    requires Sorted(m)
    ensures forall y :: y in Insert(m, x) <==> y == x || (y in m && y.key != x.key)
  {
    if m == [] {
    } else if x.key < m[0].key {
      assert forall y :: y in m ==> x.key < y.key;
    } else {
      assert m == [m[0]] + m[1..];
      assert forall y :: y in m[1..] ==> m[0].key < y.key;
      if m[0].key < x.key { InsertMembers(m[1..], x); }
    }
  }

  lemma {:induction false} InsertSorted(m: seq<Entry>, x: Entry)
    requires Sorted(m)
    ensures Sorted(Insert(m, x))
  {
    if m != [] && m[0].key < x.key {
      assert forall i :: 0 <= i < |m[1..]| ==> m[1..][i] == m[i + 1];
      InsertSorted(m[1..], x);
      InsertMembers(m[1..], x);
      ConsSorted(m[0], Insert(m[1..], x));
    }
  }

  lemma ConsSorted(y: Entry, m: seq<Entry>)
    requires Sorted(m) && forall z :: z in m ==> y.key < z.key
    ensures Sorted([y] + m)
  {
    assert forall i :: 0 <= i < |m| ==> m[i] in m;
  }

  lemma {:induction false} InsertLength(m: seq<Entry>, x: Entry)
    requires Sorted(m)
    ensures |Insert(m, x)| == |m| + (if HasKey(m, x.key) then 0 else 1)
  {
    if m == [] {
    } else if x.key < m[0].key {
      assert forall y :: y in m ==> x.key < y.key;
    } else {
      assert m == [m[0]] + m[1..];
      assert m[0] in m;
      if m[0].key < x.key {
        InsertLength(m[1..], x);
        assert HasKey(m, x.key) <==> HasKey(m[1..], x.key);
      }
    }
  }

  /** Every entry is a matching trace under its own key, and the last one with that key. */
  ghost predicate Sound(actions: seq<ActionTrace>, core: nat, n: nat, m: seq<Entry>)
    requires n <= |actions|
  {
    forall y :: y in m ==>
      && y.at < n && Matches(actions, core, y.at) && KeyOf(actions, y.at) == Success(y.key)
      && forall j :: y.at < j < n && Matches(actions, core, j) ==> KeyOf(actions, j) != Success(y.key)
  }

  /** The key of every matching trace is in the map. */
  ghost predicate Complete(actions: seq<ActionTrace>, core: nat, n: nat, m: seq<Entry>)
    requires n <= |actions|
  {
    forall j :: 0 <= j < n && Matches(actions, core, j) ==>
      KeyOf(actions, j).Success? && HasKey(m, KeyOf(actions, j).value)
  }

  lemma HasKeyInsert(m: seq<Entry>, x: Entry, key: nat)
    requires Sorted(m)
    ensures HasKey(Insert(m, x), key) <==> key == x.key || HasKey(m, key)
  {
    InsertMembers(m, x);
    var r := Insert(m, x);
    if HasKey(m, key) {
      var y :| y in m && y.key == key;
      assert if key == x.key then x in r else y in r;
    }
    assert x in r;
  }

  /** What the first `n` traces leave in the map: entries sorted by key, one for each key of
      a matching trace, at the last trace with that key; as many as there are matching traces
      exactly when no two of these share a key. */
  lemma {:induction false} TraceOrder(actions: seq<ActionTrace>, core: nat, n: nat)
    requires n <= |actions| && Collect(actions, core, n).Success?
    ensures var m := Collect(actions, core, n).value;
      && Sorted(m) && Sound(actions, core, n, m) && Complete(actions, core, n, m)
      && |m| <= Count(actions, core, n)
      && (|m| == Count(actions, core, n) <==> DistinctKeys(actions, core, n))
  {
    hide Matches, KeyOf, Sorted, HasKey, Insert, Sound, Complete, DistinctKeys;
    if n == 0 {
      TraceOrderStart(actions, core);
    } else {
      TraceOrder(actions, core, n - 1);
      if Matches(actions, core, n - 1) {
        var m, x := Collect(actions, core, n - 1).value, Entry(KeyOf(actions, n - 1).value, n - 1);
        InsertSorted(m, x);
        InsertLength(m, x);
        SoundMore(actions, core, n, m, x);
        CompleteMore(actions, core, n, m, x);
        DistinctMore(actions, core, n, m, x.key);
      } else {
        NoMatch(actions, core, n, Collect(actions, core, n - 1).value);
      }
    }
  }

  lemma TraceOrderStart(actions: seq<ActionTrace>, core: nat)
    ensures Sorted([]) && Sound(actions, core, 0, [])
    ensures Complete(actions, core, 0, []) && DistinctKeys(actions, core, 0)
  {
  }

  lemma SoundMore(actions: seq<ActionTrace>, core: nat, n: nat, m: seq<Entry>, x: Entry)
    requires 0 < n <= |actions| && Sorted(m) && Sound(actions, core, n - 1, m)
    requires x.at == n - 1 && Matches(actions, core, n - 1) && KeyOf(actions, n - 1) == Success(x.key)
    ensures Sound(actions, core, n, Insert(m, x))
  {
    hide Matches, KeyOf;
    InsertMembers(m, x);
  }

  lemma NoMatch(actions: seq<ActionTrace>, core: nat, n: nat, m: seq<Entry>)
    requires 0 < n <= |actions| && !Matches(actions, core, n - 1)
    requires Sound(actions, core, n - 1, m) && Complete(actions, core, n - 1, m)
    ensures Sound(actions, core, n, m) && Complete(actions, core, n, m)
    ensures DistinctKeys(actions, core, n) <==> DistinctKeys(actions, core, n - 1)
  {
    hide KeyOf, HasKey;
  }

  lemma CompleteMore(actions: seq<ActionTrace>, core: nat, n: nat, m: seq<Entry>, x: Entry)
    requires 0 < n <= |actions| && Sorted(m) && Complete(actions, core, n - 1, m)
    requires KeyOf(actions, n - 1) == Success(x.key)
    ensures Complete(actions, core, n, Insert(m, x))
  {
    hide Matches, KeyOf;
    forall j | 0 <= j < n && Matches(actions, core, j)
      ensures KeyOf(actions, j).Success? && HasKey(Insert(m, x), KeyOf(actions, j).value)
    {
      HasKeyInsert(m, x, if j == n - 1 then x.key else KeyOf(actions, j).value);
    }
  }

  lemma DistinctMore(actions: seq<ActionTrace>, core: nat, n: nat, m: seq<Entry>, key: nat)
    requires 0 < n <= |actions| && Matches(actions, core, n - 1) && KeyOf(actions, n - 1) == Success(key)
    requires Sound(actions, core, n - 1, m) && Complete(actions, core, n - 1, m)
    ensures DistinctKeys(actions, core, n) <==> DistinctKeys(actions, core, n - 1) && !HasKey(m, key)
  {
    hide Matches, KeyOf;
    if HasKey(m, key) {
      var y :| y in m && y.key == key;
      assert KeyOf(actions, y.at) == KeyOf(actions, n - 1);
    }
  }

  // ----- what a block may mix -----

  datatype Partial = Partial(block: NativeBlock, actions: seq<Action>)

  function EmitOne(p: Partial, a: Action): Result<Partial> {
    if a.name == ConfigChange then
      if p.block.newConfig.Some? then Failure(MultipleConfigs)
      else if p.actions != [] || p.block.transactions != [] then Failure(ConfigNotFirst)
      else Success(p.(block := p.block.(newConfig := Some(a))))
    else if p.block.newConfig.Some? && a.name == PushTx then Failure(PushWithConfig)
    else if p.actions != [] && Last(p.actions).name != a.name then Failure(MixedTransaction)
    else Success(p.(actions := p.actions + [a]))
  }

  function EmitAll(p: Partial, actions: seq<ActionTrace>, m: seq<Entry>): Result<Partial>
    requires forall y :: y in m ==> y.at < |actions|
  {
    if m == [] then Success(p)
    else
      var q :- EmitAll(p, actions, Init(m));
      EmitOne(q, ToAction(actions[Last(m).at]))
  }

  /** Closes the transaction; the names compared are those of the last actions, so both
      transactions must have one. */
  function Finish(p: Partial): Result<NativeBlock> {
    var trxs := p.block.transactions;
    if trxs != [] && (Last(trxs).actions == [] || p.actions == []) then Failure(Undefined)
    else if trxs != [] && Last(Last(trxs).actions).name != Last(p.actions).name then Failure(MixedBlock)
    else Success(p.block.(transactions := trxs + [NativeTrx(p.actions)]))
  }

  lemma CollectBounds(actions: seq<ActionTrace>, core: nat, n: nat)
    requires n <= |actions| && Collect(actions, core, n).Success?
    ensures forall y :: y in Collect(actions, core, n).value ==> y.at < n
  {
    TraceOrder(actions, core, n);
  }

  function AppendTrace(block: NativeBlock, core: nat, actions: seq<ActionTrace>): Result<NativeBlock> {
    var m :- Collect(actions, core, |actions|);
    if m == [] then Success(block)
    else
      CollectBounds(actions, core, |actions|);
      var p :- EmitAll(Partial(block, []), actions, m);
      Finish(p)
  }

  function AppendTraces(block: NativeBlock, core: nat, traces: seq<TransactionTrace>): Result<NativeBlock> {
    if traces == [] then Success(block)
    else
      var b :- AppendTraces(block, core, Init(traces));
      if Last(traces).executed then AppendTrace(b, core, Last(traces).actions) else Success(b)
  }

  function StartNative(m: BlockMessage): NativeBlock {
    NativeBlock(m.id, m.prev, m.blockNum, m.timestamp, 0, None, [])
  }

  /** Adds the actions of one transaction to the block. */
  method AppendToBlock(block: NativeBlock, core: nat, actions: seq<ActionTrace>) returns (r: Result<NativeBlock>)
    ensures r == AppendTrace(block, core, actions)
  {
    hide Matches, KeyOf, Insert, EmitOne, Sorted, Sound, Complete;
    var ordered: seq<Entry> := [];
    var j := 0;
    while j < |actions|
      invariant 0 <= j <= |actions|
      invariant Collect(actions, core, j) == Success(ordered)
    {
      if Matches(actions, core, j) {
        var key := KeyOf(actions, j);
        if key.Failure? {
          CollectFails(actions, core, j + 1, |actions|, key.error);
          return Failure(key.error);
        }
        ordered := Insert(ordered, Entry(key.value, j));
      }
      j := j + 1;
    }
    if ordered == [] {
      return Success(block);
    }
    CollectBounds(actions, core, |actions|);
    var p := Partial(block, []);
    var i := 0;
    while i < |ordered|
      invariant 0 <= i <= |ordered|
      invariant EmitAll(Partial(block, []), actions, ordered[..i]) == Success(p)
    {
      assert Init(ordered[..i + 1]) == ordered[..i] && Last(ordered[..i + 1]) == ordered[i];
      var q := EmitOne(p, ToAction(actions[ordered[i].at]));
      if q.Failure? {
        EmitFails(Partial(block, []), actions, ordered, i + 1, q.error);
        return Failure(q.error);
      }
      p := q.value;
      i := i + 1;
    }
    assert ordered[..i] == ordered;
    r := Finish(p);
  }

  lemma {:induction false} CollectFails(actions: seq<ActionTrace>, core: nat, n: nat, k: nat, error: Error)
    requires n <= k <= |actions| && Collect(actions, core, n) == Failure(error)
    ensures Collect(actions, core, k) == Failure(error)
    decreases k
  {
    if n < k { CollectFails(actions, core, n, k - 1, error); }
  }

  lemma {:induction false} EmitFails(p: Partial, actions: seq<ActionTrace>, m: seq<Entry>, n: nat, error: Error)
    requires (forall y :: y in m ==> y.at < |actions|) && n <= |m|
    requires EmitAll(p, actions, m[..n]) == Failure(error)
    ensures EmitAll(p, actions, m) == Failure(error)
    decreases |m|
  {
    if n == |m| {
      assert m[..n] == m;
    } else {
      assert Init(m)[..n] == m[..n];
      EmitFails(p, actions, Init(m), n, error);
    }
  }

  /** The block carries the message's id, predecessor, number, time and irreversible number. */
  predicate OfMessage(m: BlockMessage, b: NativeBlock) {
    && b.id == m.id && b.prev == m.prev && b.blockNum == m.blockNum
    && b.timestamp == m.timestamp && b.lib == m.lib
  }

  /** Turns a block message into a native block. */
  method ToNative(m: BlockMessage, core: nat) returns (r: Result<Option<NativeBlock>>)
    ensures !m.thisBlock ==> r == Success(None)
    ensures m.thisBlock ==> r == match AppendTraces(StartNative(m), core, m.traces)
                                 case Failure(error) => Failure(error)
                                 case Success(b) => Success(Some(b.(lib := m.lib)))
    ensures r.Success? && r.value.Some? ==> OfMessage(m, r.value.value)
  {
    if !m.thisBlock {
      return Success(None);
    }
    var b := StartNative(m);
    var i := 0;
    while i < |m.traces|
      invariant 0 <= i <= |m.traces|
      invariant AppendTraces(StartNative(m), core, m.traces[..i]) == Success(b)
    {
      assert Init(m.traces[..i + 1]) == m.traces[..i];
      if m.traces[i].executed {
        var q := AppendToBlock(b, core, m.traces[i].actions);
        if q.Failure? {
          TracesFail(StartNative(m), core, m.traces, i + 1, q.error);
          return Failure(q.error);
        }
        b := q.value;
      }
      i := i + 1;
    }
    assert m.traces[..i] == m.traces;
    TracesFrame(StartNative(m), core, m.traces);
    r := Success(Some(b.(lib := m.lib)));
  }

  lemma {:induction false} TracesFail(b: NativeBlock, core: nat, traces: seq<TransactionTrace>, n: nat, error: Error)
    requires n <= |traces| && AppendTraces(b, core, traces[..n]) == Failure(error)
    ensures AppendTraces(b, core, traces) == Failure(error)
    decreases |traces|
  {
    if n == |traces| {
      assert traces[..n] == traces;
    } else {
      assert Init(traces)[..n] == traces[..n];
      TracesFail(b, core, Init(traces), n, error);
    }
  }

  // ----- what is emitted -----

  /** The entries that are not configs, as actions, in order. */
  function Kept(actions: seq<ActionTrace>, m: seq<Entry>): seq<Action>
    requires forall y :: y in m ==> y.at < |actions|
  {
    if m == [] then []
    else
      var r := Kept(actions, Init(m));
      if actions[Last(m).at].name == ConfigChange then r else r + [ToAction(actions[Last(m).at])]
  }

  predicate ConfigAt(actions: seq<ActionTrace>, y: Entry) {
    y.at < |actions| && actions[y.at].name == ConfigChange
  }

  /** Emission keeps every entry, in key order, under one name; a config can only be the
      first entry, on a block that has neither config nor transaction, and excludes `pushtx`. */
  lemma {:induction false} Emitted(block: NativeBlock, actions: seq<ActionTrace>, m: seq<Entry>)
    requires forall y :: y in m ==> y.at < |actions|
    requires EmitAll(Partial(block, []), actions, m).Success?
    ensures var p := EmitAll(Partial(block, []), actions, m).value;
      && p.actions == Kept(actions, m)
      && p.block.transactions == block.transactions
      && (forall i :: 0 < i < |m| ==> !ConfigAt(actions, m[i]))
      && (m != [] && ConfigAt(actions, m[0]) ==>
            && block.newConfig.None? && block.transactions == []
            && p.block.newConfig == Some(ToAction(actions[m[0].at])))
      && (m == [] || !ConfigAt(actions, m[0]) ==> p.block == block)
      && (forall a :: a in p.actions ==> a.name != ConfigChange && a.name == Last(p.actions).name)
      && (p.block.newConfig.Some? ==> forall a :: a in p.actions ==> a.name != PushTx)
    decreases |m|
  {
    if m != [] {
      Emitted(block, actions, Init(m));
      var q := EmitAll(Partial(block, []), actions, Init(m)).value;
      var a := ToAction(actions[Last(m).at]);
      assert m[|m| - 1] == Last(m);
      if |m| > 1 {
        assert Init(m)[0] == m[0];
        if a.name == ConfigChange {
          KeptOrConfig(block, actions, Init(m));
          assert false;
        }
      }
    }
  }

  /** Once something was emitted, no config is accepted any more. */
  lemma {:induction false} KeptOrConfig(block: NativeBlock, actions: seq<ActionTrace>, m: seq<Entry>)
    requires (forall y :: y in m ==> y.at < |actions|) && m != []
    requires EmitAll(Partial(block, []), actions, m).Success?
    ensures var p := EmitAll(Partial(block, []), actions, m).value; p.actions != [] || p.block.newConfig.Some?
    decreases |m|
  {
    if |m| > 1 { KeptOrConfig(block, actions, Init(m)); }
  }

  ghost predicate AllNamed(trxs: seq<NativeTrx>, name: ActionName) {
    forall t, a :: t in trxs && a in t.actions ==> a.name == name
  }

  /** All actions are called `name`, which is not a config's and, beside a config, not `pushtx`. */
  ghost predicate HomogeneousAs(b: NativeBlock, name: ActionName) {
    AllNamed(b.transactions, name) && name != ConfigChange && (b.newConfig.Some? ==> name != PushTx)
  }

  /** One name for all actions of the block; a transaction without actions stands alone. */
  ghost predicate Homogeneous(b: NativeBlock) {
    && (exists name :: HomogeneousAs(b, name))
    && (|b.transactions| > 1 ==> forall t :: t in b.transactions ==> t.actions != [])
  }

  lemma {:induction false} FinishHomogeneous(block: NativeBlock, p: Partial)
    requires Homogeneous(block) && Finish(p).Success?
    requires p.block.transactions == block.transactions
    requires p.block == block || (block.newConfig.None? && block.transactions == [])
    requires forall a :: a in p.actions ==> a.name != ConfigChange && a.name == Last(p.actions).name
    requires p.block.newConfig.Some? ==> forall a :: a in p.actions ==> a.name != PushTx
    ensures Homogeneous(Finish(p).value)
  {
    var trxs, b, added := block.transactions, Finish(p).value, NativeTrx(p.actions);
    assert b.transactions == trxs + [added];
    if p.actions == [] {
      assert trxs == [];
      assert HomogeneousAs(b, EvmTx);
    } else {
      var name := Last(p.actions).name;
      assert Last(p.actions) in p.actions;
      assert AllNamed([added], name);
      if trxs != [] {
        var known :| HomogeneousAs(block, known);
        assert Last(trxs) in trxs && Last(Last(trxs).actions) in Last(trxs).actions;
        assert known == name;
        forall t | t in trxs
          ensures t.actions != []
        {
          if |trxs| == 1 { assert t == trxs[0]; }
        }
      }
      assert HomogeneousAs(b, name);
    }
  }

  lemma {:induction false} AppendHomogeneous(block: NativeBlock, core: nat, actions: seq<ActionTrace>)
    requires Homogeneous(block) && AppendTrace(block, core, actions).Success?
    ensures var b := AppendTrace(block, core, actions).value;
      && Homogeneous(b)
      && (block.newConfig.Some? ==> b.newConfig == block.newConfig)
      && (block.newConfig.None? && b.newConfig.Some? ==> block.transactions == [])
      && block.transactions <= b.transactions
  {
    hide Homogeneous, EmitAll;
    var m := Collect(actions, core, |actions|).value;
    if m != [] {
      CollectBounds(actions, core, |actions|);
      Emitted(block, actions, m);
      FinishHomogeneous(block, EmitAll(Partial(block, []), actions, m).value);
    }
  }

  /** Every block the receiver builds holds one kind of action; its config, if any, came
      before every transaction and excludes `pushtx`. */
  lemma {:induction false} NativeHomogeneous(block: NativeBlock, core: nat, traces: seq<TransactionTrace>)
    requires block.transactions == [] && block.newConfig.None?
    requires AppendTraces(block, core, traces).Success?
    ensures Homogeneous(AppendTraces(block, core, traces).value)
    decreases |traces|
  {
    if traces == [] {
      assert HomogeneousAs(block, EvmTx);
    } else {
      NativeHomogeneous(block, core, Init(traces));
      var b := AppendTraces(block, core, Init(traces)).value;
      if Last(traces).executed { AppendHomogeneous(b, core, Last(traces).actions); }
    }
  }

  /** The comparison with the previous transaction reads a missing last action exactly when
      that transaction consisted of a config alone: the receiver relies on every config
      coming with an `evmtx`. */
  lemma {:induction false} UndefinedExactly(block: NativeBlock, core: nat, actions: seq<ActionTrace>)
    requires Collect(actions, core, |actions|).Success?
    requires forall y :: y in Collect(actions, core, |actions|).value ==> y.at < |actions|
    ensures var m := Collect(actions, core, |actions|).value;
      AppendTrace(block, core, actions) == Failure(Undefined) <==>
        && m != [] && EmitAll(Partial(block, []), actions, m).Success?
        && block.transactions != [] && Last(block.transactions).actions == []
  {
    var m := Collect(actions, core, |actions|).value;
    if m != [] {
      if EmitAll(Partial(block, []), actions, m).Success? {
        Emitted(block, actions, m);
        KeptOrConfig(block, actions, m);
        KeptWithoutConfig(actions, m);
      } else {
        EmitErrors(Partial(block, []), actions, m);
      }
    }
  }

  lemma {:induction false} KeptWithoutConfig(actions: seq<ActionTrace>, m: seq<Entry>)
    requires (forall y :: y in m ==> y.at < |actions|) && m != []
    ensures !ConfigAt(actions, m[0]) ==> Kept(actions, m) != []
    decreases |m|
  {
    if |m| > 1 { KeptWithoutConfig(actions, Init(m)); }
  }

  lemma {:induction false} EmitErrors(p: Partial, actions: seq<ActionTrace>, m: seq<Entry>)
    requires forall y :: y in m ==> y.at < |actions|
    ensures EmitAll(p, actions, m).Failure? ==> EmitAll(p, actions, m).error != Undefined
    decreases |m|
  {
    if m != [] { EmitErrors(p, actions, Init(m)); }
  }

  // ----- which transaction is added, and when -----

  /** Whether a config, or anything but a config, is among the matching traces. */
  ghost predicate HasConfig(actions: seq<ActionTrace>, core: nat) {
    exists j: nat :: Matches(actions, core, j) && actions[j].name == ConfigChange
  }

  ghost predicate HasOther(actions: seq<ActionTrace>, core: nat) {
    exists j: nat :: Matches(actions, core, j) && actions[j].name != ConfigChange
  }

  lemma {:induction false} CountZero(actions: seq<ActionTrace>, core: nat, n: nat)
    requires n <= |actions|
    ensures Count(actions, core, n) == 0 <==> forall j: nat :: j < n ==> !Matches(actions, core, j)
  {
    hide Matches;
    if n > 0 { CountZero(actions, core, n - 1); }
  }

  /** The map is empty exactly when nothing matches. */
  lemma {:induction false} CollectEmpty(actions: seq<ActionTrace>, core: nat)
    requires Collect(actions, core, |actions|).Success?
    ensures Collect(actions, core, |actions|).value == [] <==> Count(actions, core, |actions|) == 0
  {
    hide Collect, Count, KeyOf, Sorted, DistinctKeys, Sound, Insert;
    TraceOrder(actions, core, |actions|);
    CountZero(actions, core, |actions|);
  }

  /** What an accepted transaction adds: nothing if no trace matches, else one native
      transaction with the actions kept in key order (what is kept is `TraceOrder`), configs left
      out, and the config, if any, as the block's. */
  lemma {:induction false} AddedTransaction(block: NativeBlock, core: nat, actions: seq<ActionTrace>)
    requires AppendTrace(block, core, actions).Success?
    ensures var r, c := AppendTrace(block, core, actions).value, Collect(actions, core, |actions|);
      && c.Success? && Sorted(c.value)
      && Sound(actions, core, |actions|, c.value) && Complete(actions, core, |actions|, c.value)
      && (Count(actions, core, |actions|) == 0 ==> r == block)
      && (Count(actions, core, |actions|) != 0 ==>
            && c.value != []
            && r.transactions == block.transactions + [NativeTrx(Kept(actions, c.value))]
            && r == block.(transactions := r.transactions, newConfig := r.newConfig)
            && r.newConfig == if ConfigAt(actions, c.value[0]) then Some(ToAction(actions[c.value[0].at]))
                              else block.newConfig)
  {
    hide Collect, Count, KeyOf, Sorted, DistinctKeys, EmitAll, HasKey, Matches;
    TraceOrder(actions, core, |actions|);
    CollectEmpty(actions, core);
    var m := Collect(actions, core, |actions|).value;
    if m != [] {
      CollectBounds(actions, core, |actions|);
      Emitted(block, actions, m);
      OnlyConfigChanges(block, actions, m);
    }
  }

  lemma {:induction false} OnlyConfigChanges(block: NativeBlock, actions: seq<ActionTrace>, m: seq<Entry>)
    requires forall y :: y in m ==> y.at < |actions|
    requires EmitAll(Partial(block, []), actions, m).Success?
    ensures var b := EmitAll(Partial(block, []), actions, m).value.block;
      b == block.(newConfig := b.newConfig)
    decreases |m|
  {
    if m != [] { OnlyConfigChanges(block, actions, Init(m)); }
  }

  /** Emission of entries of which only the first may be a config and all others are called
      `name`: when it succeeds. */
  lemma {:induction false} EmitExactly(
    block: NativeBlock, actions: seq<ActionTrace>, m: seq<Entry>, config: bool, name: ActionName)
    requires (forall y :: y in m ==> y.at < |actions|) && name != ConfigChange && (config ==> m != [])
    requires forall i :: 0 <= i < |m| ==> actions[m[i].at].name == if config && i == 0 then ConfigChange else name
    ensures EmitAll(Partial(block, []), actions, m).Success? <==>
      && (config ==> block.newConfig.None? && block.transactions == [])
      && ((config && |m| > 1) || (block.newConfig.Some? && m != []) ==> name != PushTx)
    decreases |m|
  {
    if m != [] {
      var rest, a := Init(m), ToAction(actions[Last(m).at]);
      assert Last(m) == m[|m| - 1];
      if |m| == 1 {
        assert EmitAll(Partial(block, []), actions, rest) == Success(Partial(block, []));
      } else {
        EmitExactly(block, actions, rest, config, name);
        if EmitAll(Partial(block, []), actions, rest).Success? {
          Emitted(block, actions, rest);
          KeptNames(actions, rest, config, name);
        }
      }
    }
  }

  lemma {:induction false} KeptNames(actions: seq<ActionTrace>, m: seq<Entry>, config: bool, name: ActionName)
    requires (forall y :: y in m ==> y.at < |actions|) && name != ConfigChange && m != []
    requires forall i :: 0 <= i < |m| ==> actions[m[i].at].name == if config && i == 0 then ConfigChange else name
    ensures Kept(actions, m) == [] <==> config && |m| == 1
    ensures Kept(actions, m) != [] ==> Last(Kept(actions, m)).name == name
    ensures ConfigAt(actions, m[0]) <==> config
    decreases |m|
  {
    assert Last(m) == m[|m| - 1];
    if |m| > 1 { KeptNames(actions, Init(m), config, name); }
  }

  /** Only configs have key 0. */
  ghost predicate NonZeroKeys(actions: seq<ActionTrace>, core: nat) {
    forall j: nat :: Matches(actions, core, j) && actions[j].name != ConfigChange ==> KeyOf(actions, j) != Success(0)
  }

  /** A kept entry is a matching trace, and a config exactly if its key is 0. */
  lemma {:induction false} EntryKind(actions: seq<ActionTrace>, core: nat, m: seq<Entry>, i: nat)
    requires NonZeroKeys(actions, core) && Sound(actions, core, |actions|, m) && i < |m|
    ensures Matches(actions, core, m[i].at)
    ensures actions[m[i].at].name == if m[i].key == 0 then ConfigChange else Searched(actions, core)
  {
    hide Searched;
    assert m[i] in m;
  }

  /** Every matching trace has an entry with its key. */
  lemma {:induction false} EntryOf(actions: seq<ActionTrace>, core: nat, m: seq<Entry>, j: nat) returns (i: nat)
    requires NonZeroKeys(actions, core) && Complete(actions, core, |actions|, m) && Matches(actions, core, j)
    ensures i < |m| && (m[i].key == 0 <==> actions[j].name == ConfigChange)
  {
    hide Searched;
    var y :| y in m && y.key == KeyOf(actions, j).value;
    i :| 0 <= i < |m| && m[i] == y;
  }

  /** What the kept entries look like then: a config comes first, and the rest has one name. */
  lemma {:induction false} KeptShape(actions: seq<ActionTrace>, core: nat)
    requires NonZeroKeys(actions, core) && Collect(actions, core, |actions|).Success?
    ensures var m := Collect(actions, core, |actions|).value;
      && (forall y :: y in m ==> y.at < |actions|)
      && (m == [] <==> !HasConfig(actions, core) && !HasOther(actions, core))
      && (forall i :: 0 <= i < |m| ==>
            actions[m[i].at].name ==
              if HasConfig(actions, core) && i == 0 then ConfigChange else Searched(actions, core))
      && (HasOther(actions, core) <==> if HasConfig(actions, core) then |m| > 1 else m != [])
  {
    hide Collect, HasEvmTx, DistinctKeys, Count, KeyOf, Sound, Complete, NonZeroKeys;
    TraceOrder(actions, core, |actions|);
    CollectBounds(actions, core, |actions|);
    var m := Collect(actions, core, |actions|).value;
    KeptKinds(actions, core, m);
    forall i | 0 <= i < |m|
      ensures if m[i].key == 0 then HasConfig(actions, core) else HasOther(actions, core)
    {
      assert Matches(actions, core, m[i].at);
    }
    if HasConfig(actions, core) {
      var j: nat :| Matches(actions, core, j) && actions[j].name == ConfigChange;
      var i := EntryOf(actions, core, m, j);
      assert m[0].key == 0;
    }
    assert |m| > 1 ==> m[1].key != 0;
    if HasOther(actions, core) {
      var j: nat :| Matches(actions, core, j) && actions[j].name != ConfigChange;
      var i := EntryOf(actions, core, m, j);
    }
  }

  lemma {:induction false} KeptKinds(actions: seq<ActionTrace>, core: nat, m: seq<Entry>)
    requires NonZeroKeys(actions, core) && Sorted(m) && Sound(actions, core, |actions|, m)
    ensures forall i :: 0 <= i < |m| ==>
      && m[i].at < |actions| && Matches(actions, core, m[i].at)
      && actions[m[i].at].name == (if m[i].key == 0 then ConfigChange else Searched(actions, core))
      && (0 < i ==> m[i].key != 0)
  {
    hide Searched, NonZeroKeys, Sound;
    forall i | 0 <= i < |m|
      ensures m[i].at < |actions| && Matches(actions, core, m[i].at)
      ensures actions[m[i].at].name == (if m[i].key == 0 then ConfigChange else Searched(actions, core))
      ensures 0 < i ==> m[i].key != 0
    {
      EntryKind(actions, core, m, i);
      assert 0 < i ==> m[0].key < m[i].key;
    }
  }

  /** When a transaction whose non-config keys are not zero is accepted: its own order is
      sound, and with a config the block must be untouched and no `pushtx` may come along;
      without one it must agree with the block's config and with its last action's name. */
  lemma {:induction false} AcceptedExactly(block: NativeBlock, core: nat, actions: seq<ActionTrace>)
    requires NonZeroKeys(actions, core)
    ensures AppendTrace(block, core, actions).Success? <==>
      && Collect(actions, core, |actions|).Success?
      && (HasConfig(actions, core) ==>
            && block.newConfig.None? && block.transactions == []
            && (HasOther(actions, core) ==> Searched(actions, core) == EvmTx))
      && (!HasConfig(actions, core) && HasOther(actions, core) ==>
            && (block.newConfig.Some? ==> Searched(actions, core) == EvmTx)
            && (block.transactions != [] ==>
                  && Last(block.transactions).actions != []
                  && Last(Last(block.transactions).actions).name == Searched(actions, core)))
  {
    hide Collect, Matches, EmitAll, Kept, HasConfig, HasOther, NonZeroKeys, HasEvmTx;
    if Collect(actions, core, |actions|).Success? {
      var m, name := Collect(actions, core, |actions|).value, Searched(actions, core);
      KeptShape(actions, core);
      if m != [] {
        EmitExactly(block, actions, m, HasConfig(actions, core), name);
        if EmitAll(Partial(block, []), actions, m).Success? {
          Emitted(block, actions, m);
          KeptNames(actions, m, HasConfig(actions, core), name);
        }
      }
    }
  }

  // ----- the order, on the traces' own fields -----

  /** The action that created trace `j` comes before it and has a receipt. */
  predicate Created(actions: seq<ActionTrace>, j: nat) {
    && j < |actions| && 0 < actions[j].creator <= j
    && actions[actions[j].creator - 1].receipt.Some?
  }

  /** Global sequence of the action that created trace `j`. */
  function CreatorSequence(actions: seq<ActionTrace>, j: nat): nat
    requires Created(actions, j)
  {
    actions[actions[j].creator - 1].receipt.value
  }

  /** Trace `j` has what its place in the order needs. */
  predicate Sequenced(actions: seq<ActionTrace>, j: nat) {
    j < |actions| && actions[j].receipt.Some? && (actions[j].name == EvmTx ==> Created(actions, j))
  }

  /** Execution order: `evmtx` by the sequences of their creators, `pushtx` by their own, and a
      config before everything else. */
  predicate Precedes(actions: seq<ActionTrace>, i: nat, j: nat) {
    && Sequenced(actions, i) && Sequenced(actions, j) && actions[j].name != ConfigChange
    && (actions[i].name == EvmTx ==>
          actions[j].name == EvmTx && CreatorSequence(actions, i) < CreatorSequence(actions, j))
    && (actions[i].name == PushTx ==>
          actions[j].name == PushTx && actions[i].receipt.value < actions[j].receipt.value)
  }

  /** Both traces have the same place in the order, so the map keeps one of them. */
  predicate SamePlace(actions: seq<ActionTrace>, i: nat, j: nat) {
    && Sequenced(actions, i) && Sequenced(actions, j) && actions[i].name == actions[j].name
    && (actions[i].name == EvmTx ==> CreatorSequence(actions, i) == CreatorSequence(actions, j))
    && (actions[i].name == PushTx ==> actions[i].receipt.value == actions[j].receipt.value)
  }

  /** The order can be computed exactly if every matching trace has a receipt and every
      matching `evmtx` an earlier creator with a receipt. */
  lemma {:induction false} CollectAccepted(actions: seq<ActionTrace>, core: nat, n: nat)
    requires n <= |actions|
    ensures Collect(actions, core, n).Success? <==>
      forall j: nat :: j < n && Matches(actions, core, j) ==> Sequenced(actions, j)
  {
    hide Matches, Insert, Sequenced, KeyOf;
    if n > 0 {
      CollectAccepted(actions, core, n - 1);
      KeySequenced(actions, n - 1);
    }
  }

  lemma KeySequenced(actions: seq<ActionTrace>, j: nat)
    requires j < |actions|
    ensures KeyOf(actions, j).Success? <==> Sequenced(actions, j)
    ensures Sequenced(actions, j) && actions[j].name == EvmTx ==>
      KeyOf(actions, j) == Success(CreatorSequence(actions, j))
    ensures Sequenced(actions, j) && actions[j].name == PushTx ==>
      KeyOf(actions, j) == Success(actions[j].receipt.value)
    ensures Sequenced(actions, j) && actions[j].name == ConfigChange ==> KeyOf(actions, j) == Success(0)
  {
  }

  /** A matching trace is the contract's, and is either a config or what is searched for: an
      `evmtx` if the contract has one in this transaction, else a `pushtx`. */
  lemma MatchesMeans(actions: seq<ActionTrace>, core: nat, j: nat)
    ensures Matches(actions, core, j) <==>
      && j < |actions| && actions[j].receiver == core
      && (actions[j].name == ConfigChange || actions[j].name == EvmTx
          || (actions[j].name == PushTx &&
              forall k :: 0 <= k < |actions| && actions[k].receiver == core ==> actions[k].name != EvmTx))
    ensures Matches(actions, core, j) && actions[j].name != ConfigChange ==> actions[j].name == Searched(actions, core)
  {
    if j < |actions| && actions[j].receiver == core && actions[j].name == EvmTx {
      assert HasEvmTx(actions, core);
    }
  }

  /** Kept entries stand in execution order. */
  lemma {:induction false} KeptInOrder(actions: seq<ActionTrace>, core: nat, m: seq<Entry>, p: nat, q: nat)
    requires Sorted(m) && Sound(actions, core, |actions|, m) && p < q < |m|
    ensures Precedes(actions, m[p].at, m[q].at)
  {
    hide KeyOf, Matches, Searched, HasEvmTx, Sequenced, Created;
    assert m[p] in m && m[q] in m;
    KeySequenced(actions, m[p].at);
    KeySequenced(actions, m[q].at);
    MatchesMeans(actions, core, m[p].at);
    MatchesMeans(actions, core, m[q].at);
  }

  /** Whether a config leads the kept entries. */
  function Lead(actions: seq<ActionTrace>, m: seq<Entry>): nat {
    if m != [] && ConfigAt(actions, m[0]) then 1 else 0
  }

  lemma {:induction false} KeptIs(actions: seq<ActionTrace>, m: seq<Entry>)
    requires forall y :: y in m ==> y.at < |actions|
    requires forall i :: 0 < i < |m| ==> !ConfigAt(actions, m[i])
    ensures |Kept(actions, m)| == |m| - Lead(actions, m)
    ensures forall i :: 0 <= i < |Kept(actions, m)| ==>
      Kept(actions, m)[i] == ToAction(actions[m[i + Lead(actions, m)].at])
    decreases |m|
  {
    if m != [] {
      KeptIs(actions, Init(m));
      assert Last(m) == m[|m| - 1];
    }
  }

  /** The added actions are those at the positions `ats`: traces of the contract under the
      searched name, in execution order; and every such trace is one of them, or an earlier one
      with the same place. */
  ghost predicate AddedAt(actions: seq<ActionTrace>, core: nat, added: seq<Action>, ats: seq<nat>) {
    && |ats| == |added|
    && (forall i :: 0 <= i < |ats| ==>
          && Matches(actions, core, ats[i]) && actions[ats[i]].name != ConfigChange
          && added[i] == Action(actions[ats[i]].name, actions[ats[i]].data))
    && (forall i, k :: 0 <= i < k < |ats| ==> Precedes(actions, ats[i], ats[k]))
    && (forall j: nat :: Matches(actions, core, j) && actions[j].name != ConfigChange ==> Represented(actions, ats, j))
  }

  predicate Represented(actions: seq<ActionTrace>, ats: seq<nat>, j: nat) {
    exists i :: 0 <= i < |ats| && j <= ats[i] && SamePlace(actions, j, ats[i])
  }

  /** Some kept entry has the place of a matching trace, and is not earlier. */
  lemma {:induction false} EntryWithPlace(actions: seq<ActionTrace>, core: nat, m: seq<Entry>, j: nat) returns (i: nat)
    requires NonZeroKeys(actions, core)
    requires Sound(actions, core, |actions|, m) && Complete(actions, core, |actions|, m)
    requires Matches(actions, core, j)
    ensures i < |m| && j <= m[i].at && SamePlace(actions, j, m[i].at)
  {
    hide Searched, HasEvmTx, Matches, KeyOf, Sequenced, Created;
    MatchesMeans(actions, core, j);
    KeySequenced(actions, j);
    var y :| y in m && y.key == KeyOf(actions, j).value;
    i :| 0 <= i < |m| && m[i] == y;
    MatchesMeans(actions, core, y.at);
    KeySequenced(actions, y.at);
  }

  /** Positions of the traces whose actions are added. */
  function PositionsOf(actions: seq<ActionTrace>, m: seq<Entry>): (ats: seq<nat>)
    ensures |ats| == |m| - Lead(actions, m)
    ensures forall i :: 0 <= i < |ats| ==> ats[i] == m[i + Lead(actions, m)].at
  {
    var c := Lead(actions, m);
    seq<nat>(|m| - c, i requires 0 <= i < |m| - c => m[i + c].at)
  }

  lemma {:induction false} PositionsOrdered(actions: seq<ActionTrace>, core: nat, m: seq<Entry>)
    requires Sorted(m) && Sound(actions, core, |actions|, m)
    ensures var ats := PositionsOf(actions, m); forall i, k :: 0 <= i < k < |ats| ==> Precedes(actions, ats[i], ats[k])
  {
    hide Sorted, Sound, Precedes, PositionsOf, Lead;
    var ats, c := PositionsOf(actions, m), Lead(actions, m);
    forall i, k | 0 <= i < k < |ats|
      ensures Precedes(actions, ats[i], ats[k])
    {
      KeptInOrder(actions, core, m, i + c, k + c);
    }
  }

  lemma {:induction false} PositionsComplete(actions: seq<ActionTrace>, core: nat, m: seq<Entry>, j: nat)
    requires NonZeroKeys(actions, core)
    requires Sound(actions, core, |actions|, m) && Complete(actions, core, |actions|, m)
    requires Matches(actions, core, j) && actions[j].name != ConfigChange
    ensures Represented(actions, PositionsOf(actions, m), j)
  {
    hide Sound, Complete, NonZeroKeys, Matches, SamePlace, PositionsOf;
    var ats, c := PositionsOf(actions, m), Lead(actions, m);
    var i := EntryWithPlace(actions, core, m, j);
    SameName(actions, j, m[i].at);
    assert m[i].at == ats[i - c];
  }

  lemma {:induction false} PositionsAdded(actions: seq<ActionTrace>, core: nat, m: seq<Entry>)
    requires NonZeroKeys(actions, core) && Sorted(m)
    requires Sound(actions, core, |actions|, m) && Complete(actions, core, |actions|, m)
    requires forall y :: y in m ==> y.at < |actions|
    ensures AddedAt(actions, core, Kept(actions, m), PositionsOf(actions, m))
  {
    hide Sorted, Sound, Complete, NonZeroKeys, Precedes, PositionsOf, Represented, Kept, Searched;
    var ats, c := PositionsOf(actions, m), Lead(actions, m);
    KeptKinds(actions, core, m);
    SearchedName(actions, core);
    KeptIs(actions, m);
    PositionsOrdered(actions, core, m);
    forall j: nat | Matches(actions, core, j) && actions[j].name != ConfigChange
      ensures Represented(actions, ats, j)
    {
      PositionsComplete(actions, core, m, j);
    }
  }

  /** What an accepted transaction adds, in execution order on the traces' own fields. */
  lemma {:induction false} AddedInOrder(block: NativeBlock, core: nat, actions: seq<ActionTrace>)
    returns (ats: seq<nat>)
    requires AppendTrace(block, core, actions).Success? && NonZeroKeys(actions, core)
    requires Count(actions, core, |actions|) != 0
    ensures var r := AppendTrace(block, core, actions).value;
      && r.transactions != [] && Init(r.transactions) == block.transactions
      && AddedAt(actions, core, Last(r.transactions).actions, ats)
  {
    hide Collect, Count, Sorted, Sound, Complete, AppendTrace, Kept, NonZeroKeys, AddedAt, PositionsOf;
    AddedTransaction(block, core, actions);
    var m := Collect(actions, core, |actions|).value;
    CollectBounds(actions, core, |actions|);
    PositionsAdded(actions, core, m);
    ats := PositionsOf(actions, m);
  }

  lemma SearchedName(actions: seq<ActionTrace>, core: nat)
    ensures Searched(actions, core) != ConfigChange
  {
  }

  lemma SameName(actions: seq<ActionTrace>, i: nat, j: nat)
    requires SamePlace(actions, i, j)
    ensures i < |actions| && j < |actions| && actions[i].name == actions[j].name
  {
  }

  // ----- a whole block -----

  /** Transactions change only the transactions and the config of the block. */
  lemma {:induction false} TracesFrame(b: NativeBlock, core: nat, traces: seq<TransactionTrace>)
    requires AppendTraces(b, core, traces).Success?
    ensures var r := AppendTraces(b, core, traces).value;
      && r.id == b.id && r.prev == b.prev && r.blockNum == b.blockNum && r.timestamp == b.timestamp && r.lib == b.lib
    decreases |traces|
  {
    hide AppendTrace;
    if traces != [] {
      TracesFrame(b, core, Init(traces));
      if Last(traces).executed {
        TraceFrame(AppendTraces(b, core, Init(traces)).value, core, Last(traces).actions);
      }
    }
  }

  lemma {:induction false} TraceFrame(b: NativeBlock, core: nat, actions: seq<ActionTrace>)
    requires AppendTrace(b, core, actions).Success?
    ensures var r := AppendTrace(b, core, actions).value;
      && r.id == b.id && r.prev == b.prev && r.blockNum == b.blockNum && r.timestamp == b.timestamp && r.lib == b.lib
  {
    hide AppendTrace, Collect, Count, Sorted, Sound, Complete, Kept;
    AddedTransaction(b, core, actions);
    var r := AppendTrace(b, core, actions).value;
    if Count(actions, core, |actions|) != 0 {
      assert b.(transactions := r.transactions, newConfig := r.newConfig).id == b.id;
    }
  }

  /** The executed transactions that hold something of the contract's. */
  ghost function Contributing(core: nat, traces: seq<TransactionTrace>): seq<TransactionTrace> {
    if traces == [] then []
    else
      var r, t := Contributing(core, Init(traces)), Last(traces);
      if t.executed && exists j: nat :: Matches(t.actions, core, j) then r + [t] else r
  }

  ghost predicate AddedFrom(actions: seq<ActionTrace>, core: nat, added: seq<Action>) {
    exists ats: seq<nat> :: AddedAt(actions, core, added, ats)
  }

  /** A block holds one transaction for each executed transaction that holds something of the
      contract's, in order, with that one's actions in execution order. */
  lemma {:induction false} BlockContents(b: NativeBlock, core: nat, traces: seq<TransactionTrace>)
    requires AppendTraces(b, core, traces).Success? && b.transactions == []
    requires forall t :: t in traces ==> NonZeroKeys(t.actions, core)
    ensures var trxs, from := AppendTraces(b, core, traces).value.transactions, Contributing(core, traces);
      && |trxs| == |from|
      && forall i :: 0 <= i < |from| ==> AddedFrom(from[i].actions, core, trxs[i].actions)
    decreases |traces|
  {
    hide AppendTrace, NonZeroKeys, Matches, AddedAt;
    if traces != [] {
      var rest, t := Init(traces), Last(traces);
      assert traces == rest + [t];
      BlockContents(b, core, rest);
      if t.executed { OneContribution(AppendTraces(b, core, rest).value, core, t.actions); }
    }
  }

  lemma {:induction false} OneContribution(b: NativeBlock, core: nat, actions: seq<ActionTrace>)
    requires AppendTrace(b, core, actions).Success? && NonZeroKeys(actions, core)
    ensures var trxs := AppendTrace(b, core, actions).value.transactions;
      if exists j: nat :: Matches(actions, core, j) then
        trxs != [] && Init(trxs) == b.transactions && AddedFrom(actions, core, Last(trxs).actions)
      else
        trxs == b.transactions
  {
    hide AppendTrace, NonZeroKeys, AddedAt, Collect, Count, Sorted, Sound, Complete, Kept;
    CountZero(actions, core, |actions|);
    AddedTransaction(b, core, actions);
    if Count(actions, core, |actions|) != 0 {
      var ats := AddedInOrder(b, core, actions);
      assert AddedFrom(actions, core, Last(AppendTrace(b, core, actions).value.transactions).actions);
    }
  }

  /** Why an entry is refused. */
  lemma EmitRefused(p: Partial, a: Action)
    ensures var r, held := EmitOne(p, a), p.block.newConfig.Some?;
      && (r == Failure(MultipleConfigs) <==> a.name == ConfigChange && held)
      && (r == Failure(ConfigNotFirst) <==>
            a.name == ConfigChange && !held && (p.actions != [] || p.block.transactions != []))
      && (r == Failure(PushWithConfig) <==> a.name == PushTx && held)
      && (r == Failure(MixedTransaction) <==>
            && a.name != ConfigChange && !(a.name == PushTx && held)
            && p.actions != [] && Last(p.actions).name != a.name)
  {
  }

  // ----- two inputs -----

  function Untouched(): NativeBlock {
    NativeBlock(11, 10, 11, 0, 0, None, [])
  }

  /** A transaction with a config alone, then one with an `evmtx`, in a block: the comparison of
      names reads a last action that does not exist. */
  lemma ConfigAloneThenEvmTx()
    ensures var config := TransactionTrace(true, [ActionTrace(0, 1, ConfigChange, Some(7), [])]);
      var evm := TransactionTrace(true, [ActionTrace(0, 2, OtherName(0), Some(8), []),
                                         ActionTrace(1, 1, EvmTx, Some(9), [3])]);
      && AppendTraces(Untouched(), 1, [config]).Success?
      && AppendTraces(Untouched(), 1, [config, evm]) == Failure(Undefined)
  {
    var a, b := [ActionTrace(0, 1, ConfigChange, Some(7), [])],
                [ActionTrace(0, 2, OtherName(0), Some(8), []), ActionTrace(1, 1, EvmTx, Some(9), [3])];
    var config, evm := TransactionTrace(true, a), TransactionTrace(true, b);
    var first := Untouched().(newConfig := Some(Action(ConfigChange, [])), transactions := [NativeTrx([])]);
    assert Matches(a, 1, 0) && KeyOf(a, 0) == Success(0);
    OneEntry(a, 1, 0, 0);
    EmitOnly(Partial(Untouched(), []), a, Entry(0, 0));
    assert EmitAll(Partial(Untouched(), []), a, [Entry(0, 0)]) ==
      Success(Partial(Untouched().(newConfig := Some(Action(ConfigChange, []))), []));
    assert [] + [NativeTrx([])] == [NativeTrx([])];
    assert AppendTrace(Untouched(), 1, a) == Success(first);
    assert !Matches(b, 1, 0) && b[1].name == EvmTx && Matches(b, 1, 1) && KeyOf(b, 1) == Success(8);
    OneEntry(b, 1, 8, 1);
    EmitOnly(Partial(first, []), b, Entry(8, 1));
    assert AppendTrace(first, 1, b) == Failure(Undefined);
    assert Init([config]) == [] && Init([config, evm]) == [config];
    assert AppendTraces(Untouched(), 1, []) == Success(Untouched());
    assert AppendTraces(Untouched(), 1, [config]) == Success(first);
  }

  lemma EmitOnly(p: Partial, actions: seq<ActionTrace>, y: Entry)
    requires y.at < |actions|
    ensures EmitAll(p, actions, [y]) == EmitOne(p, ToAction(actions[y.at]))
  {
    assert Init([y]) == [] && EmitAll(p, actions, []) == Success(p);
  }

  /** The map when only the last trace matches. */
  lemma OneEntry(actions: seq<ActionTrace>, core: nat, key: nat, at: nat)
    requires |actions| == at + 1 && at <= 1 && Matches(actions, core, at) && KeyOf(actions, at) == Success(key)
    requires at == 1 ==> !Matches(actions, core, 0)
    ensures Collect(actions, core, |actions|) == Success([Entry(key, at)])
  {
    hide Matches, KeyOf;
    assert Collect(actions, core, 0) == Success([]);
    assert Collect(actions, core, at) == Success([]);
    assert Insert([], Entry(key, at)) == [Entry(key, at)];
    assert Collect(actions, core, at + 1) == Success([Entry(key, at)]);
  }

  /** Two `evmtx` actions created by one action share its sequence: both match, and only the
      later one is kept. */
  lemma SameCreatorLosesOne()
    ensures var actions := [ActionTrace(0, 2, OtherName(0), Some(5), []),
                            ActionTrace(1, 1, EvmTx, Some(6), [1]), ActionTrace(1, 1, EvmTx, Some(7), [2])];
      && Count(actions, 1, 3) == 2
      && AppendTrace(Untouched(), 1, actions) ==
           Success(Untouched().(transactions := [NativeTrx([Action(EvmTx, [2])])]))
  {
    var actions := [ActionTrace(0, 2, OtherName(0), Some(5), []),
                    ActionTrace(1, 1, EvmTx, Some(6), [1]), ActionTrace(1, 1, EvmTx, Some(7), [2])];
    assert actions[1].name == EvmTx && actions[1].receiver == 1;
    assert !Matches(actions, 1, 0) && Matches(actions, 1, 1) && Matches(actions, 1, 2);
    assert KeyOf(actions, 1) == Success(5) && KeyOf(actions, 2) == Success(5);
    assert Count(actions, 1, 1) == 0 && Count(actions, 1, 2) == 1;
    assert Collect(actions, 1, 0) == Success([]) && Collect(actions, 1, 1) == Success([]);
    assert Insert([], Entry(5, 1)) == [Entry(5, 1)];
    assert Collect(actions, 1, 2) == Success([Entry(5, 1)]);
    assert Insert([Entry(5, 1)], Entry(5, 2)) == [Entry(5, 2)];
    assert Collect(actions, 1, 3) == Success([Entry(5, 2)]);
    EmitOnly(Partial(Untouched(), []), actions, Entry(5, 2));
    var act := Action(EvmTx, [2]);
    assert [] + [act] == [act] && [] + [NativeTrx([act])] == [NativeTrx([act])];
    assert EmitAll(Partial(Untouched(), []), actions, [Entry(5, 2)]) == Success(Partial(Untouched(), [act]));
  }
}
