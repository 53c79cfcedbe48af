/** Where the receiver resumes after a disconnect, and why the native blocks it is then sent
    again change nothing. */
module Reconnect {
  import opened Types
  import opened Seqs
  import opened Conversion
  import opened Grouping
  import opened RollbackProofs
  import opened Runs
  import opened Finality
  import Converters
  import Output
  import Uniformity

  function Min(a: nat, b: nat): nat {
    if b < a then b else a
  }

  /** What the receiver remembers from one connection to the next. */
  datatype Memory = Memory(lastLib: nat, lastBlockNum: nat)

  /** After a block is read. */
  function Remember(m: Memory, b: NativeBlock): Memory {
    Memory(b.lib, b.blockNum)
  }

  function RememberAll(m: Memory, bs: seq<NativeBlock>): Memory {
    if bs == [] then m else Remember(RememberAll(m, Init(bs)), Last(bs))
  }

  /** First native block to request: after the smaller of the reported irreversible number and
      the last number read, or, before anything was read, after the stored start block. */
  function Resume(e: Env, m: Memory, stored: Option<Block>): Option<nat> {
    if m.lastLib > 0 then Some(Min(m.lastLib, m.lastBlockNum) + 1)
    else match stored
      case None => None
      case Some(x) => Some(e.idNum(x.header.prevRandao) + 1)
  }

  /** The part of the receiver that survives a connection. */
  class Receiver {
    const e: Env
    var lastLib: nat
    var lastBlockNum: nat

    ghost function Abs(): Memory
      reads this
    {
      Memory(lastLib, lastBlockNum)
    }

    constructor (e: Env)
      ensures Abs() == Memory(0, 0) && this.e == e
    {
      this.e := e;
      lastLib, lastBlockNum := 0, 0;
    }

    method OnRead(b: NativeBlock)
      modifies this`lastLib, this`lastBlockNum
      ensures Abs() == Remember(old(Abs()), b)
    {
      lastLib := b.lib;
      lastBlockNum := b.blockNum;
    }

    /** Reads the blocks of a connection one after the other. */
    method ReadAll(bs: seq<NativeBlock>)
      modifies this`lastLib, this`lastBlockNum
      ensures Abs() == RememberAll(old(Abs()), bs)
    {
      var i := 0;
      while i < |bs|
        invariant 0 <= i <= |bs| && Abs() == RememberAll(old(Abs()), bs[..i])
      {
        OnRead(bs[i]);
        assert Init(bs[..i + 1]) == bs[..i];
        i := i + 1;
      }
      assert bs[..i] == bs;
    }

    /** Where to resume, unless the source no longer has that block. */
    method StartFrom(stored: Option<Block>, traceBegin: nat) returns (r: Option<nat>)
      ensures var from := Resume(e, Abs(), stored);
        r == if from.Some? && traceBegin <= from.value then from else None
      ensures r.Some? && lastLib > 0 ==>
        r.value in {lastLib + 1, lastBlockNum + 1} && r.value <= lastLib + 1 && r.value <= lastBlockNum + 1
    {
      var from := 0;
      if lastLib > 0 {
        from := (if lastLib > lastBlockNum then lastBlockNum else lastLib) + 1;
      } else {
        if stored.None? {
          return None;
        }
        from := e.idNum(stored.value.header.prevRandao) + 1;
      }
      if traceBegin > from {
        return None;
      }
      r := Some(from);
    }
  }

  // ----- connections -----

  /** The same native block; the irreversible number it is sent with may differ. */
  predicate SameBlock(b: NativeBlock, c: NativeBlock) {
    b.(lib := 0) == c.(lib := 0)
  }

  /** Position `i` of a source's chain: a well-formed block that follows its predecessor, sent
      with irreversible numbers that do not fall. */
  predicate SourceAt(e: Env, seen: nat, c: seq<NativeBlock>, i: nat)
    requires 0 < i < |c|
  {
    && c[i].blockNum == e.idNum(c[i].id) && InTime(e, c[i])
    && Follows(c[i - 1], c[i])
    && seen <= c[i].lib && (1 < i ==> c[i - 1].lib <= c[i].lib)
  }

  /** A source may have any chain `c` that has the same blocks at and below the last reported
      number `seen`; the first block after the start block is irreversible. */
  ghost predicate SourceChain(e: Env, chain: seq<NativeBlock>, seen: nat, c: seq<NativeBlock>)
    requires chain != []
  {
    && c != [] && c[0] == chain[0]
    && (forall i :: 0 < i < |c| ==> SourceAt(e, seen, c, i))
    && (forall i :: 0 <= i < |chain| && chain[i].blockNum <= seen ==> i < |c| && c[i].id == chain[i].id)
    && (forall i :: 0 <= i < |chain| && i < |c| && c[i].id == chain[i].id ==> SameBlock(c[i], chain[i]))
    && (|chain| == 1 && 1 < |c| ==> c[1].blockNum <= c[1].lib)
  }

  /** The blocks of `c` numbered `from` and above. */
  function SentFrom(c: seq<NativeBlock>, from: nat): seq<NativeBlock> {
    if c == [] || Last(c).blockNum < from then [] else SentFrom(Init(c), from) + [Last(c)]
  }

  /** Number of leading blocks that two chains share. */
  function Common(p: seq<NativeBlock>, q: seq<NativeBlock>): (n: nat)
    ensures n <= |p| && n <= |q|
  {
    if p == [] || q == [] || p[0].id != q[0].id then 0 else 1 + Common(p[1..], q[1..])
  }

  lemma {:induction false} CommonShape(p: seq<NativeBlock>, q: seq<NativeBlock>)
    ensures forall i :: 0 <= i < Common(p, q) ==> p[i].id == q[i].id
    ensures var n := Common(p, q); n < |p| && n < |q| ==> p[n].id != q[n].id
  {
    if p != [] && q != [] && p[0].id == q[0].id {
      CommonShape(p[1..], q[1..]);
      assert forall i :: 0 < i < Common(p, q) ==> p[i] == p[1..][i - 1] && q[i] == q[1..][i - 1];
    }
  }

  // ----- deliveries -----

  /** What the converter receives: a new block while the connection is up, or what a new
      connection to a source with chain `source` sends, before it breaks off after its first
      `upto` blocks. */
  datatype Delivery = Fresh(block: NativeBlock) | Connect(source: seq<NativeBlock>, upto: nat)

  /** A new connection sends the source's chain from the requested number on, without a gap. */
  function Sent(e: Env, m: Memory, stored: Option<Block>, d: Delivery): seq<NativeBlock> {
    match d
    case Fresh(b) => [b]
    case Connect(c, q) =>
      match Resume(e, m, stored)
      case None => []
      case Some(from) => SentFrom(if q <= |c| then c[..q] else c, from)
  }

  /** Everything delivered, in order. */
  function Delivered(e: Env, m: Memory, stored: Option<Block>, ds: seq<Delivery>): seq<NativeBlock> {
    if ds == [] then []
    else
      var before := Delivered(e, m, stored, Init(ds));
      before + Sent(e, RememberAll(m, before), stored, Last(ds))
  }

  /** What a receiver would have got that never lost its connection: of a source's chain only
      what the surviving chain lacks. */
  function News(chain: seq<NativeBlock>, d: Delivery): seq<NativeBlock> {
    match d
    case Fresh(b) => [b]
    case Connect(c, q) => if Common(chain, c) < q <= |c| then c[Common(chain, c)..q] else []
  }

  function Undisturbed(chain: seq<NativeBlock>, ds: seq<Delivery>): seq<NativeBlock>
    requires chain != []
  {
    if ds == [] then []
    else
      var before := Undisturbed(chain, Init(ds));
      before + News(ChainRun(chain, before), Last(ds))
  }

  predicate CopyAt(chain: seq<NativeBlock>, b: NativeBlock, k: nat) {
    0 < k < |chain| && b.id == chain[k].id && b.prev == chain[k].prev && b.blockNum == chain[k].blockNum
  }

  lemma {:induction false} RememberMore(m: Memory, bs: seq<NativeBlock>, cs: seq<NativeBlock>)
    ensures RememberAll(m, bs + cs) == RememberAll(RememberAll(m, bs), cs)
    decreases |cs|
  {
    if cs == [] {
      assert bs + cs == bs;
    } else {
      assert Init(bs + cs) == bs + Init(cs) && Last(bs + cs) == Last(cs);
      RememberMore(m, bs, Init(cs));
    }
  }

  /** New blocks come from an obedient source, and so does the chain of a new connection. */
  ghost predicate Sends(e: Env, chain: seq<NativeBlock>, seen: nat, d: Delivery)
    requires chain != []
  {
    match d
    case Fresh(b) => FromSource(e, chain, seen, b)
    case Connect(c, q) => SourceChain(e, chain, seen, c) && q <= |c|
  }

  ghost predicate Sessions(e: Env, chain: seq<NativeBlock>, m: Memory, stored: Option<Block>, ds: seq<Delivery>)
    requires chain != []
  {
    ds != [] ==>
      && Sessions(e, chain, m, stored, Init(ds))
      && Sends(e, ChainRun(chain, Undisturbed(chain, Init(ds))),
               RememberAll(m, Delivered(e, m, stored, Init(ds))).lastLib, Last(ds))
  }

  // ----- converter and receiver -----

  /** The receiver's memory names a block of the surviving chain; before anything was read the
      stored block is the start block. */
  predicate KnowsChain(e: Env, chain: seq<NativeBlock>, m: Memory, stored: Option<Block>) {
    && chain != []
    && (if m.lastLib == 0 then
          |chain| == 1 && stored.Some? && e.idNum(stored.value.header.prevRandao) == chain[0].blockNum
        else
          chain[0].blockNum <= m.lastLib && chain[0].blockNum <= m.lastBlockNum <= Last(chain).blockNum)
  }

  /** Whatever the cache has dropped lies below both remembered numbers. */
  ghost predicate Resumable(s: State, chain: seq<NativeBlock>, m: Memory) {
    && |s.native| <= |chain|
    && forall i :: 0 <= i < |chain| - |s.native| ==> chain[i].blockNum < m.lastLib && chain[i].blockNum < m.lastBlockNum
  }

  /** The converter and the receiver fit together. */
  ghost predicate Settled(
    e: Env, s: State, start: Block, chain: seq<NativeBlock>, m: Memory, stored: Option<Block>)
  {
    && Tracks(e, s, start, chain) && Final(e, s, chain, m.lastLib)
    && Resumable(s, chain, m) && KnowsChain(e, chain, m, stored)
  }

  /** So do they right after start-up. */
  lemma {:induction false} HeadSettled(e: Env, start: Block)
    requires InTime(e, Converters.HeadBlock(e, start)) && start.header.number <= Num(e, Converters.HeadBlock(e, start))
    ensures Settled(e, Converters.HeadState(e, start), start, [Converters.HeadBlock(e, start)],
                    Memory(0, 0), Some(start))
  {
    hide Tracks, Uniformity.Uniform, InTime, Output.Integrity;
    Converters.HeadInvariants(e, start);
  }

  // ----- resent blocks -----

  lemma {:induction false} RunAppend(e: Env, s: State, bs: seq<NativeBlock>, cs: seq<NativeBlock>)
    ensures Run(e, s, bs + cs) ==
      if Run(e, s, bs).Success? then Run(e, Run(e, s, bs).value, cs) else Run(e, s, bs)
    decreases |cs|
  {
    hide Step;
    if cs == [] {
      assert bs + cs == bs;
    } else {
      RunAppend(e, s, bs, Init(cs));
      assert Init(bs + cs) == bs + Init(cs) && Last(bs + cs) == Last(cs);
    }
  }

  lemma CopyClassified(e: Env, start: Block, chain: seq<NativeBlock>, b: NativeBlock, k: nat, off: nat)
    requires ChainOk(e, start, chain) && CopyAt(chain, b, k) && off <= k
    ensures Classify(chain, off, b) == Duplicate
  {
    hide ChainOk;
    assert chain[k - 1].id == b.prev by { LinkBack(e, start, chain, k); }
    if Last(chain).id == b.prev { ChainIdsDistinct(e, start, chain, |chain| - 1, k - 1); }
    ChainIdsDistinct(e, start, chain, Find(chain, b.id).value, k);
  }

  lemma LinkBack(e: Env, start: Block, chain: seq<NativeBlock>, k: nat)
    requires ChainOk(e, start, chain) && 0 < k < |chain|
    ensures chain[k].prev == chain[k - 1].id
  {
    assert LinkedAt(e, chain, k);
  }

  /** A resent block is a cached duplicate, or the successor of the last one read: it leaves
      the state alone. */
  lemma {:induction false} CopyIgnored(e: Env, s: State, start: Block, chain: seq<NativeBlock>, b: NativeBlock, k: nat)
    requires Tracks(e, s, start, chain) && CopyAt(chain, b, k) && |chain| - |s.native| <= k
    ensures Step(e, s, b) == Success(s)
  {
    hide Step, Classify, ChainOk, Tracks, CopyAt;
    TracksOk(e, s, start, chain);
    StepIs(e, s, start, chain, b);
    CopyClassified(e, start, chain, b, k, |chain| - |s.native|);
  }

  /** Position of the first block a new connection sends: the surviving chain has the block
      before it in common with the source, and the cache still holds that one. */
  lemma {:induction false} ResumePoint(
    e: Env, s: State, start: Block, chain: seq<NativeBlock>, m: Memory, stored: Option<Block>, c: seq<NativeBlock>)
    returns (n: nat)
    requires Settled(e, s, start, chain, m, stored) && SourceChain(e, chain, m.lastLib, c)
    ensures Resume(e, m, stored) == Some(chain[0].blockNum + n)
    ensures |chain| - |s.native| < n <= Common(chain, c) && 0 < n
  {
    hide Tracks, ChainOk, Final, SourceChain, Common;
    SettledParts(e, s, start, chain, m, stored);
    CacheFacts(e, s, start, chain);
    n := ResumeBlock(e, start, chain, m, stored);
    SharedBelow(e, start, chain, m, c, n);
    var off := |chain| - |s.native|;
    if 0 < off {
      assert chain[off - 1].blockNum < m.lastLib && chain[off - 1].blockNum < m.lastBlockNum;
      ChainMonotone(e, start, chain, 0, off - 1);
    }
  }

  /** The block before the requested number: on the surviving chain, and reported irreversible. */
  lemma {:induction false} ResumeBlock(
    e: Env, start: Block, chain: seq<NativeBlock>, m: Memory, stored: Option<Block>) returns (n: nat)
    requires ChainOk(e, start, chain) && KnowsChain(e, chain, m, stored)
    ensures 0 < n <= |chain| && Resume(e, m, stored) == Some(chain[0].blockNum + n)
    ensures n == 1 || chain[n - 1].blockNum <= m.lastLib
    ensures m.lastLib > 0 ==> chain[n - 1].blockNum == Min(m.lastLib, m.lastBlockNum)
  {
    hide ChainOk;
    n := Resume(e, m, stored).value - chain[0].blockNum;
    assert Last(chain) == chain[|chain| - 1];
    ChainMonotone(e, start, chain, 0, |chain| - 1);
    ChainMonotone(e, start, chain, 0, n - 1);
  }

  lemma {:induction false} SharedBelow(
    e: Env, start: Block, chain: seq<NativeBlock>, m: Memory, c: seq<NativeBlock>, n: nat)
    requires ChainOk(e, start, chain) && SourceChain(e, chain, m.lastLib, c) && 0 < n <= |chain|
    requires n == 1 || chain[n - 1].blockNum <= m.lastLib
    ensures n <= Common(chain, c)
  {
    hide ChainOk, Common, SourceAt, SameBlock;
    forall i | 0 <= i < n
      ensures i < |chain| && i < |c| && chain[i].id == c[i].id
    {
      if 0 < i { ChainMonotone(e, start, chain, i, n - 1); }
      if i == 0 && n > 1 { ChainMonotone(e, start, chain, 0, n - 1); }
    }
    CommonAtLeast(chain, c, n);
  }

  lemma CommonAtLeast(p: seq<NativeBlock>, q: seq<NativeBlock>, n: nat)
    requires forall i :: 0 <= i < n ==> i < |p| && i < |q| && p[i].id == q[i].id
    ensures n <= Common(p, q)
  {
    CommonShape(p, q);
  }

  lemma {:induction false} SourceNumbers(e: Env, seen: nat, c: seq<NativeBlock>, i: nat)
    requires i < |c| && forall k :: 0 < k < |c| ==> SourceAt(e, seen, c, k)
    ensures c[i].blockNum == c[0].blockNum + i
    decreases i
  {
    if 0 < i {
      SourceNumbers(e, seen, c, i - 1);
      assert SourceAt(e, seen, c, i);
    }
  }

  /** What is sent is a piece of the source's chain. */
  lemma {:induction false} SentIs(e: Env, seen: nat, c: seq<NativeBlock>, n: nat, q: nat)
    requires c != [] && (forall k :: 0 < k < |c| ==> SourceAt(e, seen, c, k)) && q <= |c|
    ensures SentFrom(c[..q], c[0].blockNum + n) == if n < q then c[n..q] else []
    decreases q
  {
    hide SourceAt;
    if 0 < q {
      SourceNumbers(e, seen, c, q - 1);
      assert Init(c[..q]) == c[..q - 1] && Last(c[..q]) == c[q - 1];
      SentIs(e, seen, c, n, q - 1);
      if n < q { assert c[n..q] == (if n < q - 1 then c[n..q - 1] else []) + [c[q - 1]]; }
    }
  }

  /** A block the chains share is a copy of the surviving chain's. */
  lemma CommonCopy(e: Env, start: Block, chain: seq<NativeBlock>, seen: nat, c: seq<NativeBlock>, i: nat)
    requires ChainOk(e, start, chain) && SourceChain(e, chain, seen, c) && 0 < i < Common(chain, c)
    ensures CopyAt(chain, c[i], i)
  {
    hide ChainOk, Common;
    CommonShape(chain, c);
    assert SameBlock(c[i], chain[i]);
    assert c[i].(lib := 0).prev == c[i].prev && chain[i].(lib := 0).prev == chain[i].prev;
    assert c[i].(lib := 0).blockNum == c[i].blockNum && chain[i].(lib := 0).blockNum == chain[i].blockNum;
  }

  /** What a new connection sends again changes nothing: every block is a cached duplicate. */
  lemma {:induction false} CopiesIgnored(
    e: Env, s: State, start: Block, chain: seq<NativeBlock>, seen: nat, c: seq<NativeBlock>, n: nat, q: nat)
    requires Tracks(e, s, start, chain) && SourceChain(e, chain, seen, c)
    requires |chain| - |s.native| <= n <= q <= Common(chain, c) && 0 < n
    ensures Run(e, s, c[n..q]) == Success(s) && ChainRun(chain, c[n..q]) == chain
    ensures forall i :: n <= i < q ==> Classify(chain, |chain| - |s.native|, c[i]) == Duplicate
    decreases q
  {
    hide Tracks, Step, SourceChain, ChainOk, ChainStep, Common, Classify;
    TracksOk(e, s, start, chain);
    if n < q {
      CopiesIgnored(e, s, start, chain, seen, c, n, q - 1);
      assert Init(c[n..q]) == c[n..q - 1] && Last(c[n..q]) == c[q - 1];
      CommonCopy(e, start, chain, seen, c, q - 1);
      CopyIgnored(e, s, start, chain, c[q - 1], q - 1);
      CopyClassified(e, start, chain, c[q - 1], q - 1, |chain| - |s.native|);
      DuplicateStays(chain, c[q - 1], |chain| - |s.native|);
    }
  }

  lemma DuplicateStays(chain: seq<NativeBlock>, b: NativeBlock, off: nat)
    requires chain != [] && Classify(chain, off, b) == Duplicate
    ensures ChainStep(chain, b) == chain
  {
  }

  // ----- what the surviving chain lacks -----

  /** The surviving chain once the source's blocks up to `q` have arrived. */
  function Followed(chain: seq<NativeBlock>, c: seq<NativeBlock>, q: nat): seq<NativeBlock>
    requires q <= |c|
  {
    if Common(chain, c) < q then chain[..Common(chain, c)] + c[Common(chain, c)..q] else chain
  }

  /** It has the source's blocks, up to there. */
  lemma FollowedIds(chain: seq<NativeBlock>, c: seq<NativeBlock>, q: nat)
    requires q <= |c| && Common(chain, c) < q
    ensures var r := Followed(chain, c, q); |r| == q && forall i :: 0 <= i < q ==> r[i].id == c[i].id
  {
    hide Common;
    CommonShape(chain, c);
    var r, p := Followed(chain, c, q), Common(chain, c);
    forall i | 0 <= i < q
      ensures r[i].id == c[i].id
    {
      if i < p { assert r[i] == chain[i]; } else { assert r[i] == c[p..q][i - p]; }
    }
  }

  /** The first block the chains do not share: it links, or forks at the last shared block,
      which lies at or above the reported number. */
  lemma {:induction false} FirstNew(
    e: Env, start: Block, chain: seq<NativeBlock>, seen: nat, c: seq<NativeBlock>)
    requires ChainOk(e, start, chain) && SourceChain(e, chain, seen, c)
    requires 0 < Common(chain, c) < |c|
    ensures var p := Common(chain, c);
      && FromSource(e, chain, seen, c[p])
      && ChainStep(chain, c[p]) == chain[..p] + [c[p]]
  {
    hide Common, EvmNum, LinkedAt;
    var p := Common(chain, c);
    CommonShape(chain, c);
    assert SourceAt(e, seen, c, p) && SameBlock(c[p - 1], chain[p - 1]);
    SameFollows(c[p - 1], chain[p - 1], c[p]);
    if p < |chain| {
      assert seen < chain[p].blockNum;
      ChainMonotone(e, start, chain, p - 1, p);
    }
    assert Offers(chain, seen, c[p], p - 1);
    NewStep(e, start, chain, c[p], p);
  }

  lemma SameFollows(p: NativeBlock, q: NativeBlock, b: NativeBlock)
    requires SameBlock(p, q) && Follows(p, b)
    ensures Follows(q, b)
  {
    assert p == q.(lib := p.lib);
  }

  lemma {:induction false} NewStep(e: Env, start: Block, chain: seq<NativeBlock>, b: NativeBlock, p: nat)
    requires ChainOk(e, start, chain) && 0 < p <= |chain| && Follows(chain[p - 1], b)
    requires b.blockNum == e.idNum(b.id) && (p < |chain| ==> chain[p].id != b.id)
    ensures ChainStep(chain, b) == chain[..p] + [b]
  {
    hide ChainOk, InTime;
    if p == |chain| {
      assert chain[..p] == chain;
    } else {
      if Last(chain).id == b.prev { ChainIdsDistinct(e, start, chain, |chain| - 1, p - 1); }
      var dup, at := Find(chain, b.id), Find(chain, b.prev);
      if dup.Some? {
        assert chain[dup.value].blockNum == b.blockNum by { NumberOfId(e, start, chain, dup.value); }
        ChainMonotone(e, start, chain, 0, p - 1);
        ChainMonotone(e, start, chain, 0, dup.value);
      }
      assert at.Some?;
      ChainIdsDistinct(e, start, chain, at.value, p - 1);
    }
  }

  lemma NumberOfId(e: Env, start: Block, chain: seq<NativeBlock>, i: nat)
    requires ChainOk(e, start, chain) && i < |chain|
    ensures chain[i].blockNum == e.idNum(chain[i].id)
  {
    assert LinkedAt(e, chain, i);
  }

  /** The blocks the surviving chain lacks are those of an obedient source, and replace what
      the chains do not share. */
  lemma {:induction false} NewBlocks(
    e: Env, start: Block, chain: seq<NativeBlock>, seen: nat, c: seq<NativeBlock>, q: nat)
    requires ChainOk(e, start, chain) && SourceChain(e, chain, seen, c)
    requires 0 < Common(chain, c) < q <= |c|
    ensures var bs := c[Common(chain, c)..q];
      && SourceRun(e, chain, seen, bs) && ChainRun(chain, bs) == Followed(chain, c, q)
      && SeenAfter(seen, bs) == c[q - 1].lib
    decreases q
  {
    hide Common, FromSource, ChainStep, ChainOk, SourceChain, Followed;
    var p := Common(chain, c);
    var bs := c[p..q];
    PieceEnd(c, p, q);
    FollowedMore(chain, c, q);
    if q - 1 == p {
      assert Init(bs) == [];
      FirstNew(e, start, chain, seen, c);
    } else {
      NewBlocks(e, start, chain, seen, c, q - 1);
      LaterNew(e, chain, seen, c, q - 1);
    }
  }

  lemma PieceEnd(c: seq<NativeBlock>, p: nat, q: nat)
    requires p < q <= |c|
    ensures c[p..q] != [] && Init(c[p..q]) == c[p..q - 1] && Last(c[p..q]) == c[q - 1]
  {
  }

  lemma FollowedMore(chain: seq<NativeBlock>, c: seq<NativeBlock>, q: nat)
    requires Common(chain, c) < q <= |c|
    ensures var p := Common(chain, c);
      Followed(chain, c, q) == if q - 1 == p then chain[..p] + [c[p]] else Followed(chain, c, q - 1) + [c[q - 1]]
  {
    hide Common;
    var p := Common(chain, c);
    if q - 1 == p {
      assert c[p..q] == [c[p]];
    } else {
      assert c[p..q] == c[p..q - 1] + [c[q - 1]];
    }
  }

  lemma LaterNew(e: Env, chain: seq<NativeBlock>, seen: nat, c: seq<NativeBlock>, i: nat)
    requires chain != [] && SourceChain(e, chain, seen, c) && 0 < Common(chain, c) < i < |c|
    ensures var cur := Followed(chain, c, i);
      FromSource(e, cur, c[i - 1].lib, c[i]) && ChainStep(cur, c[i]) == cur + [c[i]]
  {
    hide Common, EvmNum;
    var cur := Followed(chain, c, i);
    assert SourceAt(e, seen, c, i);
    assert Last(cur) == cur[|cur| - 1] == c[i - 1];
    assert Offers(cur, c[i - 1].lib, c[i], |cur| - 1);
  }

  /** With an obedient source the fork block is never missing; what may end a run is the
      contents of a block, or a dropped transaction that cannot be recognised. */
  lemma {:induction false} SourceErrors(
    e: Env, s: State, start: Block, chain: seq<NativeBlock>, seen: nat, bs: seq<NativeBlock>)
    requires Tracks(e, s, start, chain) && Final(e, s, chain, seen) && SourceRun(e, chain, seen, bs)
    ensures Run(e, s, bs).Failure? ==>
      ContentError(Run(e, s, bs).error) || Run(e, s, bs).error == UnableToRemoveTransaction
    decreases |bs|
  {
    hide BodiesMatch, Step, ChainOk, FromSource, ChainStep, ContentError;
    if bs != [] {
      SourceErrors(e, s, start, chain, seen, Init(bs));
      if Run(e, s, Init(bs)).Success? {
        RunFinal(e, s, start, chain, seen, Init(bs));
        var c := ChainRun(chain, Init(bs));
        StepErrors(e, Run(e, s, Init(bs)).value, start, c, SeenAfter(seen, Init(bs)), Last(bs));
      }
    }
  }

  lemma {:induction false} StepErrors(
    e: Env, s: State, start: Block, chain: seq<NativeBlock>, seen: nat, b: NativeBlock)
    requires Tracks(e, s, start, chain) && Final(e, s, chain, seen) && FromSource(e, chain, seen, b)
    ensures Step(e, s, b).Failure? ==>
      ContentError(Step(e, s, b).error) || Step(e, s, b).error == UnableToRemoveTransaction
  {
    hide BodiesMatch, Consecutive, Accept, Rollback, Classify, ContentError, ChainOk, FromSource, Final, Step;
    TracksOk(e, s, start, chain);
    SourceAdmissible(e, s, start, chain, seen, b);
    SourceKnown(e, s, start, chain, seen, b);
    StepCases(e, s, start, chain, b);
    match Classify(chain, |chain| - |s.native|, b)
    case Links => AcceptErrors(e, s, b);
    case Duplicate =>
    case Fork(j) =>
      RollbackTracks(e, s, start, chain, j);
      if Rollback(e, s, chain[j]).Success? { AcceptErrors(e, Rollback(e, s, chain[j]).value, b); }
    case Unknown =>
  }

  // ----- one connection -----

  lemma {:induction false} WithNews(
    e: Env, s: State, start: Block, chain: seq<NativeBlock>, m: Memory, stored: Option<Block>,
    c: seq<NativeBlock>, n: nat, q: nat)
    requires Settled(e, s, start, chain, m, stored) && SourceChain(e, chain, m.lastLib, c)
    requires |s.native| <= |chain| && |chain| - |s.native| < n <= Common(chain, c) < q <= |c| && 0 < n
    ensures var sent, news := c[n..q], c[Common(chain, c)..q];
      && SourceRun(e, chain, m.lastLib, news) && ChainRun(chain, news) == Followed(chain, c, q)
      && Run(e, s, sent) == Run(e, s, news)
      && (Run(e, s, sent).Failure? ==> Run(e, s, sent).error != NoForkBlock)
      && (Run(e, s, sent).Success? ==>
            Settled(e, Run(e, s, sent).value, start, Followed(chain, c, q), RememberAll(m, sent), stored))
  {
    hide Settled, SourceChain, Run, SourceRun, Common, RememberAll, ContentError, Followed, ChainRun;
    hide Tracks, Final, ChainOk;
    var p, news := Common(chain, c), c[Common(chain, c)..q];
    SettledParts(e, s, start, chain, m, stored);
    CopiesIgnored(e, s, start, chain, m.lastLib, c, n, p);
    assert c[n..q] == c[n..p] + c[p..q];
    RunAppend(e, s, c[n..p], c[p..q]);
    NewBlocks(e, start, chain, m.lastLib, c, q);
    SourceErrors(e, s, start, chain, m.lastLib, news);
    NotContent();
    if Run(e, s, news).Success? { FollowedSettled(e, s, start, chain, m, stored, c, n, q); }
  }

  /** A new connection, from the point the receiver's memory names, to a source that kept its
      word: what it sends again are cached duplicates, the rest are new blocks of an obedient
      source that link or fork at a cached block, and afterwards the surviving chain is the
      source's, as far as it was sent. */
  lemma {:induction false} ConnectionFollows(
    e: Env, s: State, start: Block, chain: seq<NativeBlock>, m: Memory, stored: Option<Block>,
    c: seq<NativeBlock>, q: nat)
    requires Settled(e, s, start, chain, m, stored) && SourceChain(e, chain, m.lastLib, c) && q <= |c|
    ensures var sent, news := Sent(e, m, stored, Connect(c, q)), News(chain, Connect(c, q));
      && SourceRun(e, chain, m.lastLib, news) && ChainRun(chain, news) == Followed(chain, c, q)
      && Run(e, s, sent) == Run(e, s, news)
      && (Run(e, s, sent).Failure? ==> Run(e, s, sent).error != NoForkBlock)
      && (Run(e, s, sent).Success? ==>
            Settled(e, Run(e, s, sent).value, start, Followed(chain, c, q), RememberAll(m, sent), stored))
  {
    hide Settled, SourceChain, Run, SourceRun, Common, RememberAll, ContentError, Followed, ChainRun, Sent;
    var n := ResumePoint(e, s, start, chain, m, stored, c);
    SettledParts(e, s, start, chain, m, stored);
    TracksOk(e, s, start, chain);
    SentPiece(e, m, stored, chain, c, n, q);
    if Common(chain, c) < q {
      WithNews(e, s, start, chain, m, stored, c, n, q);
    } else {
      NoNews(e, s, chain, m.lastLib, c, q);
      if n < q {
        CopiesIgnored(e, s, start, chain, m.lastLib, c, n, q);
        CopiesSettled(e, s, start, chain, m, stored, c, n, q);
      } else {
        NothingRead(m);
      }
    }
  }

  lemma SettledParts(e: Env, s: State, start: Block, chain: seq<NativeBlock>, m: Memory, stored: Option<Block>)
    requires Settled(e, s, start, chain, m, stored)
    ensures Tracks(e, s, start, chain) && Final(e, s, chain, m.lastLib) && ChainOk(e, start, chain) && chain != []
  {
    hide BodiesMatch, Consecutive, ChainOk, Final;
  }

  lemma SentPiece(
    e: Env, m: Memory, stored: Option<Block>, chain: seq<NativeBlock>, c: seq<NativeBlock>, n: nat, q: nat)
    requires chain != [] && SourceChain(e, chain, m.lastLib, c) && q <= |c|
    requires Resume(e, m, stored) == Some(chain[0].blockNum + n)
    ensures Sent(e, m, stored, Connect(c, q)) == if n < q then c[n..q] else []
  {
    hide SourceAt;
    SentIs(e, m.lastLib, c, n, q);
  }

  lemma NoNews(e: Env, s: State, chain: seq<NativeBlock>, seen: nat, c: seq<NativeBlock>, q: nat)
    requires chain != [] && q <= |c| && q <= Common(chain, c)
    ensures SourceRun(e, chain, seen, []) && ChainRun(chain, []) == Followed(chain, c, q) == chain
    ensures Run(e, s, []) == Success(s)
  {
  }

  lemma NothingRead(m: Memory)
    ensures RememberAll(m, []) == m
  {
  }

  lemma RememberLast(m: Memory, bs: seq<NativeBlock>)
    requires bs != []
    ensures RememberAll(m, bs) == Memory(Last(bs).lib, Last(bs).blockNum)
  {
  }

  /** Converter and receiver still fit together after blocks that were copies. */
  lemma {:induction false} CopiesSettled(
    e: Env, s: State, start: Block, chain: seq<NativeBlock>, m: Memory, stored: Option<Block>,
    c: seq<NativeBlock>, n: nat, q: nat)
    requires Settled(e, s, start, chain, m, stored) && SourceChain(e, chain, m.lastLib, c)
    requires |chain| - |s.native| < n < q <= Common(chain, c) && 0 < n
    ensures Settled(e, s, start, chain, RememberAll(m, c[n..q]), stored)
  {
    hide Tracks, ChainOk, Final, Common, SourceChain, Settled;
    SettledParts(e, s, start, chain, m, stored);
    TracksOk(e, s, start, chain);
    var b := c[q - 1];
    assert Last(c[n..q]) == b;
    RememberLast(m, c[n..q]);
    SourceLib(e, chain, m.lastLib, c, q - 1);
    RaiseSeen(e, s, chain, m.lastLib, b.lib);
    CommonCopy(e, start, chain, m.lastLib, c, q - 1);
    ReadSettled(e, s, start, chain, b, q - 1, stored);
  }

  lemma SourceLib(e: Env, chain: seq<NativeBlock>, seen: nat, c: seq<NativeBlock>, i: nat)
    requires chain != [] && SourceChain(e, chain, seen, c) && 0 < i < |c|
    ensures seen <= c[i].lib
  {
    assert SourceAt(e, seen, c, i);
  }

  /** The first block after the start block is at or below the reported number. */
  lemma FinalFirst(e: Env, s: State, start: Block, chain: seq<NativeBlock>, seen: nat)
    requires ChainOk(e, start, chain) && Final(e, s, chain, seen) && 1 < |chain|
    ensures chain[0].blockNum < seen
  {
    hide LinkedAt;
    ChainMonotone(e, start, chain, 0, 1);
  }

  /** And after a block that ended up at position `k` of the cached chain. */
  lemma {:induction false} ReadSettled(
    e: Env, s: State, start: Block, chain: seq<NativeBlock>, b: NativeBlock, k: nat, stored: Option<Block>)
    requires Tracks(e, s, start, chain) && Final(e, s, chain, b.lib)
    requires |chain| - |s.native| <= k < |chain| && 0 < k && chain[k].blockNum == b.blockNum
    ensures Settled(e, s, start, chain, Memory(b.lib, b.blockNum), stored)
  {
    hide BodiesMatch, Consecutive, LinkedAt;
    ChainMonotone(e, start, chain, 0, k);
    ChainMonotone(e, start, chain, k, |chain| - 1);
    FinalFirst(e, s, start, chain, b.lib);
    forall i | 0 <= i < |chain| - |s.native|
      ensures chain[i].blockNum < b.lib && chain[i].blockNum < b.blockNum
    {
      ChainMonotone(e, start, chain, i, k);
    }
  }

  lemma {:induction false} FollowedSettled(
    e: Env, s: State, start: Block, chain: seq<NativeBlock>, m: Memory, stored: Option<Block>,
    c: seq<NativeBlock>, n: nat, q: nat)
    requires Settled(e, s, start, chain, m, stored) && SourceChain(e, chain, m.lastLib, c)
    requires 0 < n <= Common(chain, c) < q <= |c|
    requires Run(e, s, c[Common(chain, c)..q]).Success?
    ensures Settled(e, Run(e, s, c[Common(chain, c)..q]).value, start, Followed(chain, c, q),
                    RememberAll(m, c[n..q]), stored)
  {
    hide Settled, SourceChain, Run, SourceRun, Tracks, Final, ChainOk, ChainRun, Common, SeenAfter, KeepsFinal;
    SettledParts(e, s, start, chain, m, stored);
    NewBlocks(e, start, chain, m.lastLib, c, q);
    var news := c[Common(chain, c)..q];
    RunFinal(e, s, start, chain, m.lastLib, news);
    var r, cur := Run(e, s, news).value, Followed(chain, c, q);
    assert Last(c[n..q]) == c[q - 1] == cur[|cur| - 1];
    RememberLast(m, c[n..q]);
    CacheFacts(e, r, start, cur);
    ReadSettled(e, r, start, cur, c[q - 1], |cur| - 1, stored);
  }

  // ----- new blocks -----

  lemma {:induction false} FreshStep(
    e: Env, s: State, start: Block, chain: seq<NativeBlock>, m: Memory, b: NativeBlock, stored: Option<Block>)
    requires Settled(e, s, start, chain, m, stored)
    requires FromSource(e, chain, m.lastLib, b) && Step(e, s, b).Success?
    ensures Settled(e, Step(e, s, b).value, start, ChainStep(chain, b), Memory(b.lib, b.blockNum), stored)
  {
    hide Settled, Tracks, ChainOk, Final, FromSource, Step, ChainStep, KeepsFinal;
    SettledParts(e, s, start, chain, m, stored);
    SourceAdmissible(e, s, start, chain, m.lastLib, b);
    StepTracks(e, s, start, chain, b);
    StepFinal(e, s, start, chain, m.lastLib, b);
    var k := CachedAfter(e, s, start, chain, m.lastLib, b);
    ReadSettled(e, Step(e, s, b).value, start, ChainStep(chain, b), b, k, stored);
  }

  /** Where an accepted block sits in the cache afterwards. */
  lemma {:induction false} CachedAfter(
    e: Env, s: State, start: Block, chain: seq<NativeBlock>, seen: nat, b: NativeBlock) returns (k: nat)
    requires Tracks(e, s, start, chain) && Final(e, s, chain, seen)
    requires FromSource(e, chain, seen, b) && Step(e, s, b).Success?
    ensures var r, c := Step(e, s, b).value, ChainStep(chain, b);
      |c| - |r.native| <= k < |c| && 0 < k && c[k].blockNum == b.blockNum
  {
    hide Tracks, Accept, Rollback, Final, Step, FromSource, ChainOk, ChainStep, Find;
    TracksOk(e, s, start, chain);
    SourceAdmissible(e, s, start, chain, seen, b);
    SourceKnown(e, s, start, chain, seen, b);
    StepCases(e, s, start, chain, b);
    StepTracks(e, s, start, chain, b);
    var c := ChainStep(chain, b);
    CacheFacts(e, Step(e, s, b).value, start, c);
    if Classify(chain, |chain| - |s.native|, b).Duplicate? {
      k := Find(chain, b.id).value;
      SourceNumber(e, chain, seen, b);
      NumberOfId(e, start, chain, k);
      AboveFirst(e, start, chain, seen, b);
    } else {
      k := |c| - 1;
      assert c[k] == b;
    }
  }

  lemma SourceNumber(e: Env, chain: seq<NativeBlock>, seen: nat, b: NativeBlock)
    requires FromSource(e, chain, seen, b)
    ensures b.blockNum == e.idNum(b.id)
  {
  }

  lemma AboveFirst(e: Env, start: Block, chain: seq<NativeBlock>, seen: nat, b: NativeBlock)
    requires ChainOk(e, start, chain) && FromSource(e, chain, seen, b)
    ensures chain[0].blockNum < b.blockNum
  {
    hide ChainOk, InTime;
    var j: nat :| Offers(chain, seen, b, j);
    ChainMonotone(e, start, chain, 0, j);
  }

  // ----- the theorem -----

  /** One more delivery, after deliveries that left the same state as without disconnects. */
  lemma {:induction false} OneDelivery(
    e: Env, s: State, start: Block, chain: seq<NativeBlock>, m: Memory, stored: Option<Block>, d: Delivery)
    requires Settled(e, s, start, chain, m, stored) && chain != [] && Sends(e, chain, m.lastLib, d)
    ensures var sent, news := Sent(e, m, stored, d), News(chain, d);
      && Run(e, s, sent) == Run(e, s, news) && SourceRun(e, chain, m.lastLib, news)
      && (Run(e, s, news).Failure? ==> Run(e, s, news).error != NoForkBlock)
      && (Run(e, s, news).Success? ==>
            Settled(e, Run(e, s, news).value, start, ChainRun(chain, news), RememberAll(m, sent), stored))
  {
    hide Settled, SourceChain, FromSource, Step, ChainStep, ContentError, Common, Followed;
    match d
    case Fresh(b) =>
      assert Init([b]) == [] && Last([b]) == b;
      SettledParts(e, s, start, chain, m, stored);
      StepErrors(e, s, start, chain, m.lastLib, b);
      NotContent();
      if Step(e, s, b).Success? { FreshStep(e, s, start, chain, m, b, stored); }
    case Connect(c, q) => ConnectionFollows(e, s, start, chain, m, stored, c, q);
  }

  lemma NotContent()
    ensures !ContentError(NoForkBlock)
  {
  }

  /** Reconnect idempotence.  Whatever the disconnects, and whatever the sources that are then
      connected to hold above the last reported number, the converter ends in the state of the
      run that only got the blocks it lacked; that run is one of an obedient source; and the
      fork block is never missing. */
  lemma {:induction false} ReconnectIdempotent(
    e: Env, s: State, start: Block, chain: seq<NativeBlock>, m: Memory, stored: Option<Block>, ds: seq<Delivery>)
    requires chain != [] && Settled(e, s, start, chain, m, stored) && Sessions(e, chain, m, stored, ds)
    ensures var all, news := Delivered(e, m, stored, ds), Undisturbed(chain, ds);
      && Run(e, s, all) == Run(e, s, news)
      && (Run(e, s, news).Failure? ==> Run(e, s, news).error != NoForkBlock)
      && (Run(e, s, news).Success? ==>
            Settled(e, Run(e, s, news).value, start, ChainRun(chain, news), RememberAll(m, all), stored))
    decreases |ds|
  {
    hide Settled, Sends, Sent, News, Run, ChainRun, RememberAll;
    if ds == [] {
      NothingDelivered(e, s, chain, m);
    } else {
      ReconnectIdempotent(e, s, start, chain, m, stored, Init(ds));
      var all, news := Delivered(e, m, stored, Init(ds)), Undisturbed(chain, Init(ds));
      var sent := Sent(e, RememberAll(m, all), stored, Last(ds));
      var more := News(ChainRun(chain, news), Last(ds));
      RunAppend(e, s, all, sent);
      RunAppend(e, s, news, more);
      RememberMore(m, all, sent);
      ChainRunAppend(chain, news, more);
      if Run(e, s, news).Success? {
        OneDelivery(e, Run(e, s, news).value, start, ChainRun(chain, news), RememberAll(m, all), stored, Last(ds));
      }
    }
  }

  lemma NothingDelivered(e: Env, s: State, chain: seq<NativeBlock>, m: Memory)
    requires chain != []
    ensures Run(e, s, []) == Success(s) && ChainRun(chain, []) == chain && RememberAll(m, []) == m
  {
  }
}
