/** What the converter publishes is a linked chain, across forks and reopened blocks. */
module Output {
  import opened Types
  import opened Seqs
  import opened Conversion
  import opened Grouping

  // ----- what a store that keeps the last block of each number holds -----

  /** The last block of `out` with number `k`. */
  function LastNumbered(out: seq<Block>, k: nat): (r: Option<Block>)
    ensures r.Some? ==> r.value.header.number == k
  {
    if out == [] then None
    else if Last(out).header.number == k then Some(Last(out))
    else LastNumbered(Init(out), k)
  }

  lemma LastNumberedMore(out: seq<Block>, x: Block, k: nat)
    ensures LastNumbered(out + [x], k) == if x.header.number == k then Some(x) else LastNumbered(out, k)
  {
    assert Init(out + [x]) == out;
  }

  predicate IsParent(e: Env, p: Block, h: Header) {
    p.header.number + 1 == h.number && e.headerHash(p.header) == h.parentHash
  }

  /** The latest block of `out` numbered just below `h` is the parent of `h`. */
  predicate HasParent(e: Env, out: seq<Block>, h: Header) {
    0 < h.number && LastNumbered(out, h.number - 1).Some? && IsParent(e, LastNumbered(out, h.number - 1).value, h)
  }

  /** The highest number that may be published next; the first is that of the start block. */
  function Reach(out: seq<Block>, n: nat): nat {
    if out == [] then n else Last(out).header.number + 1
  }

  /** The header's root is that of the block's transactions. */
  predicate RootOf(e: Env, x: Block) {
    x.header.txRoot == e.rootHash(x.transactions)
  }

  /** Every published block has an up-to-date transactions root, leaves no number out, and
      names the latest published block of the number below as its parent, unless it is the
      start block, numbered `n`. */
  predicate LinkedOutput(e: Env, out: seq<Block>, n: nat) {
    out != [] ==>
      && LinkedOutput(e, Init(out), n)
      && RootOf(e, Last(out))
      && n <= Last(out).header.number <= Reach(Init(out), n)
      && (n < Last(out).header.number ==> HasParent(e, Init(out), Last(out).header))
  }

  /** A store that keeps the last published block of every number, up to the number of the
      last one, is one parent-linked chain from the start block on. */
  lemma {:induction false} StoreLinked(e: Env, out: seq<Block>, n: nat, k: nat)
    requires LinkedOutput(e, out, n) && n <= k < Reach(out, n)
    ensures LastNumbered(out, k).Some?
    ensures n < k ==> HasParent(e, out, LastNumbered(out, k).value.header)
    decreases |out|
  {
    hide Close;
    var x := Last(out);
    if k < x.header.number {
      StoreLinked(e, Init(out), n, k);
    }
  }

  /** The cached EVM blocks continue the published chain: each closed one is the latest
      published block of its number, each names its predecessor's header, and the parent of
      the first was published. */
  ghost predicate Integrity(e: Env, s: State, n: nat) {
    && LinkedOutput(e, s.published, n)
    && Consecutive(s.evm) && Published(s.published, s.evm) && Chained(e, s.evm)
    && (s.evm != [] ==>
          && n <= s.evm[0].header.number && Last(s.evm).header.number <= Reach(s.published, n)
          && (n < s.evm[0].header.number ==> HasParent(e, s.published, s.evm[0].header)))
  }

  /** The closed ones of `evm` are the latest published blocks of their numbers. */
  ghost predicate Published(out: seq<Block>, evm: seq<Block>) {
    forall i :: 0 <= i < |evm| - 1 ==> LastNumbered(out, evm[i].header.number) == Some(evm[i])
  }

  ghost predicate Chained(e: Env, evm: seq<Block>) {
    forall i :: 0 <= i < |evm| - 1 ==> IsParent(e, evm[i], evm[i + 1].header)
  }

  // ----- publishing -----

  /** Publishing the closed blocks of an extension keeps the output linked, and changes the
      latest block of no lower number; the first of them is the open block with its root
      brought up to date and nothing else changed. */
  lemma {:induction false} TailPublishes(e: Env, out: seq<Block>, x: Block, k: nat, n: nat)
    requires LinkedOutput(e, out, n) && n <= x.header.number <= Reach(out, n)
    requires n < x.header.number ==> HasParent(e, out, x.header)
    ensures var t := Tail(e, x, k); var more := out + Init(t);
      && LinkedOutput(e, more, n) && Last(t).header.number <= Reach(more, n)
      && Published(more, t) && Chained(e, t)
      && SameButRoot(t[0], x)
      && t[0].header.parentHash == x.header.parentHash && t[0].header.number == x.header.number
      && (forall j: nat :: j < x.header.number ==> LastNumbered(more, j) == LastNumbered(out, j))
    decreases if x.header.number < k then k - x.header.number else 0
  {
    hide LinkedOutput, LastNumbered, HasParent, Reach, Published, Chained, Close, Fresh, SameButRoot;
    var t := Tail(e, x, k);
    if x.header.number < k {
      var c := Close(e, x);
      var y := Fresh(e, c);
      var u := Tail(e, y, k);
      CloseFresh(e, x);
      PublishOne(e, out, x, n);
      TailPublishes(e, out + [c], y, k, n);
      assert t == [c] + u && Init(t) == [c] + Init(u);
      assert out + Init(t) == out + [c] + Init(u);
      TailOneMore(e, out + [c] + Init(u), c, u);
      forall j: nat | j <= x.header.number
        ensures LastNumbered(out + Init(t), j) == if j == x.header.number then Some(c) else LastNumbered(out, j)
      {
        LastNumberedMore(out, c, j);
      }
    } else {
      assert out + Init(t) == out;
      OneBlock(e, out, x);
    }
  }

  /** Block `y` was opened on top of `p`: empty, without native id, with the header its number
      and version call for, and everything else taken over from `p`. */
  predicate OpenedOn(e: Env, p: Block, y: Block) {
    && y.header.number == p.header.number + 1 && y.header.parentHash == e.headerHash(p.header)
    && y.header.timestamp == e.blockTime(y.header.number)
    && y.header.version == (if p.header.number == 0 then e.genesisVersion else p.header.version)
    && y.header.baseFee == e.headerFee(y.header.version, p.header.baseFee)
    && y.header.rest == e.headerRest(y.header.number, y.header.version, p.header.baseFee)
    && y.header.prevRandao == 0 && y.transactions == [] && !y.irreversible
    && y.cpi == p.cpi && y.gasPrices == p.gasPrices
  }

  /** Each block of an extension was opened on the one before it, as that one is published. */
  lemma {:induction false} TailOpens(e: Env, x: Block, k: nat)
    ensures var t := Tail(e, x, k);
      && (forall i :: 0 < i < |t| ==> OpenedOn(e, t[i - 1], t[i]))
      && (forall i :: 0 <= i < |t| - 1 ==> RootOf(e, t[i]))
      && (|t| > 1 ==> Last(t).header.txRoot == e.emptyRoot)
    decreases if x.header.number < k then k - x.header.number else 0
  {
    if x.header.number < k {
      var c := Close(e, x);
      var y := Fresh(e, c);
      var t, u := Tail(e, x, k), Tail(e, y, k);
      TailOpens(e, y, k);
      assert t == [c] + u;
      assert OpenedOn(e, c, u[0]);
      forall i | 0 < i < |t|
        ensures OpenedOn(e, t[i - 1], t[i]) && (i < |t| - 1 ==> RootOf(e, t[i]))
      {
        assert t[i] == u[i - 1];
        if i > 1 { assert t[i - 1] == u[i - 2]; }
      }
    }
  }

  lemma CloseFresh(e: Env, x: Block)
    ensures var c := Close(e, x);
      && RootOf(e, c) && SameButRoot(c, x)
      && c.header.number == x.header.number && c.header.parentHash == x.header.parentHash
      && IsParent(e, c, Fresh(e, c).header)
  {
  }

  /** Closing and publishing the open block, seen from its successor. */
  lemma PublishOne(e: Env, out: seq<Block>, x: Block, n: nat)
    requires LinkedOutput(e, out, n) && n <= x.header.number <= Reach(out, n)
    requires n < x.header.number ==> HasParent(e, out, x.header)
    ensures var c, y := Close(e, x), Fresh(e, Close(e, x));
      && LinkedOutput(e, out + [c], n) && n < y.header.number == Reach(out + [c], n)
      && HasParent(e, out + [c], y.header) && LastNumbered(out + [c], x.header.number) == Some(c)
  {
    hide Close, Fresh;
    var c := Close(e, x);
    CloseFresh(e, x);
    assert Init(out + [c]) == out && Last(out + [c]) == c;
    LastNumberedMore(out, c, x.header.number);
  }

  lemma TailOneMore(e: Env, out: seq<Block>, c: Block, u: seq<Block>)
    requires u != [] && IsParent(e, c, u[0].header) && Chained(e, u) && Published(out, u)
    requires LastNumbered(out, c.header.number) == Some(c)
    ensures Chained(e, [c] + u) && Published(out, [c] + u)
  {
    hide LastNumbered, IsParent;
    var t := [c] + u;
    forall i | 0 <= i < |t| - 1
      ensures IsParent(e, t[i], t[i + 1].header) && LastNumbered(out, t[i].header.number) == Some(t[i])
    {
      assert t[i + 1] == u[i];
      if 0 < i { assert t[i] == u[i - 1]; }
    }
  }

  lemma OneBlock(e: Env, out: seq<Block>, x: Block)
    ensures Chained(e, [x]) && Published(out, [x]) && SameButRoot(x, x)
  {
  }

  lemma {:induction false} ApplyAllFrame(e: Env, x: Block, acts: seq<Action>)
    requires ApplyAll(e, x, acts).Success?
    ensures var h := ApplyAll(e, x, acts).value.header;
      h.number == x.header.number && h.parentHash == x.header.parentHash
    decreases |acts|
  {
    if acts != [] { ApplyAllFrame(e, x, Init(acts)); }
  }

  /** The extended list, whose last block then received transactions. */
  lemma {:induction false} GrowFrame(e: Env, x: Block, b: NativeBlock)
    requires Grow(e, x, b).Success?
    ensures var t, g := Tail(e, x, Num(e, b)), Grow(e, x, b).value;
      && t != [] && |g| == |t| && Init(g) == Init(t)
      && Last(g).header.parentHash == Last(t).header.parentHash && Last(g).header.number == Last(t).header.number
  {
    hide Tail, ApplyAll, Actions;
    var t := Tail(e, x, Num(e, b));
    ApplyAllFrame(e, ApplyConfig(e, Last(t), b).value, Actions(b));
  }

  lemma {:induction false} AcceptIntegrity(e: Env, s: State, b: NativeBlock, n: nat)
    requires Integrity(e, s, n) && Accept(e, s, b).Success?
    ensures Integrity(e, Accept(e, s, b).value, n)
    ensures s.published <= Accept(e, s, b).value.published
  {
    hide Integrity, Grow, Tail, Prune;
    var g := Grow(e, Last(s.evm), b).value;
    var s1 := State(s.native + [b], Init(s.evm) + g, s.lib, s.published + Init(g));
    GrowIntegrity(e, s, s1, b, n);
    PruneIntegrity(e, s1, b.lib, n);
    PruneKeepsOutput(e, s1, b.lib);
  }

  lemma PruneKeepsOutput(e: Env, s: State, lib: nat)
    ensures Prune(e, s, lib).published == s.published
  {
  }

  lemma {:induction false} GrowIntegrity(e: Env, s: State, s1: State, b: NativeBlock, n: nat)
    requires Integrity(e, s, n) && s.evm != [] && Grow(e, Last(s.evm), b).Success?
    requires var g := Grow(e, Last(s.evm), b).value;
      s1.evm == Init(s.evm) + g && s1.published == s.published + Init(g)
    ensures Integrity(e, s1, n)
  {
    hide LinkedOutput, LastNumbered, HasParent, Reach, Published, Chained, Consecutive, Grow, Tail;
    var x := Last(s.evm);
    var t, g := Tail(e, x, Num(e, b)), Grow(e, x, b).value;
    LastHasParent(e, s, n);
    TailPublishes(e, s.published, x, Num(e, b), n);
    GrowFrame(e, x, b);
    TailShape(e, x, Num(e, b));
    JoinConsecutive(s.evm, t, g);
    JoinPublished(e, s.published, s1.published, s.evm, t, g);
    JoinFront(s.evm, t, g);
    assert Last(s1.evm) == Last(g);
    if n < s1.evm[0].header.number {
      SameParent(e, s.published, s1.published, s.evm[0].header, s1.evm[0].header);
    }
  }

  /** The open block's parent is the latest published block of the number below. */
  lemma LastHasParent(e: Env, s: State, n: nat)
    requires Integrity(e, s, n) && s.evm != []
    ensures n <= Last(s.evm).header.number <= Reach(s.published, n)
    ensures s.evm[0].header.number <= Last(s.evm).header.number
    ensures n < Last(s.evm).header.number ==> HasParent(e, s.published, Last(s.evm).header)
  {
    hide LinkedOutput, LastNumbered, Reach;
    var m := |s.evm| - 1;
    assert Last(s.evm) == s.evm[m];
    if m > 0 {
      assert IsParent(e, s.evm[m - 1], s.evm[m - 1 + 1].header);
      assert LastNumbered(s.published, s.evm[m - 1].header.number) == Some(s.evm[m - 1]);
    }
  }

  lemma JoinConsecutive(evm: seq<Block>, t: seq<Block>, g: seq<Block>)
    requires evm != [] && Consecutive(evm) && t != [] && |g| == |t| && Init(g) == Init(t)
    requires Last(g).header.number == Last(t).header.number
    requires forall i :: 0 <= i < |t| ==> t[i].header.number == Last(evm).header.number + i
    ensures Consecutive(Init(evm) + g)
  {
    var long, m := Init(evm) + g, |evm| - 1;
    assert evm[m].header.number == evm[0].header.number + m;
    forall i | 0 <= i < |long|
      ensures long[i].header.number == evm[0].header.number + i
    {
      if i < m {
        assert long[i] == evm[i];
      } else {
        SameBelowLast(g, t, i - m);
      }
    }
  }

  lemma SameBelowLast(g: seq<Block>, t: seq<Block>, i: nat)
    requires t != [] && |g| == |t| && Init(g) == Init(t) && i < |t|
    ensures i < |t| - 1 ==> g[i] == t[i]
    ensures i == |t| - 1 ==> g[i] == Last(g) && t[i] == Last(t)
  {
    if i < |t| - 1 { assert Init(g)[i] == Init(t)[i]; }
  }

  /** Closed blocks before the extension stay the latest of their numbers. */
  lemma {:induction false} JoinPublished(
    e: Env, out: seq<Block>, more: seq<Block>, evm: seq<Block>, t: seq<Block>, g: seq<Block>)
    requires evm != [] && Consecutive(evm) && Published(out, evm) && Chained(e, evm)
    requires t != [] && |g| == |t| && Init(g) == Init(t) && Published(more, t) && Chained(e, t)
    requires Last(g).header.parentHash == Last(t).header.parentHash && Last(g).header.number == Last(t).header.number
    requires t[0].header.parentHash == Last(evm).header.parentHash && t[0].header.number == Last(evm).header.number
    requires forall j: nat :: j < Last(evm).header.number ==> LastNumbered(more, j) == LastNumbered(out, j)
    ensures Published(more, Init(evm) + g) && Chained(e, Init(evm) + g)
  {
    hide LastNumbered;
    var long, m := Init(evm) + g, |evm| - 1;
    assert Last(evm) == evm[m];
    forall i | 0 <= i < |long| - 1
      ensures LastNumbered(more, long[i].header.number) == Some(long[i]) && IsParent(e, long[i], long[i + 1].header)
    {
      if i < m {
        assert long[i] == evm[i] && evm[i].header.number < evm[m].header.number;
        assert IsParent(e, evm[i], evm[i + 1].header);
        if i + 1 < m {
          assert long[i + 1] == evm[i + 1];
        } else {
          SameBelowLast(g, t, 0);
          assert long[i + 1] == g[0];
        }
      } else {
        SameBelowLast(g, t, i - m);
        SameBelowLast(g, t, i - m + 1);
        assert long[i] == t[i - m] && long[i + 1] == g[i - m + 1];
        assert IsParent(e, t[i - m], t[i - m + 1].header);
      }
    }
  }

  lemma JoinFront(evm: seq<Block>, t: seq<Block>, g: seq<Block>)
    requires evm != [] && t != [] && |g| == |t| && Init(g) == Init(t)
    requires Last(g).header.parentHash == Last(t).header.parentHash && Last(g).header.number == Last(t).header.number
    requires t[0].header.parentHash == Last(evm).header.parentHash && t[0].header.number == Last(evm).header.number
    ensures var front := (Init(evm) + g)[0].header;
      front.number == evm[0].header.number && front.parentHash == evm[0].header.parentHash
  {
    SameBelowLast(g, t, 0);
    if |evm| == 1 { assert (Init(evm) + g)[0] == g[0]; } else { assert (Init(evm) + g)[0] == evm[0]; }
  }

  lemma SameParent(e: Env, out: seq<Block>, more: seq<Block>, h: Header, h': Header)
    requires HasParent(e, out, h) && h.number == h'.number && h.parentHash == h'.parentHash
    requires LastNumbered(more, h.number - 1) == LastNumbered(out, h.number - 1)
    ensures HasParent(e, more, h')
  {
  }

  lemma {:induction false} DropEvmSuffix(evm: seq<Block>, h: nat)
    ensures Suffix(DropEvmBelow(evm, h), evm)
  {
    if evm != [] && evm[0].header.number < h {
      DropEvmSuffix(evm[1..], h);
    }
  }

  lemma {:induction false} PruneIntegrity(e: Env, s: State, lib: nat, n: nat)
    requires Integrity(e, s, n)
    ensures Integrity(e, Prune(e, s, lib), n)
  {
    hide LinkedOutput, LastNumbered, Integrity, DropEvmBelow, DropNativeBelow;
    var r := Prune(e, s, lib);
    if r != s {
      DropEvmSuffix(s.evm, r.lib.value);
      SuffixIntegrity(e, s, r, n);
    }
  }

  lemma {:induction false} SuffixIntegrity(e: Env, s: State, r: State, n: nat)
    requires Integrity(e, s, n) && Suffix(r.evm, s.evm) && r.published == s.published
    ensures Integrity(e, r, n)
  {
    hide LinkedOutput, LastNumbered, HasParent, Published, Chained, Reach, Consecutive;
    SuffixConsecutive(r.evm, s.evm);
    SuffixPublished(e, s.published, r.evm, s.evm);
    if r.evm != [] {
      assert Last(r.evm) == Last(s.evm);
      FrontParent(e, s, |s.evm| - |r.evm|, n);
    }
  }

  lemma SuffixConsecutive(r: seq<Block>, evm: seq<Block>)
    requires Suffix(r, evm) && Consecutive(evm)
    ensures Consecutive(r)
  {
    var d := |evm| - |r|;
    forall i | 0 <= i < |r|
      ensures r[i].header.number == r[0].header.number + i
    {
      assert r[i] == evm[i + d] && r[0] == evm[d];
    }
  }

  lemma SuffixPublished(e: Env, out: seq<Block>, r: seq<Block>, evm: seq<Block>)
    requires Suffix(r, evm) && Published(out, evm) && Chained(e, evm)
    ensures Published(out, r) && Chained(e, r)
  {
    hide LastNumbered, IsParent;
    var d := |evm| - |r|;
    forall i | 0 <= i < |r| - 1
      ensures LastNumbered(out, r[i].header.number) == Some(r[i]) && IsParent(e, r[i], r[i + 1].header)
    {
      assert r[i] == evm[i + d] && r[i + 1] == evm[i + d + 1];
      assert IsParent(e, evm[i + d], evm[i + d + 1].header);
    }
  }

  /** The parent of every cached block was published last of its number. */
  lemma FrontParent(e: Env, s: State, d: nat, n: nat)
    requires Integrity(e, s, n) && d < |s.evm|
    ensures n <= s.evm[d].header.number && (n < s.evm[d].header.number ==> HasParent(e, s.published, s.evm[d].header))
  {
    hide LinkedOutput, LastNumbered, Reach;
    if 0 < d {
      assert IsParent(e, s.evm[d - 1], s.evm[d - 1 + 1].header);
      assert LastNumbered(s.published, s.evm[d - 1].header.number) == Some(s.evm[d - 1]);
    }
  }

  /** A rollback changes only the last remaining EVM block, and neither its number nor its
      parent. */
  ghost predicate CutOf(cut: seq<Block>, evm: seq<Block>) {
    && |cut| <= |evm|
    && (forall i :: 0 <= i < |cut| - 1 ==> cut[i] == evm[i])
    && (cut != [] ==>
          && Last(cut).header.(prevRandao := 0) == evm[|cut| - 1].header.(prevRandao := 0)
          && Last(cut).cpi == evm[|cut| - 1].cpi && Last(cut).gasPrices == evm[|cut| - 1].gasPrices)
  }

  lemma {:induction false} PopEvmCut(evm: seq<Block>, k: nat)
    ensures CutOf(PopEvm(evm, k), evm)
    decreases |evm|
  {
    if evm != [] && k < Last(evm).header.number { PopEvmCut(Init(evm), k); }
  }

  lemma {:induction false} PopNativeCut(e: Env, s: State, fork: NativeBlock)
    requires PopNative(e, s, fork).Success?
    ensures var r := PopNative(e, s, fork).value;
      CutOf(r.evm, s.evm) && |r.evm| == |s.evm| && r.published == s.published && r.lib == s.lib
    decreases |s.native|
  {
    hide Undo, EvmNum, Actions;
    if s.native != [] && Last(s.native).id != fork.id {
      var evm := UndoIfShared(e, s.evm, Last(s.native), fork).value;
      assert CutOf(evm, s.evm) && |evm| == |s.evm|;
      PopNativeCut(e, s.(native := Init(s.native), evm := evm), fork);
    }
  }

  lemma {:induction false} RollbackCut(e: Env, s: State, fork: NativeBlock)
    requires Rollback(e, s, fork).Success?
    ensures var r := Rollback(e, s, fork).value;
      CutOf(r.evm, s.evm) && r.evm != [] && r.published == s.published && r.lib == s.lib
      && |r.evm| == |PopEvm(s.evm, Num(e, fork))|
  {
    hide PopEvm, PopNative, EvmNum;
    PopEvmCut(s.evm, Num(e, fork));
    var s0 := s.(evm := PopEvm(s.evm, Num(e, fork)));
    PopNativeCut(e, s0, fork);
    var s1, r := PopNative(e, s0, fork).value, Rollback(e, s, fork).value;
    assert forall i :: 0 <= i < |r.evm| - 1 ==> r.evm[i] == s1.evm[i];
  }

  lemma {:induction false} RollbackIntegrity(e: Env, s: State, fork: NativeBlock, n: nat)
    requires Integrity(e, s, n) && Rollback(e, s, fork).Success?
    ensures Integrity(e, Rollback(e, s, fork).value, n)
  {
    hide Rollback, Integrity;
    RollbackCut(e, s, fork);
    CutIntegrity(e, s, Rollback(e, s, fork).value, n);
  }

  lemma {:induction false} CutIntegrity(e: Env, s: State, r: State, n: nat)
    requires Integrity(e, s, n) && CutOf(r.evm, s.evm) && r.evm != [] && r.published == s.published
    ensures Integrity(e, r, n)
  {
    hide LinkedOutput, LastNumbered;
    forall i | 0 <= i < |r.evm|
      ensures r.evm[i].header.number == s.evm[i].header.number == s.evm[0].header.number + i
      ensures r.evm[i].header.parentHash == s.evm[i].header.parentHash
      ensures i < |r.evm| - 1 ==> r.evm[i] == s.evm[i]
    {
      CutAt(r.evm, s.evm, i);
    }
    forall i | 0 <= i < |r.evm| - 1
      ensures LastNumbered(r.published, r.evm[i].header.number) == Some(r.evm[i])
      ensures IsParent(e, r.evm[i], r.evm[i + 1].header)
    {
      assert IsParent(e, s.evm[i], s.evm[i + 1].header);
    }
    assert Last(s.evm) == s.evm[|s.evm| - 1] && Last(r.evm) == r.evm[|r.evm| - 1];
  }

  lemma CutAt(cut: seq<Block>, evm: seq<Block>, i: nat)
    requires CutOf(cut, evm) && i < |cut|
    ensures cut[i].header.number == evm[i].header.number && cut[i].header.parentHash == evm[i].header.parentHash
  {
    if i == |cut| - 1 {
      var h, g := cut[i].header, evm[i].header;
      assert h.(prevRandao := 0).number == h.number && h.(prevRandao := 0).parentHash == h.parentHash;
      assert g.(prevRandao := 0).number == g.number && g.(prevRandao := 0).parentHash == g.parentHash;
    }
  }

  /** Any accepted block, from any state, keeps the output and the cache linked. */
  lemma {:induction false} StepIntegrity(e: Env, s: State, b: NativeBlock, n: nat)
    requires Integrity(e, s, n) && Step(e, s, b).Success?
    ensures Integrity(e, Step(e, s, b).value, n) && s.published <= Step(e, s, b).value.published
  {
    hide Accept, Rollback, Integrity;
    if s.native == [] || Last(s.native).id == b.prev {
      AcceptIntegrity(e, s, b, n);
    } else if Find(s.native, b.id).None? {
      var fork := s.native[Find(s.native, b.prev).value];
      RollbackIntegrity(e, s, fork, n);
      RollbackCut(e, s, fork);
      AcceptIntegrity(e, Rollback(e, s, fork).value, b, n);
    }
  }

  /** Over a whole run, across forks and reopened blocks, each published block names the
      latest one of the number below as its parent, and the closed cached blocks are the
      latest published ones of their numbers. */
  lemma {:induction false} RunIntegrity(e: Env, s: State, bs: seq<NativeBlock>, n: nat)
    requires Integrity(e, s, n) && Run(e, s, bs).Success?
    ensures Integrity(e, Run(e, s, bs).value, n) && s.published <= Run(e, s, bs).value.published
    decreases |bs|
  {
    hide Step, Integrity;
    if bs != [] {
      RunIntegrity(e, s, Init(bs), n);
      StepIntegrity(e, Run(e, s, Init(bs)).value, Last(bs), n);
    }
  }
}
