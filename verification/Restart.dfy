/** Restarting from a stored EVM block and feeding the native blocks that follow it yields
    the EVM chain of the uninterrupted run. */
module Restart {
  import opened Types
  import opened Seqs
  import opened Conversion
  import opened Grouping
  import opened RollbackProofs
  import opened Runs
  import opened Uniformity
  import opened Headers
  import opened FoldRuns

  // ----- equality up to what a restart may change -----

  /** Equal up to the irreversibility flag, which depends on when a block was received. */
  predicate SameButFlag(x: Block, y: Block) {
    x.(irreversible := false) == y.(irreversible := false)
  }

  /** Equal up to the flag and the root of an open block. */
  predicate Alike(x: Block, y: Block) {
    x == Dress(y, x.header.txRoot, x.irreversible)
  }

  /** The same native block, sent again with a newer irreversible number. */
  predicate Resent(b: NativeBlock, c: NativeBlock) {
    b.(lib := 0) == c.(lib := 0)
  }

  /** `p` is the end of `f`: same closed blocks up to the flag, alike open blocks. */
  ghost predicate EndAlike(p: seq<Block>, f: seq<Block>) {
    && p != [] && |p| <= |f|
    && (forall i :: 0 <= i < |p| - 1 ==> SameButFlag(p[i], f[|f| - |p| + i]))
    && Alike(Last(p), Last(f))
  }

  ghost predicate AllResent(bs: seq<NativeBlock>, cs: seq<NativeBlock>) {
    |bs| == |cs| && forall i :: 0 <= i < |bs| ==> Resent(bs[i], cs[i])
  }

  // ----- one native block -----

  lemma {:induction false} AppendResent(e: Env, y: Block, b: NativeBlock, c: NativeBlock)
    requires Resent(b, c)
    ensures var r, q := Append(e, y, b), Append(e, y, c);
      && (r.Success? <==> q.Success?)
      && (r.Success? ==> SameButFlag(r.value, q.value) && r.value.header.txRoot == q.value.header.txRoot)
  {
    assert b == c.(lib := b.lib);
  }

  lemma {:induction false} AppendAlike(e: Env, x: Block, y: Block, b: NativeBlock, c: NativeBlock)
    requires Alike(x, y) && Resent(b, c)
    ensures Append(e, x, b).Success? <==> Append(e, y, c).Success?
    ensures Append(e, x, b).Success? ==> Alike(Append(e, x, b).value, Append(e, y, c).value)
  {
    hide Append;
    AppendDressed(e, y, b, x.header.txRoot, x.irreversible);
    AppendResent(e, y, b, c);
  }

  lemma ResentTime(b: NativeBlock, c: NativeBlock)
    requires Resent(b, c)
    ensures b.timestamp == c.timestamp
  {
    assert b == c.(lib := b.lib);
  }

  /** The extensions of alike blocks are equal but for the flag of their first block. */
  lemma TailAlike(e: Env, x: Block, y: Block, k: nat)
    requires Alike(x, y)
    ensures var t, u := Tail(e, x, k), Tail(e, y, k);
      && |t| == |u| && Alike(Last(t), Last(u))
      && forall i :: 0 <= i < |t| - 1 ==> SameButFlag(t[i], u[i])
  {
    hide Fresh;
    assert x.header.number == y.header.number;
    if x.header.number < k {
      assert Close(e, x) == Close(e, y).(irreversible := x.irreversible);
      FreshAlike(e, Close(e, x), Close(e, y));
      var v := Tail(e, Fresh(e, Close(e, x)), k);
      assert Tail(e, x, k) == [Close(e, x)] + v && Tail(e, y, k) == [Close(e, y)] + v;
      AlikeItself(Last(v));
    }
  }

  lemma AlikeItself(x: Block)
    ensures Alike(x, x)
  {
  }

  lemma {:induction false} GrowAlike(e: Env, x: Block, y: Block, b: NativeBlock, c: NativeBlock)
    requires Alike(x, y) && Resent(b, c)
    ensures var r, q := Grow(e, x, b), Grow(e, y, c);
      && (r.Success? <==> q.Success?)
      && (r.Success? ==> |r.value| == |q.value| && EndAlike(r.value, q.value))
  {
    hide Append, Tail, EvmNum, Alike, SameButFlag, Grow;
    var k := Num(e, b);
    assert Num(e, c) == k by { ResentTime(b, c); }
    var t, u := Tail(e, x, k), Tail(e, y, k);
    TailAlike(e, x, y, k);
    AppendAlike(e, Last(t), Last(u), b, c);
    GrowSucceeds(e, x, b);
    GrowSucceeds(e, y, c);
    if Grow(e, x, b).Success? {
      GrowParts(e, x, b);
      GrowParts(e, y, c);
      JoinAlike(t, u, Grow(e, x, b).value, Grow(e, y, c).value);
    }
  }

  lemma GrowSucceeds(e: Env, x: Block, b: NativeBlock)
    ensures Grow(e, x, b).Success? <==> Append(e, Last(Tail(e, x, Num(e, b))), b).Success?
  {
    hide Append, Tail;
  }

  lemma JoinAlike(t: seq<Block>, u: seq<Block>, g: seq<Block>, h: seq<Block>)
    requires t != [] && u != [] && |t| == |u| == |g| == |h| && Init(g) == Init(t) && Init(h) == Init(u)
    requires forall i :: 0 <= i < |t| - 1 ==> SameButFlag(t[i], u[i])
    requires Alike(Last(g), Last(h))
    ensures EndAlike(g, h)
  {
    hide Alike, SameButFlag;
    forall i | 0 <= i < |g| - 1
      ensures SameButFlag(g[i], h[|h| - |g| + i])
    {
      assert g[i] == Init(t)[i] == t[i] && h[i] == Init(u)[i] == u[i];
    }
  }

  lemma FreshAlike(e: Env, x: Block, y: Block)
    requires SameButFlag(x, y)
    ensures Fresh(e, x) == Fresh(e, y)
  {
    assert x == y.(irreversible := x.irreversible);
  }

  lemma EndAlikeMore(p: seq<Block>, f: seq<Block>, g: seq<Block>, h: seq<Block>)
    requires EndAlike(p, f) && |g| == |h| && EndAlike(g, h)
    ensures EndAlike(Init(p) + g, Init(f) + h)
  {
    var q, r := Init(p) + g, Init(f) + h;
    forall i | 0 <= i < |q| - 1
      ensures SameButFlag(q[i], r[|r| - |q| + i])
    {
      if i < |p| - 1 {
        assert q[i] == p[i] && r[|r| - |q| + i] == f[|f| - |p| + i];
      } else {
        assert q[i] == g[i - (|p| - 1)] && r[|r| - |q| + i] == h[i - (|p| - 1)];
      }
    }
    assert Last(q) == Last(g) && Last(r) == Last(h);
  }

  // ----- the fold, cut and taken up again -----

  /** Taking up the fold from a block alike to its open one, with the rest of the native
      chain sent again, rejects and yields what the uninterrupted fold does. */
  lemma {:induction false} FoldTakenUp(
    e: Env, start: Block, chain: seq<NativeBlock>, n: nat, base: Block, again: seq<NativeBlock>)
    requires 0 < n <= |chain| && again != [] && |again| - 1 == |chain| - n
    requires AllResent(again[1..], chain[n..])
    requires Fold(e, start, chain[..n]).Success? && Alike(base, Last(Fold(e, start, chain[..n]).value))
    ensures Fold(e, base, again).Success? <==> Fold(e, start, chain).Success?
    ensures Fold(e, start, chain).Success? ==>
      && EndAlike(Fold(e, base, again).value, Fold(e, start, chain).value)
      && |Fold(e, start, chain).value| - |Fold(e, base, again).value| == |Fold(e, start, chain[..n]).value| - 1
    decreases |chain|
  {
    hide Grow, Alike, SameButFlag, EndAlike, Resent;
    if n == |chain| {
      assert chain[..n] == chain;
      EndAlikeOne(base, Fold(e, start, chain).value);
    } else {
      assert Init(again)[1..] == Init(again[1..]) && Init(chain)[n..] == Init(chain[n..]);
      assert Init(chain)[..n] == chain[..n];
      FoldTakenUp(e, start, Init(chain), n, base, Init(again));
      assert Last(again) == again[1..][|again| - 2] && Last(chain) == chain[n..][|again| - 2];
      if Fold(e, start, Init(chain)).Success? {
        var p, f := Fold(e, base, Init(again)).value, Fold(e, start, Init(chain)).value;
        EndAlikeLast(p, f);
        GrowAlike(e, Last(p), Last(f), Last(again), Last(chain));
        if Grow(e, Last(f), Last(chain)).Success? {
          EndAlikeMore(p, f, Grow(e, Last(p), Last(again)).value, Grow(e, Last(f), Last(chain)).value);
        }
      }
    }
  }

  lemma EndAlikeOne(x: Block, f: seq<Block>)
    requires f != [] && Alike(x, Last(f))
    ensures EndAlike([x], f)
  {
  }

  lemma EndAlikeLast(p: seq<Block>, f: seq<Block>)
    requires EndAlike(p, f)
    ensures p != [] && f != [] && Alike(Last(p), Last(f))
  {
  }

  // ----- where a stored block belongs in the native chain -----

  /** Number of leading native blocks that map to `h` or below. */
  function Upto(e: Env, chain: seq<NativeBlock>, h: nat): (n: nat)
    ensures n <= |chain|
    ensures 0 < n ==> Num(e, chain[n - 1]) <= h
  {
    if chain == [] then 0
    else if Num(e, Last(chain)) <= h then |chain|
    else Upto(e, Init(chain), h)
  }

  lemma {:induction false} UptoNext(e: Env, start: Block, chain: seq<NativeBlock>, h: nat)
    requires ChainOk(e, start, chain) && Upto(e, chain, h) < |chain|
    ensures h < Num(e, chain[Upto(e, chain, h)])
    decreases |chain|
  {
    if |chain| > 1 && Upto(e, chain, h) < |chain| - 1 {
      ChainPrefix(e, start, chain, |chain| - 1);
      UptoNext(e, start, Init(chain), h);
    }
  }

  /** A block of the fold without a native id is empty, and one with an id carries the id
      of the last native block that maps to its number or below. */
  lemma {:induction false} IdOfBlock(e: Env, start: Block, chain: seq<NativeBlock>, h: nat, n: nat)
    requires ChainOk(e, start, chain) && start.header.number < Num(e, chain[0])
    requires chain[0].id == start.header.prevRandao && (forall i :: 0 <= i < |chain| ==> chain[i].id != 0)
    requires start.header.number <= h && 0 < n <= |chain|
    requires n > 1 ==> Num(e, chain[n - 1]) <= h
    requires n < |chain| ==> h < Num(e, chain[n])
    ensures var x, top := Expected(e, start, chain, h), Top(e, start, chain[..n]);
      && top <= h
      && (x.prevRandao == 0 ==> x == EmptyBody(h))
      && (x.prevRandao != 0 ==> top == h && x.prevRandao == chain[n - 1].id)
  {
    var cut := chain[..n];
    ExpectedBelow(e, start, chain, n, h);
    ChainPrefix(e, start, chain, n);
    if Top(e, start, cut) < h {
      ExpectedAboveTop(e, start, cut, h);
    }
  }

  /** The fold's blocks below its open one are what was published, up to nothing: taking the
      chain only up to the last native block of number `h` gives the same block `h`, open. */
  lemma {:induction false} FoldAt(e: Env, start: Block, chain: seq<NativeBlock>, n: nat)
    requires ChainOk(e, start, chain) && start.header.number < Num(e, chain[0])
    requires 0 < n < |chain| && Fold(e, start, chain).Success?
    requires Top(e, start, chain[..n]) < Num(e, chain[n])
    ensures var cut, f := Fold(e, start, chain[..n]), Fold(e, start, chain).value;
      && cut.Success? && 0 < |cut.value| < |f|
      && SameButRoot(f[|cut.value| - 1], Last(cut.value))
    decreases |chain|
  {
    hide Grow, SameButRoot;
    var f, rest := Fold(e, start, chain).value, Init(chain);
    var fr := Fold(e, start, rest).value;
    ChainPrefix(e, start, chain, |chain| - 1);
    assert rest[..n] == chain[..n];
    if n == |chain| - 1 {
      assert chain[..n] == rest;
      FoldShape(e, start, rest);
      GrowFirst(e, Last(fr), Last(chain));
      assert f[|fr| - 1] == Grow(e, Last(fr), Last(chain)).value[0];
    } else {
      FoldAt(e, start, rest, n);
      var p := |Fold(e, start, chain[..n]).value| - 1;
      assert f[p] == fr[p];
    }
  }

  /** A block of a later number closes the open block without changing it otherwise. */
  lemma GrowFirst(e: Env, x: Block, b: NativeBlock)
    requires Grow(e, x, b).Success? && x.header.number < Num(e, b)
    ensures |Grow(e, x, b).value| > 1 && SameButRoot(Grow(e, x, b).value[0], x)
  {
    var t := Tail(e, x, Num(e, b));
    assert Grow(e, x, b).value[0] == t[0] == Close(e, x);
  }

  // ----- restart equivalence -----

  /** The uninterrupted run: a chain whose fold succeeds, with a start block that carries a
      native id, the id of `chain[0]`, and native ids that are never zero. */
  ghost predicate Uninterrupted(e: Env, start: Block, chain: seq<NativeBlock>) {
    && ChainOk(e, start, chain) && start.header.number < Num(e, chain[0])
    && chain[0].id == start.header.prevRandao
    && (forall i :: 0 <= i < |chain| ==> chain[i].id != 0)
    && Fold(e, start, chain).Success?
  }

  /** The closed block `h` of the uninterrupted run. */
  ghost predicate ClosedBlock(e: Env, start: Block, chain: seq<NativeBlock>, h: nat, x: Block)
    requires chain != [] && Fold(e, start, chain).Success?
  {
    var f := Fold(e, start, chain).value;
    start.header.number <= h < start.header.number + |f| - 1 && x == f[h - start.header.number]
  }

  /** A closed block without a native id is empty; with one, it ends just before the native
      block whose number follows that id's. */
  lemma {:induction false} StoredBlock(e: Env, start: Block, chain: seq<NativeBlock>, h: nat, x: Block)
    requires Uninterrupted(e, start, chain) && ClosedBlock(e, start, chain, h, x)
    ensures x.header.prevRandao == 0 ==> BodyOf(x) == EmptyBody(h)
    ensures x.header.prevRandao != 0 ==>
      var n := NextNative(e, chain, h);
      && 0 < n < |chain|
      && x.header.prevRandao == chain[n - 1].id && chain[n].blockNum == e.idNum(x.header.prevRandao) + 1
      && Top(e, start, chain[..n]) == h && h < Num(e, chain[n])
  {
    hide Expected, BodyOf, BodiesMatch, Fold, Top, Upto, NextNative, ChainOk, EvmNum;
    var n := NextNative(e, chain, h);
    ClosedBody(e, start, chain, h, x);
    NextNativeBounds(e, start, chain, h);
    IdOfBlock(e, start, chain, h, n);
    BodyId(x);
    IdNumbers(e, start, chain, n);
  }

  lemma IdNumbers(e: Env, start: Block, chain: seq<NativeBlock>, n: nat)
    requires ChainOk(e, start, chain) && 0 < n < |chain|
    ensures chain[n].blockNum == e.idNum(chain[n - 1].id) + 1
  {
    assert LinkedAt(e, chain, n) && LinkedAt(e, chain, n - 1);
  }

  lemma ClosedBody(e: Env, start: Block, chain: seq<NativeBlock>, h: nat, x: Block)
    requires Uninterrupted(e, start, chain) && ClosedBlock(e, start, chain, h, x)
    ensures BodyOf(x) == Expected(e, start, chain, h)
    ensures start.header.number <= h < Top(e, start, chain)
  {
    hide Expected, BodyOf, ChainOk, Fold, Top;
    FoldShape(e, start, chain);
    FoldBody(e, start, chain, h - start.header.number);
  }

  lemma BodyId(x: Block)
    ensures BodyOf(x).prevRandao == x.header.prevRandao
  {
  }

  lemma FoldBody(e: Env, start: Block, chain: seq<NativeBlock>, p: nat)
    requires ChainOk(e, start, chain) && Fold(e, start, chain).Success?
    requires p < |Fold(e, start, chain).value|
    ensures var f := Fold(e, start, chain).value;
      && f[p].header.number == start.header.number + p
      && BodyOf(f[p]) == Expected(e, start, chain, start.header.number + p)
  {
    hide Expected, BodyOf, KeysMatch, ChainOk, Fold;
    FoldTracks(e, start, chain);
    FoldShape(e, start, chain);
  }

  /** Position of the first native block to feed after a restart at `h`. */
  function NextNative(e: Env, chain: seq<NativeBlock>, h: nat): nat {
    if Upto(e, chain, h) == 0 then 1 else Upto(e, chain, h)
  }

  lemma {:induction false} NextNativeBounds(e: Env, start: Block, chain: seq<NativeBlock>, h: nat)
    requires ChainOk(e, start, chain) && start.header.number <= h < Top(e, start, chain)
    ensures var n := NextNative(e, chain, h);
      && 0 < n < |chain| && (n > 1 ==> Num(e, chain[n - 1]) <= h)
      && h < Num(e, chain[n])
  {
    UptoNext(e, start, chain, h);
    var u := Upto(e, chain, h);
    assert Num(e, Last(chain)) == Num(e, chain[|chain| - 1]);
    if u == 0 { ChainMonotone(e, start, chain, 0, 1); }
  }

  /** Restart equivalence.  A restart at a stored block `h` with a native id feeds native
      blocks from the number after that id; whatever irreversible numbers they now carry,
      the fold over them begins with block `h` again and is the end of the uninterrupted
      run's EVM chain. */
  lemma {:induction false} RestartEquivalence(
    e: Env, start: Block, chain: seq<NativeBlock>, h: nat, x: Block, base: Block, again: seq<NativeBlock>)
    requires Uninterrupted(e, start, chain) && ClosedBlock(e, start, chain, h, x)
    requires x.header.prevRandao != 0 && SameButFlag(base, x)
    requires again != [] && AllResent(again[1..], chain[NextNative(e, chain, h)..])
    ensures var f, r := Fold(e, start, chain).value, Fold(e, base, again);
      && r.Success? && EndAlike(r.value, f)
      && |r.value| == |f| - (h - start.header.number)
  {
    hide Alike, SameButFlag, Expected, BodyOf, Resent, Grow;
    var f, n := Fold(e, start, chain).value, NextNative(e, chain, h);
    StoredBlock(e, start, chain, h, x);
    FoldAt(e, start, chain, n);
    ChainPrefix(e, start, chain, n);
    FoldShape(e, start, chain[..n]);
    var cut := Fold(e, start, chain[..n]).value;
    assert |cut| - 1 == h - start.header.number;
    StoredAlike(base, x, Last(cut));
    FoldTakenUp(e, start, chain, n, base, again);
  }

  lemma StoredAlike(base: Block, x: Block, y: Block)
    requires SameButFlag(base, x) && SameButRoot(x, y)
    ensures Alike(base, y)
  {
    assert base == x.(irreversible := base.irreversible);
    assert x == Dress(y, x.header.txRoot, y.irreversible);
  }
}
