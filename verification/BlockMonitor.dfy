/** The websocket proxy's block monitor: a window of reversible blocks that follows a remote
    chain, and the events it emits. */
module BlockMonitor {
  import opened Types
  import opened Seqs
  import Conversion

  /** A log entry of a remote block. */
  datatype Log = Log(content: nat)

  datatype RemoteBlock = RemoteBlock(number: nat, hash: Hash, parentHash: Hash, logs: seq<Log>)

  datatype Event = Appended(block: RemoteBlock) | Forked(block: RemoteBlock) | Removed(block: RemoteBlock)

  /** Reply to a request for the next block: a block, none yet, or an exception. */
  datatype Reply = Got(block: RemoteBlock) | Nothing | Failed

  const BLOCK_INTERVAL := 1
  const KEPT := 180
  const SLACK := 6

  /** Number of the EVM block a timestamp, in seconds, belongs to. */
  function TimestampToEvmBlockNum(genesis: nat, timestamp: nat): nat {
    if timestamp < genesis then 0 else 1 + (timestamp - genesis) / BLOCK_INTERVAL
  }

  /** The proxy numbers a native block's time as the converter does, so the number below which
      it forgets blocks is that of the EVM block the irreversible native block belongs to. */
  lemma NumbersAgree(e: Env, timestamp: nat)
    ensures TimestampToEvmBlockNum(e.genesis, timestamp / Conversion.MICROS) == Conversion.EvmNum(e, timestamp)
  {
  }

  // ----- windows and events -----

  predicate Child(p: RemoteBlock, b: RemoteBlock) {
    b.number == p.number + 1 && b.parentHash == p.hash
  }

  ghost predicate Linked(w: seq<RemoteBlock>) {
    forall i, j :: 0 <= i && j == i + 1 < |w| ==> Child(w[i], w[j])
  }

  /** Only the front is removed, only the back forks out, only a child is appended. */
  predicate ValidEvent(w: seq<RemoteBlock>, ev: Event) {
    match ev
    case Appended(b) => w == [] || Child(Last(w), b)
    case Forked(b) => w != [] && b == Last(w)
    case Removed(b) => w != [] && b == w[0]
  }

  function After(w: seq<RemoteBlock>, ev: Event): seq<RemoteBlock>
    requires ValidEvent(w, ev)
  {
    match ev
    case Appended(b) => w + [b]
    case Forked(_) => Init(w)
    case Removed(_) => w[1..]
  }

  predicate ValidEvents(w: seq<RemoteBlock>, evs: seq<Event>)
    decreases |evs|, 0
  {
    evs == [] || (ValidEvents(w, Init(evs)) && ValidEvent(Replay(w, Init(evs)), Last(evs)))
  }

  /** The window after a list of events. */
  function Replay(w: seq<RemoteBlock>, evs: seq<Event>): seq<RemoteBlock>
    requires ValidEvents(w, evs)
    decreases |evs|, 1
  {
    if evs == [] then w else After(Replay(w, Init(evs)), Last(evs))
  }

  lemma {:induction false} ReplayLinked(w: seq<RemoteBlock>, evs: seq<Event>)
    requires Linked(w) && ValidEvents(w, evs)
    ensures Linked(Replay(w, evs))
    decreases |evs|
  {
    if evs != [] {
      ReplayLinked(w, Init(evs));
      var v, u := Replay(w, Init(evs)), Replay(w, evs);
      forall i, j | 0 <= i && j == i + 1 < |u|
        ensures Child(u[i], u[j])
      {
        match Last(evs)
        case Appended(b) => if j < |v| { assert u[i] == v[i] && u[j] == v[j]; }
        case Forked(_) => assert u[i] == v[i] && u[j] == v[j];
        case Removed(_) => assert u[i] == v[i + 1] && u[j] == v[j + 1];
      }
    }
  }

  // ----- one round of the polling loop, with any remote -----

  /** The event of one loop iteration: append the block received if it is a child of the
      last one, else fork the last one out. */
  function RoundEvent(w: seq<RemoteBlock>, next: RemoteBlock): Event
    requires w != []
  {
    if next.parentHash == Last(w).hash then Appended(next) else Forked(Last(w))
  }

  /** Blocks received one after the other, each the one asked for by number, from a remote
      chain that may change between requests. */
  function Rounds(w: seq<RemoteBlock>, nexts: seq<RemoteBlock>): (evs: seq<Event>)
    requires Linked(w)
    ensures ValidEvents(w, evs) && Linked(Replay(w, evs))
    decreases |nexts|
  {
    if nexts == [] then
      []
    else
      var evs := Rounds(w, Init(nexts));
      var v := Replay(w, evs);
      if v == [] || Last(nexts).number != Last(v).number + 1 then evs
      else
        var all := evs + [RoundEvent(v, Last(nexts))];
        assert Init(all) == evs;
        ReplayLinked(w, all);
        all
  }

  // ----- a remote chain that stays put -----

  /** `remote[n]` is block `n`; each block names its parent's hash. */
  ghost predicate RemoteChain(remote: seq<RemoteBlock>) {
    && (forall n :: 0 <= n < |remote| ==> remote[n].number == n)
    && (forall n, m :: 0 <= n && m == n + 1 < |remote| ==> remote[m].parentHash == remote[n].hash)
  }

  /** A hash seen both in the window and on the remote chain means the same block. */
  ghost predicate CollisionFree(w: seq<RemoteBlock>, remote: seq<RemoteBlock>) {
    forall i, n :: 0 <= i < |w| && 0 <= n < |remote| && w[i].hash == remote[n].hash ==> w[i] == remote[n]
  }

  ghost predicate OnChain(b: RemoteBlock, remote: seq<RemoteBlock>) {
    b.number < |remote| && b == remote[b.number]
  }

  /** A contiguous piece of the remote chain. */
  ghost predicate Segment(w: seq<RemoteBlock>, remote: seq<RemoteBlock>) {
    w == [] || (|w| <= w[0].number + |w| <= |remote| && w == remote[w[0].number..w[0].number + |w|])
  }

  /** The block after `last`, staying one behind the head; without `last`, the block before
      the head. */
  function GetNextBlock(remote: seq<RemoteBlock>, last: Option<RemoteBlock>): Reply {
    if remote == [] then Nothing
    else
      var head := |remote| - 1;
      match last
      case None => if head == 0 then Failed else Got(remote[head - 1])
      case Some(b) => if b.number + 1 >= head - 1 then Nothing else Got(remote[b.number + 1])
  }

  /** If the last block of a linked window is on the remote chain, so is all of it. */
  lemma {:induction false} LinkedSegment(w: seq<RemoteBlock>, remote: seq<RemoteBlock>)
    requires Linked(w) && RemoteChain(remote) && CollisionFree(w, remote)
    requires w != [] && OnChain(Last(w), remote)
    ensures Segment(w, remote)
    decreases |w|
  {
    if |w| > 1 {
      var v := Init(w);
      assert Child(w[|w| - 2], w[|w| - 1]);
      assert Last(v) == w[|w| - 2];
      assert remote[Last(v).number + 1].parentHash == remote[Last(v).number].hash;
      LinkedSegment(v, remote);
      assert v[0] == w[0];
      assert w == v + [Last(w)];
    }
  }

  /** A poll that found nothing new: an empty window then holds the block before the head. */
  ghost predicate Unmoved(w: seq<RemoteBlock>, v: seq<RemoteBlock>, remote: seq<RemoteBlock>) {
    v == if w == [] && 1 < |remote| then [remote[|remote| - 2]] else w
  }

  /** No other remote block has this block's hash. */
  ghost predicate UniqueHash(b: RemoteBlock, remote: seq<RemoteBlock>) {
    forall n :: 0 <= n < |remote| && remote[n].hash == b.hash ==> remote[n] == b
  }

  ghost predicate DistinctHashes(remote: seq<RemoteBlock>) {
    forall n :: 0 <= n < |remote| ==> UniqueHash(remote[n], remote)
  }

  /** The events of a poll after its first `i`: forks up to `j`, then appends up to `k`, then
      removals. */
  ghost predicate InOrder(evs: seq<Event>, i: nat, j: nat, k: nat) {
    && i <= j <= k <= |evs|
    && (forall p :: i <= p < j ==> evs[p].Forked?)
    && (forall p :: j <= p < k ==> evs[p].Appended?)
    && (forall p :: k <= p < |evs| ==> evs[p].Removed?)
  }

  /** Where the loop stands that began with window `all`: its last blocks, from `kept` on, were
      not on the remote chain and are gone; once it has `appended`, the remote chain's blocks
      follow the last of those that stay, which is on that chain. */
  ghost predicate Followed(
    all: seq<RemoteBlock>, w: seq<RemoteBlock>, remote: seq<RemoteBlock>, kept: nat, appended: bool)
  {
    && kept <= |all|
    && (forall i :: kept <= i < |all| ==> !OnChain(all[i], remote))
    && (if appended then
          && 0 < kept && OnChain(all[kept - 1], remote)
          && w != [] && all[kept - 1].number <= Last(w).number < |remote|
          && w == all[..kept] + remote[all[kept - 1].number + 1..Last(w).number + 1]
        else
          w == all[..kept])
  }

  /** The last `n` blocks of the window, and no more, are off the remote chain. */
  ghost predicate ForkedOut(w: seq<RemoteBlock>, remote: seq<RemoteBlock>, n: nat) {
    && n <= |w|
    && (forall i :: |w| - n <= i < |w| ==> !OnChain(w[i], remote))
    && (n < |w| ==> OnChain(w[|w| - n - 1], remote))
  }

  /** A long window has no block below the irreversible number left at its front. */
  predicate Trimmed(w: seq<RemoteBlock>, evmLib: nat) {
    KEPT + SLACK < |w| ==> evmLib <= w[0].number
  }

  class Monitor {
    const genesis: nat
    var reversibleBlocks: seq<RemoteBlock>
    var events: seq<Event>

    constructor (genesis: nat)
      ensures reversibleBlocks == [] && events == [] && this.genesis == genesis
    {
      this.genesis := genesis;
      reversibleBlocks := [];
      events := [];
    }

    method RemoveFrontBlock()
      requires reversibleBlocks != []
      modifies this
      ensures reversibleBlocks == old(reversibleBlocks)[1..]
      ensures events == old(events) + [Removed(old(reversibleBlocks)[0])]
    {
      var b := reversibleBlocks[0];
      reversibleBlocks := reversibleBlocks[1..];
      events := events + [Removed(b)];
    }

    method ForkLastBlock() returns (last: Option<RemoteBlock>)
      requires reversibleBlocks != []
      modifies this
      ensures reversibleBlocks == Init(old(reversibleBlocks))
      ensures events == old(events) + [Forked(Last(old(reversibleBlocks)))]
      ensures last == if reversibleBlocks == [] then None else Some(Last(reversibleBlocks))
    {
      var b := Last(reversibleBlocks);
      reversibleBlocks := Init(reversibleBlocks);
      events := events + [Forked(b)];
      last := if reversibleBlocks == [] then None else Some(Last(reversibleBlocks));
    }

    method AppendNewBlock(b: RemoteBlock)
      modifies this
      ensures reversibleBlocks == old(reversibleBlocks) + [b]
      ensures events == old(events) + [Appended(b)]
    {
      reversibleBlocks := reversibleBlocks + [b];
      events := events + [Appended(b)];
    }

    /** One iteration of the loop: `next` was asked for after the last block. */
    method Round(next: RemoteBlock, ghost w0: seq<RemoteBlock>, ghost before: seq<Event>)
      returns (last: Option<RemoteBlock>, ghost evs: seq<Event>)
      requires reversibleBlocks != [] && next.number == Last(reversibleBlocks).number + 1
      requires ValidEvents(w0, before) && reversibleBlocks == Replay(w0, before)
      modifies this
      ensures evs == before + [RoundEvent(old(reversibleBlocks), next)]
      ensures events == old(events) + [RoundEvent(old(reversibleBlocks), next)]
      ensures ValidEvents(w0, evs) && reversibleBlocks == Replay(w0, evs)
      ensures reversibleBlocks == After(old(reversibleBlocks), RoundEvent(old(reversibleBlocks), next))
      ensures last == if reversibleBlocks == [] then None else Some(Last(reversibleBlocks))
    {
      evs := before + [RoundEvent(reversibleBlocks, next)];
      OneMore(w0, before, RoundEvent(reversibleBlocks, next));
      if next.parentHash == Last(reversibleBlocks).hash {
        AppendNewBlock(next);
        last := Some(next);
      } else {
        last := ForkLastBlock();
      }
    }

    /** The loop of a poll, against a remote chain that does not change meanwhile: it forks
        until its last block is on that chain, and only then appends. */
    method Follow(remote: seq<RemoteBlock>, ghost w0: seq<RemoteBlock>, ghost ev0: seq<Event>, ghost before: seq<Event>)
      returns (ran: bool, ghost evs: seq<Event>, ghost turn: nat)
      requires reversibleBlocks != [] && Linked(w0) && events == ev0 + before
      requires ValidEvents(w0, before) && reversibleBlocks == Replay(w0, before)
      requires RemoteChain(remote) && DistinctHashes(remote) && CollisionFree(reversibleBlocks, remote)
      modifies this
      ensures events == ev0 + evs
      ensures ValidEvents(w0, evs) && reversibleBlocks == Replay(w0, evs) && CollisionFree(reversibleBlocks, remote)
      ensures before <= evs && InOrder(evs, |before|, turn, |evs|)
      ensures ran <==> Last(old(reversibleBlocks)).number + 3 < |remote|
      ensures !ran ==> reversibleBlocks == old(reversibleBlocks) && turn == |before|
      ensures turn - |before| <= |old(reversibleBlocks)|
      ensures ran ==>
        var kept := |old(reversibleBlocks)| - (turn - |before|);
        && Followed(old(reversibleBlocks), reversibleBlocks, remote, kept, 0 < kept)
        && (0 < kept ==> Last(reversibleBlocks).number == |remote| - 3 && OnChain(Last(reversibleBlocks), remote))
    {
      hide ValidEvents, Replay, CollisionFree, DistinctHashes, InOrder, OnChain, Linked, RemoteChain;
      hide GetNextBlock, Followed, RoundEvent, After, ValidEvent;
      NothingYet(before);
      ghost var all := reversibleBlocks;
      ghost var kept: nat := |all|;
      FollowedStart(all, remote);
      evs := before;
      turn := |before|;
      ran := false;
      var last := Some(Last(reversibleBlocks));
      var next := GetNextBlock(remote, last);
      while last.Some? && next.Got?
        invariant last == if reversibleBlocks == [] then None else Some(Last(reversibleBlocks))
        invariant last.Some? ==> next == GetNextBlock(remote, last)
        invariant events == ev0 + evs
        invariant ValidEvents(w0, evs) && reversibleBlocks == Replay(w0, evs)
        invariant CollisionFree(reversibleBlocks, remote)
        invariant before <= evs && InOrder(evs, |before|, turn, |evs|)
        invariant turn == |before| + |all| - kept && kept <= |all| && turn <= |evs|
        invariant Followed(all, reversibleBlocks, remote, kept, turn < |evs|)
        invariant turn < |evs| ==> last.Some? && OnChain(last.value, remote) && last.value.number + 3 <= |remote|
        invariant turn == |evs| && last.Some? && ran ==> last.value.number + 3 < |remote|
        invariant ran ==> Last(all).number + 3 < |remote|
        invariant !ran ==> last.Some? && reversibleBlocks == all && turn == |evs|
        decreases if last.Some? && OnChain(last.value, remote) then 0 else 1 + |reversibleBlocks|,
                  if last.Some? then |remote| - last.value.number else 0
      {
        NextBlock(remote, last.value);
        ReplayLinked(w0, evs);
        RoundFacts(reversibleBlocks, remote, next.block);
        FollowedRound(all, reversibleBlocks, remote, kept, turn < |evs|, next.block);
        ran := true;
        last, evs := Round(next.block, w0, evs);
        OneMorePhase(evs, |before|, turn);
        if Last(evs).Forked? {
          turn := |evs|;
          kept := kept - 1;
        }
        next := GetNextBlock(remote, last);
      }
      if last.Some? { NextBlock(remote, last.value); }
      FollowedEnd(all, reversibleBlocks, remote, kept, turn < |evs|);
    }

    /** Drops blocks below the irreversible number from the front of a long window. */
    method PruneWindow(evmLib: nat, ghost w0: seq<RemoteBlock>, ghost ev0: seq<Event>, ghost before: seq<Event>)
      returns (ghost evs: seq<Event>)
      requires reversibleBlocks != [] && events == ev0 + before
      requires ValidEvents(w0, before) && reversibleBlocks == Replay(w0, before)
      modifies this
      ensures events == ev0 + evs
      ensures ValidEvents(w0, evs) && reversibleBlocks == Replay(w0, evs)
      ensures before <= evs && forall i :: |before| <= i < |evs| ==> evs[i].Removed? && evs[i].block.number < evmLib
      ensures reversibleBlocks != [] && |reversibleBlocks| <= |old(reversibleBlocks)|
      ensures reversibleBlocks == old(reversibleBlocks)[|old(reversibleBlocks)| - |reversibleBlocks|..]
      ensures forall b :: b in old(reversibleBlocks) && b !in reversibleBlocks ==> b.number < evmLib
      ensures KEPT < |old(reversibleBlocks)| ==> KEPT <= |reversibleBlocks|
      ensures KEPT < |reversibleBlocks| ==> evmLib <= reversibleBlocks[0].number
    {
      hide ValidEvents, Replay;
      evs := before;
      ghost var all := reversibleBlocks;
      while |reversibleBlocks| > KEPT && reversibleBlocks[0].number < evmLib
        invariant reversibleBlocks != [] && |reversibleBlocks| <= |all|
        invariant reversibleBlocks == all[|all| - |reversibleBlocks|..]
        invariant forall i :: 0 <= i < |all| - |reversibleBlocks| ==> all[i].number < evmLib
        invariant events == ev0 + evs && before <= evs
        invariant forall i :: |before| <= i < |evs| ==> evs[i].Removed? && evs[i].block.number < evmLib
        invariant ValidEvents(w0, evs) && reversibleBlocks == Replay(w0, evs)
        invariant KEPT < |all| ==> KEPT <= |reversibleBlocks|
      {
        OneMore(w0, evs, Removed(reversibleBlocks[0]));
        evs := evs + [Removed(reversibleBlocks[0])];
        RemoveFrontBlock();
      }
    }

    /** Shortens a window that has become long, if the irreversible number is known. */
    method Trim(remote: seq<RemoteBlock>, libTime: Option<nat>, ghost w0: seq<RemoteBlock>, ghost ev0: seq<Event>,
      ghost before: seq<Event>, ghost first: nat, ghost turn: nat)
      returns (ghost evs: seq<Event>)
      requires reversibleBlocks != [] && events == ev0 + before
      requires ValidEvents(w0, before) && reversibleBlocks == Replay(w0, before) && Linked(w0)
      requires InOrder(before, first, turn, |before|) && RemoteChain(remote) && Segment(reversibleBlocks, remote)
      modifies this
      ensures events == ev0 + evs && Linked(reversibleBlocks)
      ensures ValidEvents(w0, evs) && reversibleBlocks == Replay(w0, evs)
      ensures before <= evs && InOrder(evs, first, turn, |before|)
      ensures |before| < |evs| ==> libTime.Some?
      ensures forall i :: |before| <= i < |evs| ==>
        evs[i].block.number < TimestampToEvmBlockNum(genesis, libTime.value)
      ensures reversibleBlocks != [] && Segment(reversibleBlocks, remote)
      ensures Last(reversibleBlocks) == Last(old(reversibleBlocks))
      ensures libTime.Some? ==> Trimmed(reversibleBlocks, TimestampToEvmBlockNum(genesis, libTime.value))
    {
      hide ValidEvents, Replay, TimestampToEvmBlockNum, InOrder, Linked, RemoteChain, Segment;
      evs := before;
      ReplayLinked(w0, evs);
      if |reversibleBlocks| > KEPT + SLACK && libTime.Some? {
        ghost var all := reversibleBlocks;
        evs := PruneWindow(TimestampToEvmBlockNum(genesis, libTime.value), w0, ev0, before);
        ReplayLinked(w0, evs);
        RemovalsLast(before, evs, first, turn);
        SegmentSuffix(all, reversibleBlocks, remote);
      }
    }

    /** An empty window takes the block before the head, if there is one. */
    method Begin(remote: seq<RemoteBlock>) returns (ok: bool, ghost evs: seq<Event>)
      requires CollisionFree(reversibleBlocks, remote) && DistinctHashes(remote)
      modifies this
      ensures events == old(events) + evs && CollisionFree(reversibleBlocks, remote)
      ensures ValidEvents(old(reversibleBlocks), evs) && reversibleBlocks == Replay(old(reversibleBlocks), evs)
      ensures ok <==> reversibleBlocks != []
      ensures old(reversibleBlocks) == [] ==> (ok <==> 1 < |remote|)
      ensures old(reversibleBlocks) != [] || !ok ==> evs == [] && reversibleBlocks == old(reversibleBlocks)
      ensures old(reversibleBlocks) == [] && ok ==>
        1 < |remote| && reversibleBlocks == [remote[|remote| - 2]] && evs == [Appended(remote[|remote| - 2])]
    {
      NoEvents(reversibleBlocks);
      evs := [];
      if reversibleBlocks != [] {
        return true, [];
      }
      var reply := GetNextBlock(remote, None);
      if !reply.Got? {
        return false, [];
      }
      OneMore(reversibleBlocks, evs, Appended(reply.block));
      evs := evs + [Appended(reply.block)];
      AppendNewBlock(reply.block);
      FirstCollisionFree(reply.block, remote);
      ok := true;
    }

    /** One poll of a remote chain that does not change meanwhile.  The loop ends; if it ran,
        the window is empty or a piece of the remote chain that ends two below its head; if it
        did not, the window is as before, or holds the block before the head if it was empty.
        Its events come in this order: the block an empty window starts with, forks, appends,
        removals of blocks below the last irreversible EVM number.  `libTime` is the reply to the
        request for the time of the last irreversible native block. */
    method Poll(remote: seq<RemoteBlock>, libTime: Option<nat>)
      returns (ran: bool, ghost evs: seq<Event>, ghost first: nat, ghost turn: nat, ghost end: nat)
      requires Linked(reversibleBlocks) && RemoteChain(remote) && DistinctHashes(remote)
      requires CollisionFree(reversibleBlocks, remote)
      modifies this
      ensures events == old(events) + evs
      ensures ValidEvents(old(reversibleBlocks), evs) && reversibleBlocks == Replay(old(reversibleBlocks), evs)
      ensures InOrder(evs, first, turn, end)
      ensures first <= 1 && (first == 1 ==> old(reversibleBlocks) == [] && evs[0].Appended?)
      ensures end < |evs| ==> libTime.Some?
      ensures forall i :: end <= i < |evs| ==>
        evs[i].block.number < TimestampToEvmBlockNum(genesis, libTime.value)
      ensures Linked(reversibleBlocks)
      ensures ran && reversibleBlocks != [] ==>
        Segment(reversibleBlocks, remote) && Last(reversibleBlocks).number == |remote| - 3
      ensures ran <==> old(reversibleBlocks) != [] && Last(old(reversibleBlocks)).number + 3 < |remote|
      ensures !ran ==> Unmoved(old(reversibleBlocks), reversibleBlocks, remote)
      ensures ran ==> ForkedOut(old(reversibleBlocks), remote, turn)
      ensures ran ==> (reversibleBlocks == [] <==> turn == |old(reversibleBlocks)|)
      ensures ran && reversibleBlocks != [] && libTime.Some? ==>
        Trimmed(reversibleBlocks, TimestampToEvmBlockNum(genesis, libTime.value))
    {
      hide ValidEvents, Replay, CollisionFree, DistinctHashes, Segment, OnChain, InOrder, Linked, RemoteChain;
      ghost var w0 := reversibleBlocks;
      ran, first, turn, end := false, 0, 0, 0;
      var ok: bool;
      ok, evs := Begin(remote);
      NothingYet(evs);
      if !ok {
        return;
      }
      first := |evs|;
      if 0 < first { SecondLast(remote); }
      ran, evs, turn := Follow(remote, w0, old(events), evs);
      end := |evs|;
      ReplayLinked(w0, evs);
      if ran && reversibleBlocks != [] {
        LinkedSegment(reversibleBlocks, remote);
        evs := Trim(remote, libTime, w0, old(events), evs, first, turn);
      }
    }
  }

  lemma NothingYet(evs: seq<Event>)
    ensures InOrder(evs, |evs|, |evs|, |evs|) && InOrder([], 0, 0, 0)
  {
  }

  /** One more fork while nothing was appended, or one more append. */
  lemma OneMorePhase(evs: seq<Event>, i: nat, j: nat)
    requires evs != [] && InOrder(Init(evs), i, j, |evs| - 1) && !Last(evs).Removed?
    requires Last(evs).Forked? ==> j == |evs| - 1
    ensures InOrder(evs, i, if Last(evs).Forked? then |evs| else j, |evs|)
  {
    assert forall p :: 0 <= p < |evs| - 1 ==> evs[p] == Init(evs)[p];
  }

  lemma RemovalsLast(evs: seq<Event>, more: seq<Event>, i: nat, j: nat)
    requires InOrder(evs, i, j, |evs|) && evs <= more && forall p :: |evs| <= p < |more| ==> more[p].Removed?
    ensures InOrder(more, i, j, |evs|)
  {
    assert forall p :: 0 <= p < |evs| ==> more[p] == evs[p];
  }

  /** Which block is asked for after `b`, and from where on there is none. */
  lemma NextBlock(remote: seq<RemoteBlock>, b: RemoteBlock)
    ensures var r := GetNextBlock(remote, Some(b));
      && (r.Got? <==> b.number + 3 < |remote|)
      && (r.Got? ==> r.block == remote[b.number + 1])
  {
  }

  /** One round against a chain that stays put: a last block on the chain gets its successor
      appended, any other is forked out. */
  lemma RoundFacts(w: seq<RemoteBlock>, remote: seq<RemoteBlock>, next: RemoteBlock)
    requires w != [] && Linked(w) && RemoteChain(remote) && CollisionFree(w, remote) && DistinctHashes(remote)
    requires Last(w).number + 3 < |remote| && next == remote[Last(w).number + 1]
    ensures var ev := RoundEvent(w, next); var v := After(w, ev);
      && next.number == Last(w).number + 1
      && CollisionFree(v, remote)
      && (if OnChain(Last(w), remote) then ev == Appended(next) && v == w + [next] && OnChain(next, remote)
          else ev == Forked(Last(w)) && v == Init(w))
      && (v != [] && !OnChain(Last(w), remote) ==> Last(v).number + 1 == Last(w).number)
  {
    hide CollisionFree, DistinctHashes;
    ParentOnChain(w, remote, next);
    assert remote[Last(w).number + 1].number == Last(w).number + 1;
    RoundCollisionFree(w, remote, next);
    if |w| > 1 { assert Child(w[|w| - 2], w[|w| - 1]); }
  }

  lemma FollowedStart(all: seq<RemoteBlock>, remote: seq<RemoteBlock>)
    ensures Followed(all, all, remote, |all|, false)
  {
  }

  /** One round more: a fork while nothing was appended, or an append. */
  lemma FollowedRound(
    all: seq<RemoteBlock>, w: seq<RemoteBlock>, remote: seq<RemoteBlock>, kept: nat, appended: bool, next: RemoteBlock)
    requires Followed(all, w, remote, kept, appended) && w != []
    requires Last(w).number + 1 < |remote| && next == remote[Last(w).number + 1] && next.number == Last(w).number + 1
    requires appended ==> OnChain(Last(w), remote)
    ensures OnChain(Last(w), remote) ==> Followed(all, w + [next], remote, kept, true)
    ensures !OnChain(Last(w), remote) ==> 0 < kept && Followed(all, Init(w), remote, kept - 1, false)
  {
    if OnChain(Last(w), remote) {
      if !appended {
        assert Last(w) == all[kept - 1];
        assert remote[all[kept - 1].number + 1..next.number + 1] == [next];
      } else {
        assert remote[all[kept - 1].number + 1..next.number + 1] ==
          remote[all[kept - 1].number + 1..Last(w).number + 1] + [next];
      }
    } else {
      assert Last(w) == all[kept - 1] && Init(w) == all[..kept - 1];
    }
  }

  lemma FollowedEnd(all: seq<RemoteBlock>, w: seq<RemoteBlock>, remote: seq<RemoteBlock>, kept: nat, appended: bool)
    requires Followed(all, w, remote, kept, appended)
    ensures kept == 0 ==> w == [] && !appended
    ensures !appended ==> |w| == kept
    ensures ForkedOut(all, remote, |all| - kept) || !appended
  {
  }

  lemma SecondLast(remote: seq<RemoteBlock>)
    requires RemoteChain(remote) && 1 < |remote|
    ensures remote[|remote| - 2].number == |remote| - 2
  {
  }

  lemma NoEvents(w: seq<RemoteBlock>)
    ensures ValidEvents(w, []) && Replay(w, []) == w
  {
  }

  lemma FirstCollisionFree(b: RemoteBlock, remote: seq<RemoteBlock>)
    requires DistinctHashes(remote) && b in remote
    ensures CollisionFree([b], remote)
  {
    var n :| 0 <= n < |remote| && remote[n] == b;
    assert UniqueHash(remote[n], remote);
  }

  lemma OneMore(w: seq<RemoteBlock>, evs: seq<Event>, ev: Event)
    requires ValidEvents(w, evs) && ValidEvent(Replay(w, evs), ev)
    ensures ValidEvents(w, evs + [ev]) && Replay(w, evs + [ev]) == After(Replay(w, evs), ev)
  {
    assert Init(evs + [ev]) == evs && Last(evs + [ev]) == ev;
  }

  /** The block received extends the window exactly if the last block is on the remote chain. */
  lemma ParentOnChain(w: seq<RemoteBlock>, remote: seq<RemoteBlock>, next: RemoteBlock)
    requires w != [] && RemoteChain(remote) && CollisionFree(w, remote)
    requires Last(w).number + 1 < |remote| && next == remote[Last(w).number + 1]
    ensures next.parentHash == Last(w).hash <==> OnChain(Last(w), remote)
    ensures OnChain(next, remote)
  {
    var n := Last(w).number;
    assert remote[n + 1].parentHash == remote[n].hash;
    assert w[|w| - 1] == Last(w);
  }

  lemma RoundCollisionFree(w: seq<RemoteBlock>, remote: seq<RemoteBlock>, next: RemoteBlock)
    requires w != [] && next.number == Last(w).number + 1 && CollisionFree(w, remote)
    requires next in remote && DistinctHashes(remote)
    ensures CollisionFree(After(w, RoundEvent(w, next)), remote)
  {
    var v := After(w, RoundEvent(w, next));
    assert UniqueHash(next, remote);
    forall i, n | 0 <= i < |v| && 0 <= n < |remote| && v[i].hash == remote[n].hash
      ensures v[i] == remote[n]
    {
      if i < |w| { assert v[i] == w[i]; }
    }
  }

  lemma SegmentSuffix(w: seq<RemoteBlock>, v: seq<RemoteBlock>, remote: seq<RemoteBlock>)
    requires v != [] && |v| <= |w| && v == w[|w| - |v|..] && Segment(w, remote) && RemoteChain(remote)
    ensures Segment(v, remote) && Last(v) == Last(w)
  {
    assert v[0] == w[|w| - |v|] == remote[w[0].number + |w| - |v|];
  }
}
