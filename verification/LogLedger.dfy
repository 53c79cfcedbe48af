/** The log ledger against a reference that keeps, with every block of the monitor's window,
    the messages delivered for it. */
module LogLedger {
  import opened Types
  import opened Seqs
  import opened BlockMonitor
  import opened SubscriptionServer

  // ----- reference: messages travel with their block -----

  /** A block of the window, numbered by the order of its arrival, with what was delivered. */
  datatype Live = Live(inst: nat, block: RemoteBlock, sent: seq<Sent>)

  /** A message, with the arrival number of the block it belongs to. */
  datatype Tagged = Tagged(inst: nat, out: Out)

  datatype Ref = Ref(live: seq<Live>, next: nat, forked: set<nat>, wire: seq<Tagged>)

  function Tag(inst: nat, outs: seq<Out>): seq<Tagged> {
    seq(|outs|, i requires 0 <= i < |outs| => Tagged(inst, outs[i]))
  }

  function Untag(wire: seq<Tagged>): seq<Out> {
    seq(|wire|, i requires 0 <= i < |wire| => wire[i].out)
  }

  function Blocks(live: seq<Live>): seq<RemoteBlock> {
    seq(|live|, i requires 0 <= i < |live| => live[i].block)
  }

  /** Append pushes a block with its deliveries, fork pops the last one and retracts exactly
      its deliveries, removal forgets the first one. */
  function RefEvent(matches: Match, subs: seq<Sub>, r: Ref, ev: Event): Ref {
    match ev
    case Appended(b) =>
      var sent := SentForAll(matches, subs, b.logs);
      r.(live := r.live + [Live(r.next, b, sent)], next := r.next + 1, wire := r.wire + Tag(r.next, Outs(false, sent)))
    case Forked(_) =>
      if r.live == [] then r
      else
        var l := Last(r.live);
        r.(live := Init(r.live), forked := r.forked + {l.inst}, wire := r.wire + Tag(l.inst, Outs(true, l.sent)))
    case Removed(_) =>
      if r.live == [] then r else r.(live := r.live[1..])
  }

  // ----- runs -----

  /** A monitor event, or any change of the subscriptions: a subscribe, an unsubscribe or a
      disconnect. */
  datatype Act = Monitor(event: Event) | Subscriptions(subs: seq<Sub>)

  /** The monitor's events in a run. */
  function Events(acts: seq<Act>): seq<Event> {
    if acts == [] then []
    else match Last(acts)
      case Monitor(ev) => Events(Init(acts)) + [ev]
      case Subscriptions(_) => Events(Init(acts))
  }

  function ServerRun(matches: Match, s: Server, acts: seq<Act>): Server {
    if acts == [] then s
    else
      var t := ServerRun(matches, s, Init(acts));
      match Last(acts)
      case Monitor(ev) => OnEvent(matches, t, ev)
      case Subscriptions(subs) => t.(subs := subs)
  }

  function SubsAfter(subs: seq<Sub>, acts: seq<Act>): seq<Sub> {
    if acts == [] then subs
    else match Last(acts)
      case Monitor(_) => SubsAfter(subs, Init(acts))
      case Subscriptions(more) => more
  }

  function RefRun(matches: Match, subs: seq<Sub>, r: Ref, acts: seq<Act>): Ref {
    if acts == [] then r
    else
      var t := RefRun(matches, subs, r, Init(acts));
      match Last(acts)
      case Monitor(ev) => RefEvent(matches, SubsAfter(subs, Init(acts)), t, ev)
      case Subscriptions(_) => t
  }

  // ----- the ledger is the reference, keyed by number -----

  function LedgerOf(live: seq<Live>): map<nat, seq<Sent>> {
    if live == [] then map[] else Save(LedgerOf(Init(live)), Last(live).block.number, Last(live).sent)
  }

  ghost predicate Rising(live: seq<Live>) {
    forall i, j :: 0 <= i < j < |live| ==> live[i].block.number < live[j].block.number
  }

  lemma {:induction false} LinkedRising(w: seq<RemoteBlock>, i: nat, j: nat)
    requires Linked(w) && i < j < |w|
    ensures w[i].number < w[j].number
    decreases j
  {
    assert Child(w[j - 1], w[j]);
    if i < j - 1 { LinkedRising(w, i, j - 1); }
  }

  ghost predicate HasNumber(live: seq<Live>, n: nat) {
    exists i :: 0 <= i < |live| && live[i].block.number == n
  }

  /** Keys of the ledger are numbers of window blocks, and no entry is empty. */
  lemma {:induction false} LedgerKeys(live: seq<Live>, n: nat)
    requires n in LedgerOf(live)
    ensures HasNumber(live, n) && LedgerOf(live)[n] != []
    decreases |live|
  {
    if n == Last(live).block.number {
      assert live[|live| - 1].block.number == n;
      if Last(live).sent == [] { LedgerKeys(Init(live), n); }
    } else {
      LedgerKeys(Init(live), n);
      var i :| 0 <= i < |Init(live)| && Init(live)[i].block.number == n;
      assert live[i].block.number == n;
    }
  }

  /** Entry `n` of the ledger: the deliveries of the window's block `n`, if there are any. */
  lemma {:induction false} LedgerEntry(live: seq<Live>, i: nat)
    requires Rising(live) && i < |live|
    ensures Entry(LedgerOf(live), live[i].block.number) == live[i].sent
    decreases |live|
  {
    var rest, l := Init(live), Last(live);
    assert l == live[|live| - 1];
    NotYetKeyed(live);
    if i == |live| - 1 {
      SaveThenDrop(LedgerOf(rest), l.block.number, l.sent);
    } else {
      LedgerEntry(rest, i);
    }
  }

  lemma {:induction false} NotYetKeyed(live: seq<Live>)
    requires Rising(live) && live != []
    ensures Last(live).block.number !in LedgerOf(Init(live))
  {
    hide LedgerOf;
    var rest, n := Init(live), Last(live).block.number;
    if n in LedgerOf(rest) {
      LedgerKeys(rest, n);
    }
  }

  lemma {:induction false} LedgerForks(live: seq<Live>)
    requires Rising(live) && live != []
    ensures LedgerOf(live) - {Last(live).block.number} == LedgerOf(Init(live))
    ensures Entry(LedgerOf(live), Last(live).block.number) == Last(live).sent
  {
    NotYetKeyed(live);
    SaveThenDrop(LedgerOf(Init(live)), Last(live).block.number, Last(live).sent);
  }

  lemma SaveThenDrop(ledger: map<nat, seq<Sent>>, n: nat, sent: seq<Sent>)
    requires n !in ledger
    ensures Save(ledger, n, sent) - {n} == ledger && Entry(Save(ledger, n, sent), n) == sent
  {
    assert [] + sent == sent;
  }

  lemma SaveDropOther(ledger: map<nat, seq<Sent>>, n: nat, m: nat, sent: seq<Sent>)
    requires n != m
    ensures Save(ledger, n, sent) - {m} == Save(ledger - {m}, n, sent)
  {
  }

  lemma {:induction false} LedgerRemoves(live: seq<Live>)
    requires Rising(live) && live != []
    ensures LedgerOf(live) - {live[0].block.number} == LedgerOf(live[1..])
    decreases |live|
  {
    if |live| == 1 {
      LedgerForks(live);
      assert Last(live) == live[0] && Init(live) == [] == live[1..];
    } else {
      LedgerRemoves(Init(live));
      assert Init(live)[1..] == Init(live[1..]) && Init(live)[0] == live[0];
      assert Last(live) == live[|live| - 1] == Last(live[1..]);
      SaveDropOther(LedgerOf(Init(live)), Last(live).block.number, live[0].block.number, Last(live).sent);
    }
  }

  /** The server's ledger and wire are the reference's, with arrival numbers left out, and
      the reference's live blocks are the monitor's window. */
  ghost predicate Agree(s: Server, r: Ref, w: seq<RemoteBlock>) {
    && s.ledger == LedgerOf(r.live) && s.wire == Untag(r.wire)
    && Blocks(r.live) == w && Linked(w)
  }

  lemma BlocksRising(live: seq<Live>)
    requires Linked(Blocks(live))
    ensures Rising(live)
  {
    forall i, j | 0 <= i < j < |live|
      ensures live[i].block.number < live[j].block.number
    {
      LinkedRising(Blocks(live), i, j);
    }
  }

  lemma {:induction false} AppendAgrees(matches: Match, s: Server, r: Ref, w: seq<RemoteBlock>, b: RemoteBlock)
    requires Agree(s, r, w) && Linked(w + [b])
    ensures Agree(OnEvent(matches, s, Appended(b)), RefEvent(matches, s.subs, r, Appended(b)), w + [b])
  {
    hide SentForAll, Linked;
    var sent := SentForAll(matches, s.subs, b.logs);
    var l := Live(r.next, b, sent);
    assert Init(r.live + [l]) == r.live && Last(r.live + [l]) == l;
    UntagMore(r.wire, r.next, Outs(false, sent));
    assert Blocks(r.live + [l]) == Blocks(r.live) + [b];
  }

  lemma UntagMore(wire: seq<Tagged>, inst: nat, outs: seq<Out>)
    ensures Untag(wire + Tag(inst, outs)) == Untag(wire) + outs
  {
  }

  lemma {:induction false} ForkAgrees(matches: Match, s: Server, r: Ref, w: seq<RemoteBlock>, ev: Event)
    requires Agree(s, r, w) && ev.Forked? && ValidEvent(w, ev) && Linked(Init(w))
    ensures Agree(OnEvent(matches, s, ev), RefEvent(matches, s.subs, r, ev), Init(w))
  {
    hide LedgerOf;
    var l := Last(r.live);
    BlocksRising(r.live);
    assert l.block == Blocks(r.live)[|r.live| - 1] == ev.block;
    LedgerForks(r.live);
    UntagMore(r.wire, l.inst, Outs(true, l.sent));
    assert Blocks(Init(r.live)) == Init(w);
  }

  lemma {:induction false} RemoveAgrees(matches: Match, s: Server, r: Ref, w: seq<RemoteBlock>, ev: Event)
    requires Agree(s, r, w) && ev.Removed? && ValidEvent(w, ev) && Linked(w[1..])
    ensures Agree(OnEvent(matches, s, ev), RefEvent(matches, s.subs, r, ev), w[1..])
  {
    hide LedgerOf;
    BlocksRising(r.live);
    assert r.live[0].block == Blocks(r.live)[0] == ev.block;
    LedgerRemoves(r.live);
    assert Blocks(r.live[1..]) == w[1..];
  }

  lemma {:induction false} EventAgrees(matches: Match, s: Server, r: Ref, w: seq<RemoteBlock>, ev: Event)
    requires Agree(s, r, w) && ValidEvent(w, ev) && Linked(After(w, ev))
    ensures Agree(OnEvent(matches, s, ev), RefEvent(matches, s.subs, r, ev), After(w, ev))
  {
    hide LedgerOf, SentForAll, Linked, ValidEvent;
    match ev
    case Appended(b) => AppendAgrees(matches, s, r, w, b);
    case Forked(_) => ForkAgrees(matches, s, r, w, ev);
    case Removed(_) => RemoveAgrees(matches, s, r, w, ev);
  }

  // ----- delivered and retracted, block by block -----

  /** The deliveries, or the retractions, of the block with this arrival number. */
  function Of(wire: seq<Tagged>, inst: nat, removed: bool): seq<Sent> {
    if wire == [] then []
    else
      var r, t := Of(Init(wire), inst, removed), Last(wire);
      if t.inst == inst && t.out.removed == removed then r + [t.out.sent] else r
  }

  lemma OfLast(wire: seq<Tagged>, t: Tagged, inst: nat, which: bool)
    ensures Of(wire + [t], inst, which) ==
      Of(wire, inst, which) + (if t.inst == inst && t.out.removed == which then [t.out.sent] else [])
  {
    assert Init(wire + [t]) == wire && Last(wire + [t]) == t;
  }

  lemma {:induction false} OfAppend(wire: seq<Tagged>, tag: nat, removed: bool, sent: seq<Sent>, inst: nat, which: bool)
    ensures Of(wire + Tag(tag, Outs(removed, sent)), inst, which) ==
      Of(wire, inst, which) + (if tag == inst && removed == which then sent else [])
    decreases |sent|
  {
    hide Of;
    var more := Tag(tag, Outs(removed, sent));
    if sent == [] {
      assert wire + more == wire;
    } else {
      var less, t := Tag(tag, Outs(removed, Init(sent))), Tagged(tag, Out(removed, Last(sent)));
      OfAppend(wire, tag, removed, Init(sent), inst, which);
      OfLast(wire + less, t, inst, which);
      assert wire + more == wire + less + [t];
      assert Of(wire, inst, which) + Init(sent) + [Last(sent)] == Of(wire, inst, which) + sent;
    }
  }

  ghost predicate FreshTags(r: Ref) {
    && (forall i :: 0 <= i < |r.live| ==> r.live[i].inst < r.next)
    && (forall i, j :: 0 <= i < j < |r.live| ==> r.live[i].inst < r.live[j].inst)
    && (forall k :: k in r.forked ==> k < r.next)
    && (forall k, which :: r.next <= k ==> Of(r.wire, k, which) == [])
  }

  /** Every block that ever arrived: while it is live its deliveries are at hand and none is
      retracted; once it forked out each of its deliveries is retracted once, in order; and
      nothing else is ever retracted. */
  ghost predicate Exact(r: Ref) {
    && (forall i :: 0 <= i < |r.live| ==>
          r.live[i].inst !in r.forked && Of(r.wire, r.live[i].inst, false) == r.live[i].sent)
    && (forall k: nat :: Of(r.wire, k, true) == if k in r.forked then Of(r.wire, k, false) else [])
  }

  /** `more` messages of one kind were added for block `tag`, and nothing else. */
  ghost predicate WireGrows(r: Ref, q: Ref, tag: nat, removed: bool, more: seq<Sent>) {
    forall k: nat, which: bool ::
      Of(q.wire, k, which) == if k == tag && which == removed then Of(r.wire, k, which) + more else Of(r.wire, k, which)
  }

  lemma {:induction false} WireAppend(r: Ref, q: Ref, tag: nat, removed: bool, more: seq<Sent>)
    requires q.wire == r.wire + Tag(tag, Outs(removed, more))
    ensures WireGrows(r, q, tag, removed, more)
  {
    hide Of;
    forall k: nat, which: bool
      ensures Of(q.wire, k, which) ==
        if k == tag && which == removed then Of(r.wire, k, which) + more else Of(r.wire, k, which)
    {
      OfAppend(r.wire, tag, removed, more, k, which);
    }
  }

  lemma {:induction false} AppendExact(r: Ref, q: Ref, b: RemoteBlock, sent: seq<Sent>)
    requires FreshTags(r) && Exact(r)
    requires q.live == r.live + [Live(r.next, b, sent)] && q.next == r.next + 1 && q.forked == r.forked
    requires WireGrows(r, q, r.next, false, sent)
    ensures FreshTags(q) && Exact(q)
  {
    hide Of;
    assert Of(r.wire, r.next, false) + sent == sent;
  }

  lemma {:induction false} ForkExact(r: Ref, q: Ref)
    requires FreshTags(r) && Exact(r) && r.live != []
    requires q.live == Init(r.live) && q.next == r.next && q.forked == r.forked + {Last(r.live).inst}
    requires WireGrows(r, q, Last(r.live).inst, true, Last(r.live).sent)
    ensures FreshTags(q) && Exact(q)
  {
    hide Of;
    var l := r.live[|r.live| - 1];
    assert l.inst !in r.forked && Of(r.wire, l.inst, false) == l.sent;
    assert Of(r.wire, l.inst, true) + l.sent == l.sent;
  }

  lemma {:induction false} EventExact(matches: Match, subs: seq<Sub>, r: Ref, ev: Event)
    requires FreshTags(r) && Exact(r)
    ensures FreshTags(RefEvent(matches, subs, r, ev)) && Exact(RefEvent(matches, subs, r, ev))
  {
    hide Of, WireGrows, SentForAll;
    var q := RefEvent(matches, subs, r, ev);
    match ev
    case Appended(b) =>
      WireAppend(r, q, r.next, false, SentForAll(matches, subs, b.logs));
      AppendExact(r, q, b, SentForAll(matches, subs, b.logs));
    case Forked(_) =>
      if r.live != [] {
        WireAppend(r, q, Last(r.live).inst, true, Last(r.live).sent);
        ForkExact(r, q);
      }
    case Removed(_) =>
  }

  // ----- the theorem -----

  const START := Ref([], 0, {}, [])

  /** Whatever the monitor does to its window and whatever subscribes and unsubscribes in
      between: what the server sends and remembers is what the reference does, where every
      block's deliveries are retracted once if it forks out and never otherwise. */
  lemma {:induction false} LedgerExact(matches: Match, subs: seq<Sub>, acts: seq<Act>)
    requires ValidEvents([], Events(acts))
    ensures var s, r := ServerRun(matches, Server(subs, map[], []), acts), RefRun(matches, subs, START, acts);
      && Agree(s, r, Replay([], Events(acts))) && s.subs == SubsAfter(subs, acts)
      && FreshTags(r) && Exact(r)
    decreases |acts|
  {
    if acts != [] {
      if Last(acts).Monitor? {
        var ev := Last(acts).event;
        assert Init(Events(acts)) == Events(Init(acts)) && Last(Events(acts)) == ev;
        LedgerExact(matches, subs, Init(acts));
        ReplayLinked([], Events(acts));
        var s := ServerRun(matches, Server(subs, map[], []), Init(acts));
        var r := RefRun(matches, subs, START, Init(acts));
        EventAgrees(matches, s, r, Replay([], Events(Init(acts))), ev);
        EventExact(matches, s.subs, r, ev);
      } else {
        LedgerExact(matches, subs, Init(acts));
      }
    }
  }

  /** In particular an entry of the ledger holds exactly the messages delivered for the
      window's current block of that number, and there is none without such a block. */
  lemma {:induction false} LedgerMeansDelivered(matches: Match, subs: seq<Sub>, acts: seq<Act>, n: nat)
    requires ValidEvents([], Events(acts))
    ensures var s, r := ServerRun(matches, Server(subs, map[], []), acts), RefRun(matches, subs, START, acts);
      && |Replay([], Events(acts))| == |r.live|
      && (n in s.ledger ==> HasNumber(r.live, n))
      && (forall i :: 0 <= i < |r.live| && r.live[i].block.number == n ==>
            && r.live[i].block == Replay([], Events(acts))[i]
            && Entry(s.ledger, n) == r.live[i].sent == Of(r.wire, r.live[i].inst, false)
            && Of(r.wire, r.live[i].inst, true) == [])
  {
    hide Exact, FreshTags, Of;
    LedgerExact(matches, subs, acts);
    var s, r := ServerRun(matches, Server(subs, map[], []), acts), RefRun(matches, subs, START, acts);
    BlocksRising(r.live);
    if n in s.ledger { LedgerKeys(r.live, n); }
    forall i | 0 <= i < |r.live| && r.live[i].block.number == n
      ensures r.live[i].block == Replay([], Events(acts))[i]
      ensures Entry(s.ledger, n) == r.live[i].sent == Of(r.wire, r.live[i].inst, false)
      ensures Of(r.wire, r.live[i].inst, true) == []
    {
      LedgerEntry(r.live, i);
      LiveExact(r, i);
      assert Blocks(r.live)[i] == r.live[i].block;
    }
  }

  lemma LiveExact(r: Ref, i: nat)
    requires Exact(r) && i < |r.live|
    ensures Of(r.wire, r.live[i].inst, false) == r.live[i].sent && Of(r.wire, r.live[i].inst, true) == []
  {
  }
}
