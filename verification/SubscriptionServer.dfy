/** The websocket proxy's subscription server: it sends log messages, remembers them by block
    number, and retracts them when their block forks out. */
module SubscriptionServer {
  import opened Types
  import opened Seqs
  import opened BlockMonitor

  /** One subscription; `filter` is only ever handed to the match function. */
  datatype Sub = Sub(id: nat, ws: nat, filter: nat)

  /** A log message for one subscription of one connection. */
  datatype Sent = Sent(ws: nat, sub: nat, log: Log)

  /** A message as it leaves the server: a delivery, or the same marked as removed. */
  datatype Out = Out(removed: bool, sent: Sent)

  type Match = (nat, Log) -> bool

  datatype Server = Server(subs: seq<Sub>, ledger: map<nat, seq<Sent>>, wire: seq<Out>)

  // ----- what the handlers compute -----

  function SentFor(matches: Match, subs: seq<Sub>, log: Log): seq<Sent> {
    if subs == [] then []
    else
      var r := SentFor(matches, Init(subs), log);
      if matches(Last(subs).filter, log) then r + [Sent(Last(subs).ws, Last(subs).id, log)] else r
  }

  /** Messages for the logs of a block, log by log, then subscription by subscription. */
  function SentForAll(matches: Match, subs: seq<Sub>, logs: seq<Log>): seq<Sent> {
    if logs == [] then [] else SentForAll(matches, subs, Init(logs)) + SentFor(matches, subs, Last(logs))
  }

  function Outs(removed: bool, sent: seq<Sent>): seq<Out> {
    seq(|sent|, i requires 0 <= i < |sent| => Out(removed, sent[i]))
  }

  function Entry(ledger: map<nat, seq<Sent>>, n: nat): seq<Sent> {
    if n in ledger then ledger[n] else []
  }

  function Save(ledger: map<nat, seq<Sent>>, n: nat, more: seq<Sent>): map<nat, seq<Sent>> {
    if more == [] then ledger else ledger[n := Entry(ledger, n) + more]
  }

  function OnEvent(matches: Match, s: Server, ev: Event): Server {
    match ev
    case Appended(b) =>
      var sent := SentForAll(matches, s.subs, b.logs);
      s.(ledger := Save(s.ledger, b.number, sent), wire := s.wire + Outs(false, sent))
    case Forked(b) =>
      s.(ledger := s.ledger - {b.number}, wire := s.wire + Outs(true, Entry(s.ledger, b.number)))
    case Removed(b) =>
      s.(ledger := s.ledger - {b.number})
  }

  // ----- the server -----

  /** What is left of `subs` when only those that satisfy `keep` stay, in their order: `pos` are
      the positions that stay, rising and complete. */
  ghost predicate KeptAt(subs: seq<Sub>, left: seq<Sub>, keep: Sub -> bool, pos: seq<nat>) {
    && |pos| == |left|
    && (forall i, j :: 0 <= i < j < |pos| ==> pos[i] < pos[j])
    && (forall i :: 0 <= i < |pos| ==> pos[i] < |subs| && left[i] == subs[pos[i]])
    && (forall i :: 0 <= i < |subs| ==> (keep(subs[i]) <==> i in pos))
  }

  ghost predicate Keeps(subs: seq<Sub>, left: seq<Sub>, keep: Sub -> bool) {
    exists pos :: KeptAt(subs, left, keep, pos)
  }

  /** Deleting while walking over the map. */
  method Filter(subs: seq<Sub>, keep: Sub -> bool) returns (left: seq<Sub>)
    ensures Keeps(subs, left, keep) && |left| <= |subs|
  {
    left := [];
    ghost var pos: seq<nat> := [];
    var i := 0;
    while i < |subs|
      invariant |left| <= i <= |subs| && KeptAt(subs[..i], left, keep, pos)
    {
      ghost var p, l, d := pos, left, subs[..i];
      if keep(subs[i]) {
        left := left + [subs[i]];
        pos := pos + [i];
      }
      KeptMore(d, subs[i], l, keep, p);
      assert subs[..i + 1] == d + [subs[i]];
      i := i + 1;
    }
    assert subs[..i] == subs;
  }

  lemma KeptMore(subs: seq<Sub>, s: Sub, left: seq<Sub>, keep: Sub -> bool, pos: seq<nat>)
    requires KeptAt(subs, left, keep, pos)
    ensures if keep(s) then KeptAt(subs + [s], left + [s], keep, pos + [|subs|])
            else KeptAt(subs + [s], left, keep, pos)
  {
    var q, more := pos + [|subs|], subs + [s];
    forall i | 0 <= i < |subs|
      ensures more[i] == subs[i] && (i in q <==> i in pos)
    {
    }
    assert |subs| !in pos && q[|pos|] == |subs|;
  }

  /** Number of subscriptions of a connection. */
  function CountClient(subs: seq<Sub>, ws: nat): nat {
    if subs == [] then 0 else CountClient(Init(subs), ws) + (if Last(subs).ws == ws then 1 else 0)
  }

  /** No connection has more than `most` of these subscriptions. */
  ghost predicate AtMost(subs: seq<Sub>, most: nat) {
    forall ws :: CountClient(subs, ws) <= most
  }

  function Positions(subs: seq<Sub>, ws: nat): set<nat> {
    set i: nat | i < |subs| && subs[i].ws == ws
  }

  /** The count is that of the positions of a connection's subscriptions. */
  lemma {:induction false} CountIsSize(subs: seq<Sub>, ws: nat)
    ensures CountClient(subs, ws) == |Positions(subs, ws)|
    decreases |subs|
  {
    if subs == [] {
      assert Positions(subs, ws) == {};
    } else {
      CountIsSize(Init(subs), ws);
      MorePositions(subs, ws);
    }
  }

  lemma MorePositions(subs: seq<Sub>, ws: nat)
    requires subs != []
    ensures |Positions(subs, ws)| == |Positions(Init(subs), ws)| + (if Last(subs).ws == ws then 1 else 0)
  {
    var rest, n := Positions(Init(subs), ws), |subs| - 1;
    assert forall i: nat :: i < n ==> Init(subs)[i] == subs[i];
    assert n !in rest;
    if Last(subs).ws == ws {
      PositionsAre(subs, ws, rest + {n});
    } else {
      PositionsAre(subs, ws, rest);
    }
  }

  lemma PositionsAre(subs: seq<Sub>, ws: nat, at: set<nat>)
    requires forall i: nat :: i in at <==> i < |subs| && subs[i].ws == ws
    ensures Positions(subs, ws) == at
  {
  }

  /** Dropping subscriptions raises no count. */
  lemma {:induction false} KeptCount(subs: seq<Sub>, left: seq<Sub>, keep: Sub -> bool, pos: seq<nat>, ws: nat)
    requires KeptAt(subs, left, keep, pos)
    ensures CountClient(left, ws) <= CountClient(subs, ws)
    decreases |left| + |subs|
  {
    if left == [] {
    } else if Last(pos) == |subs| - 1 {
      KeptInit(subs, left, keep, pos);
      KeptCount(Init(subs), Init(left), keep, Init(pos), ws);
    } else {
      KeptInit(subs, left, keep, pos);
      KeptCount(Init(subs), left, keep, pos, ws);
    }
  }

  lemma KeptInit(subs: seq<Sub>, left: seq<Sub>, keep: Sub -> bool, pos: seq<nat>)
    requires KeptAt(subs, left, keep, pos) && left != []
    ensures subs != []
    ensures if Last(pos) == |subs| - 1 then Last(left) == Last(subs) && KeptAt(Init(subs), Init(left), keep, Init(pos))
            else KeptAt(Init(subs), left, keep, pos)
  {
    assert pos[|pos| - 1] == Last(pos);
    forall i | 0 <= i < |subs| - 1
      ensures i in pos <==> if Last(pos) == |subs| - 1 then i in Init(pos) else i in pos
    {
      assert pos == Init(pos) + [Last(pos)];
    }
  }

  lemma KeepsAtMost(subs: seq<Sub>, left: seq<Sub>, keep: Sub -> bool, most: nat)
    requires Keeps(subs, left, keep) && AtMost(subs, most)
    ensures AtMost(left, most)
  {
    hide KeptAt;
    var pos :| KeptAt(subs, left, keep, pos);
    forall ws
      ensures CountClient(left, ws) <= most
    {
      KeptCount(subs, left, keep, pos, ws);
    }
  }

  lemma OneMoreAtMost(subs: seq<Sub>, s: Sub, most: nat)
    requires AtMost(subs, most) && CountClient(subs, s.ws) < most
    ensures AtMost(subs + [s], most)
  {
    assert Init(subs + [s]) == subs;
  }

  predicate Knows(subs: seq<Sub>, id: nat) {
    exists i :: 0 <= i < |subs| && subs[i].id == id
  }

  predicate KnowsFor(subs: seq<Sub>, id: nat, ws: nat) {
    exists i :: 0 <= i < |subs| && subs[i].id == id && subs[i].ws == ws
  }

  class SubscriptionServer {
    const matches: Match
    const maxLogs: nat
    const maxMined: nat
    var newHeads: seq<Sub>
    var logsSubs: seq<Sub>
    var mined: seq<Sub>
    var logsSent: map<nat, seq<Sent>>
    var wire: seq<Out>
    var running: bool  // the block monitor's

    ghost function Abs(): Server
      reads this
    {
      Server(logsSubs, logsSent, wire)
    }

    /** The monitor runs exactly while there is a subscription of some kind; a connection has at
        most one subscription to new blocks and keeps to the limits of the others. */
    ghost predicate Valid()
      reads this
    {
      && (running <==> newHeads != [] || logsSubs != [] || mined != [])
      && AtMost(newHeads, 1) && AtMost(logsSubs, maxLogs) && AtMost(mined, maxMined)
    }

    constructor (matches: Match, maxLogs: nat, maxMined: nat)
      ensures Valid() && Abs() == Server([], map[], []) && !running
      ensures this.matches == matches && this.maxLogs == maxLogs && this.maxMined == maxMined
    {
      this.matches, this.maxLogs, this.maxMined := matches, maxLogs, maxMined;
      newHeads, logsSubs, mined, logsSent, wire, running := [], [], [], map[], [], false;
    }

    method SendLogsResponseAndSave(b: RemoteBlock, s: Sub, log: Log)
      modifies this`wire, this`logsSent
      ensures wire == old(wire) + [Out(false, Sent(s.ws, s.id, log))]
      ensures logsSent == Save(old(logsSent), b.number, [Sent(s.ws, s.id, log)])
    {
      wire := wire + [Out(false, Sent(s.ws, s.id, log))];
      if b.number !in logsSent {
        logsSent := logsSent[b.number := []];
      }
      logsSent := logsSent[b.number := logsSent[b.number] + [Sent(s.ws, s.id, log)]];
    }

    method HandleBlockAppended(b: RemoteBlock)
      modifies this`wire, this`logsSent
      ensures Abs() == OnEvent(matches, old(Abs()), Appended(b))
    {
      hide SentFor, SentForAll, Save, Outs;
      ghost var done: seq<Sent> := [];
      var i := 0;
      NothingSent(matches, logsSubs, logsSent, b.number);
      assert wire + [] == wire;
      while i < |b.logs|
        invariant 0 <= i <= |b.logs|
        invariant done == SentForAll(matches, logsSubs, b.logs[..i])
        invariant wire == old(wire) + Outs(false, done) && logsSent == Save(old(logsSent), b.number, done)
      {
        ghost var before := done;
        var k := 0;
        SentForNone(matches, b.logs[i]);
        assert before + [] == before;
        while k < |logsSubs|
          invariant 0 <= k <= |logsSubs|
          invariant done == before + SentFor(matches, logsSubs[..k], b.logs[i])
          invariant wire == old(wire) + Outs(false, done) && logsSent == Save(old(logsSent), b.number, done)
        {
          SentForNext(matches, logsSubs, k, b.logs[i]);
          if matches(logsSubs[k].filter, b.logs[i]) {
            ghost var one := Sent(logsSubs[k].ws, logsSubs[k].id, b.logs[i]);
            SaveMore(old(logsSent), b.number, done, one);
            SendLogsResponseAndSave(b, logsSubs[k], b.logs[i]);
            assert before + (SentFor(matches, logsSubs[..k], b.logs[i]) + [one]) == done + [one];
            done := done + [one];
          }
          k := k + 1;
        }
        assert logsSubs[..k] == logsSubs;
        SentForAllNext(matches, logsSubs, b.logs, i);
        i := i + 1;
      }
      assert b.logs[..i] == b.logs;
    }

    method HandleBlockForked(b: RemoteBlock)
      modifies this`wire, this`logsSent
      ensures Abs() == OnEvent(matches, old(Abs()), Forked(b))
    {
      if b.number in logsSent {
        var sent := logsSent[b.number];
        var i := 0;
        while i < |sent|
          invariant 0 <= i <= |sent|
          invariant wire == old(wire) + Outs(true, sent[..i]) && logsSent == old(logsSent)
        {
          wire := wire + [Out(true, sent[i])];
          i := i + 1;
        }
        assert sent[..i] == sent;
      } else {
        assert Outs(true, []) == [];
        assert wire + [] == wire;
      }
      logsSent := logsSent - {b.number};
    }

    method HandleBlockRemoved(b: RemoteBlock)
      modifies this`logsSent
      ensures Abs() == OnEvent(matches, old(Abs()), Removed(b))
    {
      logsSent := logsSent - {b.number};
    }

    // ----- subscriptions -----

    method CheckStartMonitor()
      modifies this`running
      ensures running == (old(running) || newHeads != [] || logsSubs != [] || mined != [])
    {
      if !running && (newHeads != [] || logsSubs != [] || mined != []) {
        running := true;
      }
    }

    method CheckStopMonitor()
      modifies this`running
      ensures running == (old(running) && (newHeads != [] || logsSubs != [] || mined != []))
    {
      if running && newHeads == [] && logsSubs == [] && mined == [] {
        running := false;
      }
    }

    /** Adds a subscription to new blocks unless the connection has one. */
    method HandleNewHeads(id: nat, ws: nat) returns (ok: bool)
      requires Valid() && !Knows(newHeads, id)
      modifies this`newHeads, this`running
      ensures Valid()
      ensures ok <==> CountClient(old(newHeads), ws) == 0
      ensures newHeads == if ok then old(newHeads) + [Sub(id, ws, 0)] else old(newHeads)
    {
      if CountClient(newHeads, ws) != 0 {
        return false;
      }
      OneMoreAtMost(newHeads, Sub(id, ws, 0), 1);
      newHeads := newHeads + [Sub(id, ws, 0)];
      CheckStartMonitor();
      ok := true;
    }

    /** Adds a logs subscription unless the connection has as many as it may. */
    method HandleLogs(id: nat, ws: nat, filter: nat) returns (ok: bool)
      requires Valid() && !Knows(logsSubs, id)
      modifies this`logsSubs, this`running
      ensures Valid()
      ensures ok <==> CountClient(old(logsSubs), ws) < maxLogs
      ensures logsSubs == if ok then old(logsSubs) + [Sub(id, ws, filter)] else old(logsSubs)
    {
      if CountClient(logsSubs, ws) >= maxLogs {
        return false;
      }
      OneMoreAtMost(logsSubs, Sub(id, ws, filter), maxLogs);
      logsSubs := logsSubs + [Sub(id, ws, filter)];
      CheckStartMonitor();
      ok := true;
    }

    method HandleMinedTransactions(id: nat, ws: nat, filter: nat) returns (ok: bool)
      requires Valid() && !Knows(mined, id)
      modifies this`mined, this`running
      ensures Valid()
      ensures ok <==> CountClient(old(mined), ws) < maxMined
      ensures mined == if ok then old(mined) + [Sub(id, ws, filter)] else old(mined)
    {
      if CountClient(mined, ws) >= maxMined {
        return false;
      }
      OneMoreAtMost(mined, Sub(id, ws, filter), maxMined);
      mined := mined + [Sub(id, ws, filter)];
      CheckStartMonitor();
      ok := true;
    }

    /** Drops one subscription of this connection, and no other one; the ledger and the wire stay
        as they are. */
    method HandleUnsubscribe(id: nat, ws: nat) returns (ok: bool)
      requires Valid()
      modifies this`newHeads, this`logsSubs, this`mined, this`running
      ensures Valid()
      ensures ok <==> (if Knows(old(newHeads), id) then KnowsFor(old(newHeads), id, ws)
                       else if Knows(old(logsSubs), id) then KnowsFor(old(logsSubs), id, ws)
                       else KnowsFor(old(mined), id, ws))
      ensures if ok && Knows(old(newHeads), id) then Keeps(old(newHeads), newHeads, (s: Sub) => s.id != id)
              else newHeads == old(newHeads)
      ensures if ok && !Knows(old(newHeads), id) && Knows(old(logsSubs), id) then
                Keeps(old(logsSubs), logsSubs, (s: Sub) => s.id != id)
              else logsSubs == old(logsSubs)
      ensures if ok && !Knows(old(newHeads), id) && !Knows(old(logsSubs), id) then
                Keeps(old(mined), mined, (s: Sub) => s.id != id)
              else mined == old(mined)
    {
      hide Keeps, AtMost;
      if Knows(newHeads, id) {
        if !KnowsFor(newHeads, id, ws) {
          return false;
        }
        newHeads := Filter(newHeads, (s: Sub) => s.id != id);
        KeepsAtMost(old(newHeads), newHeads, (s: Sub) => s.id != id, 1);
      } else if Knows(logsSubs, id) {
        if !KnowsFor(logsSubs, id, ws) {
          return false;
        }
        logsSubs := Filter(logsSubs, (s: Sub) => s.id != id);
        KeepsAtMost(old(logsSubs), logsSubs, (s: Sub) => s.id != id, maxLogs);
      } else {
        if !KnowsFor(mined, id, ws) {
          return false;
        }
        mined := Filter(mined, (s: Sub) => s.id != id);
        KeepsAtMost(old(mined), mined, (s: Sub) => s.id != id, maxMined);
      }
      CheckStopMonitor();
      ok := true;
    }

    /** Of each kind, exactly the other connections' subscriptions stay, in order; the ledger and
        the wire stay as they are. */
    method HandleDisconnect(ws: nat)
      requires Valid()
      modifies this`newHeads, this`logsSubs, this`mined, this`running
      ensures Valid()
      ensures Keeps(old(newHeads), newHeads, (s: Sub) => s.ws != ws)
      ensures Keeps(old(logsSubs), logsSubs, (s: Sub) => s.ws != ws)
      ensures Keeps(old(mined), mined, (s: Sub) => s.ws != ws)
    {
      hide Keeps, AtMost;
      var others := (s: Sub) => s.ws != ws;
      newHeads := Filter(newHeads, others);
      logsSubs := Filter(logsSubs, others);
      mined := Filter(mined, others);
      KeepsAtMost(old(newHeads), newHeads, others, 1);
      KeepsAtMost(old(logsSubs), logsSubs, others, maxLogs);
      KeepsAtMost(old(mined), mined, others, maxMined);
      CheckStopMonitor();
    }
  }

  lemma NothingSent(matches: Match, subs: seq<Sub>, ledger: map<nat, seq<Sent>>, n: nat)
    ensures SentForAll(matches, subs, []) == [] && Save(ledger, n, []) == ledger && Outs(false, []) == []
  {
  }

  lemma SentForNone(matches: Match, log: Log)
    ensures SentFor(matches, [], log) == []
  {
  }

  lemma SentForNext(matches: Match, subs: seq<Sub>, k: nat, log: Log)
    requires k < |subs|
    ensures SentFor(matches, subs[..k + 1], log) ==
      SentFor(matches, subs[..k], log) +
      (if matches(subs[k].filter, log) then [Sent(subs[k].ws, subs[k].id, log)] else [])
  {
    assert Init(subs[..k + 1]) == subs[..k];
    assert SentFor(matches, subs[..k], log) + [] == SentFor(matches, subs[..k], log);
  }

  lemma SentForAllNext(matches: Match, subs: seq<Sub>, logs: seq<Log>, i: nat)
    requires i < |logs|
    ensures SentForAll(matches, subs, logs[..i + 1]) ==
      SentForAll(matches, subs, logs[..i]) + SentFor(matches, subs, logs[i])
  {
    assert Init(logs[..i + 1]) == logs[..i];
  }

  /** `sent` lists, log by log and then subscription by subscription, one message for every
      pair of a log and a subscription whose filter lets it through; `at` are those pairs. */
  ghost predicate ListedAt(
    matches: Match, subs: seq<Sub>, logs: seq<Log>, sent: seq<Sent>, at: seq<(nat, nat)>)
  {
    && |at| == |sent|
    && (forall i :: 0 <= i < |at| ==> Lists(matches, subs, logs, sent[i], at[i]))
    && (forall i, j :: 0 <= i < j < |at| ==> EarlierPair(at[i], at[j]))
    && (forall l: nat, k: nat :: l < |logs| && k < |subs| && matches(subs[k].filter, logs[l]) ==> (l, k) in at)
  }

  predicate EarlierPair(p: (nat, nat), q: (nat, nat)) {
    p.0 < q.0 || (p.0 == q.0 && p.1 < q.1)
  }

  predicate Lists(matches: Match, subs: seq<Sub>, logs: seq<Log>, s: Sent, p: (nat, nat)) {
    && p.0 < |logs| && p.1 < |subs| && matches(subs[p.1].filter, logs[p.0])
    && s == Sent(subs[p.1].ws, subs[p.1].id, logs[p.0])
  }

  lemma {:induction false} SentForOne(matches: Match, subs: seq<Sub>, log: Log) returns (ks: seq<nat>)
    ensures var sent := SentFor(matches, subs, log);
      && |ks| == |sent|
      && (forall i :: 0 <= i < |ks| ==> Lists(matches, subs, [log], sent[i], (0, ks[i])))
      && (forall i, j :: 0 <= i < j < |ks| ==> ks[i] < ks[j])
      && (forall k: nat :: k < |subs| && matches(subs[k].filter, log) ==> k in ks)
    decreases |subs|
  {
    ks := [];
    if subs != [] {
      ks := SentForOne(matches, Init(subs), log);
      assert forall k: nat :: k < |subs| - 1 ==> Init(subs)[k] == subs[k];
      if matches(Last(subs).filter, log) { ks := ks + [|subs| - 1]; }
    }
  }

  /** The messages for a block are exactly the matching ones, once each, in order. */
  lemma {:induction false} SentExactly(matches: Match, subs: seq<Sub>, logs: seq<Log>) returns (at: seq<(nat, nat)>)
    ensures ListedAt(matches, subs, logs, SentForAll(matches, subs, logs), at)
    decreases |logs|
  {
    at := [];
    if logs != [] {
      var before := SentExactly(matches, subs, Init(logs));
      var ks := SentForOne(matches, subs, Last(logs));
      at := before + seq<(nat, nat)>(|ks|, i requires 0 <= i < |ks| => (|logs| - 1, ks[i]));
      assert Joined(logs, before, ks, at);
      JoinListed(matches, subs, logs, before, ks, at);
    }
  }

  /** The pairs of the last log, after those of the others. */
  ghost predicate Joined(logs: seq<Log>, before: seq<(nat, nat)>, ks: seq<nat>, at: seq<(nat, nat)>) {
    && logs != [] && |at| == |before| + |ks|
    && (forall i :: 0 <= i < |before| ==> at[i] == before[i])
    && (forall i :: |before| <= i < |at| ==> at[i] == (|logs| - 1, ks[i - |before|]))
  }

  lemma {:induction false} JoinListed(
    matches: Match, subs: seq<Sub>, logs: seq<Log>, before: seq<(nat, nat)>, ks: seq<nat>, at: seq<(nat, nat)>)
    requires Joined(logs, before, ks, at)
    requires ListedAt(matches, subs, Init(logs), SentForAll(matches, subs, Init(logs)), before)
    requires |ks| == |SentFor(matches, subs, Last(logs))|
    requires forall i :: 0 <= i < |ks| ==>
      Lists(matches, subs, [Last(logs)], SentFor(matches, subs, Last(logs))[i], (0, ks[i]))
    requires forall i, j :: 0 <= i < j < |ks| ==> ks[i] < ks[j]
    requires forall k: nat :: k < |subs| && matches(subs[k].filter, Last(logs)) ==> k in ks
    ensures ListedAt(matches, subs, logs, SentForAll(matches, subs, logs), at)
  {
    hide SentFor, EarlierPair;
    var sent := SentForAll(matches, subs, logs);
    forall i | 0 <= i < |at|
      ensures Lists(matches, subs, logs, sent[i], at[i])
    {
      if i < |before| {
        assert Lists(matches, subs, Init(logs), SentForAll(matches, subs, Init(logs))[i], before[i]);
      }
    }
    forall l: nat, k: nat | l < |logs| && k < |subs| && matches(subs[k].filter, logs[l])
      ensures (l, k) in at
    {
      JoinComplete(logs, before, ks, at, l, k);
    }
    JoinOrdered(logs, before, ks, at);
  }

  lemma JoinComplete(logs: seq<Log>, before: seq<(nat, nat)>, ks: seq<nat>, at: seq<(nat, nat)>, l: nat, k: nat)
    requires Joined(logs, before, ks, at) && l < |logs|
    ensures (if l < |logs| - 1 then (l, k) in before else k in ks) ==> (l, k) in at
  {
    if l < |logs| - 1 && (l, k) in before {
      var i :| 0 <= i < |before| && before[i] == (l, k);
      assert at[i] == (l, k);
    } else if l == |logs| - 1 && k in ks {
      var i :| 0 <= i < |ks| && ks[i] == k;
      assert at[|before| + i] == (l, k);
    }
  }

  lemma JoinOrdered(logs: seq<Log>, before: seq<(nat, nat)>, ks: seq<nat>, at: seq<(nat, nat)>)
    requires Joined(logs, before, ks, at)
    requires forall i :: 0 <= i < |before| ==> before[i].0 < |logs| - 1
    requires forall i, j :: 0 <= i < j < |before| ==> EarlierPair(before[i], before[j])
    requires forall i, j :: 0 <= i < j < |ks| ==> ks[i] < ks[j]
    ensures forall i, j :: 0 <= i < j < |at| ==> EarlierPair(at[i], at[j])
  {
  }

  lemma SaveMore(ledger: map<nat, seq<Sent>>, n: nat, done: seq<Sent>, one: Sent)
    ensures Save(Save(ledger, n, done), n, [one]) == Save(ledger, n, done + [one])
    ensures Outs(false, done + [one]) == Outs(false, done) + [Out(false, one)]
  {
    assert Entry(ledger, n) + done + [one] == Entry(ledger, n) + (done + [one]);
    if done == [] { assert done + [one] == [one]; }
  }
}
