/** The websocket handler's treatment of a JSON-RPC batch (section 6 of the JSON-RPC 2.0
    Specification): split, forward, merge. */
module BatchMerge {
  import opened Types
  import opened Seqs

  datatype Call = Subscribe | Unsubscribe | GasPrice | SendRawTransaction | Other(name: nat)

  datatype Request = Request(id: nat, call: Call)

  /** One entry of the reply: what a local or miner handler said, what the upstream server
      said, or an error naming the request. */
  datatype Answer = Handled(what: nat) | Upstream(what: nat) | Error(id: nat)

  predicate Forwardable(q: Request) {
    q.call.Other?
  }

  /** The requests that go upstream, in order. */
  function Forwarded(data: seq<Request>): seq<Request> {
    if data == [] then []
    else if Forwardable(Last(data)) then Forwarded(Init(data)) + [Last(data)]
    else Forwarded(Init(data))
  }

  /** The reply, entry by entry: `handled[i]` is what the handlers say to request `i`. */
  function Merged(data: seq<Request>, handled: seq<nat>, upstream: seq<nat>): seq<Answer>
    requires |handled| == |data|
  {
    if data == [] then []
    else
      var before := Forwarded(Init(data));
      Merged(Init(data), Init(handled), upstream) +
      [if !Forwardable(Last(data)) then Handled(Last(handled))
       else if |before| < |upstream| then Upstream(upstream[|before|])
       else Error(Last(data).id)]
  }

  /** Splits a batch; the test server is used as soon as one forwarded name is not listed. */
  method Split(data: seq<Request>, whitelist: set<nat>) returns (data2: seq<Request>, useTest: bool)
    ensures data2 == Forwarded(data)
    ensures useTest <==> exists i :: 0 <= i < |data| && Forwardable(data[i]) && data[i].call.name !in whitelist
  {
    data2, useTest := [], false;
    var i := 0;
    while i < |data|
      invariant 0 <= i <= |data| && data2 == Forwarded(data[..i])
      invariant useTest <==> exists k :: 0 <= k < i && Forwardable(data[k]) && data[k].call.name !in whitelist
    {
      assert Init(data[..i + 1]) == data[..i];
      if Forwardable(data[i]) {
        if data[i].call.name !in whitelist {
          useTest := true;
        }
        data2 := data2 + [data[i]];
      }
      i := i + 1;
    }
    assert data[..i] == data;
  }

  /** Merges the upstream replies back between those of the handlers. */
  method Merge(data: seq<Request>, handled: seq<nat>, upstream: seq<nat>) returns (r: seq<Answer>)
    requires |handled| == |data|
    ensures r == Merged(data, handled, upstream)
  {
    r := [];
    var rpcIndex := 0;
    var i := 0;
    while i < |data|
      invariant 0 <= i <= |data| && r == Merged(data[..i], handled[..i], upstream)
      invariant rpcIndex == if |Forwarded(data[..i])| < |upstream| then |Forwarded(data[..i])| else |upstream|
    {
      assert Init(data[..i + 1]) == data[..i] && Init(handled[..i + 1]) == handled[..i];
      if !Forwardable(data[i]) {
        r := r + [Handled(handled[i])];
      } else if rpcIndex < |upstream| {
        r := r + [Upstream(upstream[rpcIndex])];
        rpcIndex := rpcIndex + 1;
      } else {
        r := r + [Error(data[i].id)];
      }
      i := i + 1;
    }
    assert data[..i] == data && handled[..i] == handled;
  }

  /** Entry `i` answers request `i`: the handlers' answer to it, or the upstream answer to the
      forwarded request it became, or an error exactly when upstream answered fewer. */
  lemma {:induction false} EntryAnswersRequest(data: seq<Request>, handled: seq<nat>, upstream: seq<nat>, i: nat)
    requires |handled| == |data| && i < |data|
    ensures var r, k := Merged(data, handled, upstream), |Forwarded(data[..i])|;
      && |r| == |data|
      && (!Forwardable(data[i]) ==> r[i] == Handled(handled[i]))
      && (Forwardable(data[i]) ==>
            && k < |Forwarded(data)| && Forwarded(data)[k] == data[i]
            && r[i] == if k < |upstream| then Upstream(upstream[k]) else Error(data[i].id))
    decreases |data|
  {
    if i == |data| - 1 {
      assert data[..i] == Init(data);
      if i > 0 { EntryAnswersRequest(Init(data), Init(handled), upstream, i - 1); }
    } else {
      EntryAnswersRequest(Init(data), Init(handled), upstream, i);
      assert Init(data)[..i] == data[..i];
    }
  }

  /** Errors for want of an upstream answer only come at the end of the forwarded requests. */
  lemma {:induction false} ErrorsAtTheTail(data: seq<Request>, handled: seq<nat>, upstream: seq<nat>, i: nat, j: nat)
    requires |handled| == |data| && i < j < |data|
    requires Forwardable(data[i]) && Forwardable(data[j])
    ensures var r := Merged(data, handled, upstream);
      |r| == |data| && (r[i].Error? ==> r[j].Error?)
  {
    EntryAnswersRequest(data, handled, upstream, i);
    EntryAnswersRequest(data, handled, upstream, j);
    ForwardedGrows(data, i, j);
  }

  /** The forwarded list holds forwardable requests only, one for each forwardable position. */
  lemma {:induction false} ForwardedExact(data: seq<Request>)
    ensures forall q :: q in Forwarded(data) ==> Forwardable(q)
    ensures |Forwarded(data)| == |set i: nat | i < |data| && Forwardable(data[i])|
    decreases |data|
  {
    var at := set i: nat | i < |data| && Forwardable(data[i]);
    if data == [] {
      assert at == {};
    } else {
      ForwardedExact(Init(data));
      var rest := set i: nat | i < |Init(data)| && Forwardable(Init(data)[i]);
      assert forall i: nat :: i < |data| - 1 ==> Init(data)[i] == data[i];
      assert at == if Forwardable(Last(data)) then rest + {|data| - 1} else rest;
    }
  }

  lemma {:induction false} ForwardedGrows(data: seq<Request>, i: nat, j: nat)
    requires i <= j <= |data|
    ensures |Forwarded(data[..i])| <= |Forwarded(data[..j])|
    decreases j
  {
    if i < j {
      ForwardedGrows(data, i, j - 1);
      assert Init(data[..j]) == data[..j - 1];
    }
  }
}
