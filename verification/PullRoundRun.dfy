/** A loss-free pull round is a run of the pull network: the same handlers, one packet at a time. */
module PullRoundRun {
  import opened Sequences
  import opened Messages
  import opened Selection
  import opened PullEngines
  import opened PullNetwork
  import opened PullRound

  /** Where a round starts: the initiator at `me`, every responder at its endpoint. */
  ghost predicate IsSetUp(r: Round, net: Network, me: Endpoint) {
    && me !in r.peers && At(net, me) == r.initiator
    && (forall p | p in r.peers :: At(net, p) == r.responder(p) && Distinct(r.listing(p)))
  }

  function HelloTo(r: Round, me: Endpoint, p: Endpoint): Packet
    requires |r.peers| == |r.nonces|
  {
    Packet.Hello(me, p, NonceOf(r, p))
  }

  function DigestFrom(r: Round, me: Endpoint, p: Endpoint): Packet
    requires |r.peers| == |r.nonces|
  {
    Packet.Digest(p, me, r.listing(p), NonceOf(r, p))
  }

  function HelloOps(r: Round, me: Endpoint, peers: seq<Endpoint>): seq<Op>
    requires |r.peers| == |r.nonces|
  {
    if peers == [] then []
    else var n := |peers| - 1;
         HelloOps(r, me, peers[..n]) + [HelloOp(HelloTo(r, me, peers[n]), EgressOf(r, peers[n]), r.listing(peers[n]))]
  }

  function DigestOps(r: Round, me: Endpoint, arrivals: seq<Endpoint>): seq<Op>
    requires |r.peers| == |r.nonces|
  {
    if arrivals == [] then []
    else var n := |arrivals| - 1;
         DigestOps(r, me, arrivals[..n]) + [DigestOp(DigestFrom(r, me, arrivals[n]), r.ingress)]
  }

  /** A responder once it has seen the hello. */
  function Greeted(r: Round, p: Endpoint): Engine
    requires |r.peers| == |r.nonces|
  {
    OnHello(r.responder(p), NonceOf(r, p))
  }

  function Everything(): SignedMessage -> bool {
    (m: SignedMessage) => true
  }

  function KeepAll(): Option<SignedMessage> -> bool {
    (d: Option<SignedMessage>) => true
  }

  /** A request travels, and the response to it, if there is one. */
  function AnswerOps(r: Round, me: Endpoint, q: Request): seq<Op>
    requires |r.peers| == |r.nonces|
  {
    var e := Greeted(r, q.dest);
    [ReqOp(Req(me, q.dest, q.items, q.nonce), EgressOf(r, q.dest))] +
    match OnReq(e, q.items, q.nonce, EgressOf(r, q.dest))
    case None => []
    case Some(send) =>
      [SendOp(Prepared(q.dest, me, send, q.nonce), Everything()),
       ResOp(Update(q.dest, me, Enveloped(SendRes(e, send), Everything()), q.nonce), KeepAll())]
  }

  function DeliveryOps(r: Round, me: Endpoint, deliveries: seq<Request>): seq<Op>
    requires |r.peers| == |r.nonces|
  {
    if deliveries == [] then []
    else DeliveryOps(r, me, deliveries[..|deliveries| - 1]) + AnswerOps(r, me, deliveries[|deliveries| - 1])
  }

  /** The whole round. */
  function RoundOps(r: Round, me: Endpoint): seq<Op>
    requires |r.peers| == |r.nonces|
  {
    [InitiateOp(me, r.peers, r.nonces)] + HelloOps(r, me, r.peers) + DigestOps(r, me, r.arrivals)
    + [TimeoutOp(me, r.draw, r.requests)] + DeliveryOps(r, me, r.deliveries) + [EndOp(me)]
  }

  lemma {:induction false} RunConcat(idOf: Extractor, net: Network, a: seq<Op>, b: seq<Op>)
    ensures Run(idOf, net, a + b) == Run(idOf, Run(idOf, net, a), b)
  {
    if b == [] {
      assert a + b == a;
    } else {
      var n := |b| - 1;
      assert (a + b)[..|a + b| - 1] == a + b[..n];
      RunConcat(idOf, net, a, b[..n]);
    }
  }

  lemma RunOne(idOf: Extractor, net: Network, op: Op)
    ensures Run(idOf, net, [op]) == if Enabled(net, op) then Step(idOf, net, op) else net
  {
    assert [op][..0] == [];
    assert Run(idOf, net, []) == net;
  }

  /** The first `k` peers have seen their hello and sent their digest. */
  ghost predicate Greeting(r: Round, net: Network, me: Endpoint, k: nat)
    requires |r.peers| == |r.nonces|
  {
    && k <= |r.peers| && At(net, me) == Started(r)
    && (forall i | 0 <= i < |r.peers| ::
          At(net, r.peers[i]) == if i < k then Greeted(r, r.peers[i]) else r.responder(r.peers[i]))
    && (forall i | 0 <= i < |r.peers| :: HelloTo(r, me, r.peers[i]) in net.flight)
    && (forall i | 0 <= i < k && r.listing(r.peers[i]) != [] :: DigestFrom(r, me, r.peers[i]) in net.flight)
  }

  lemma NonceAt(r: Round, i: nat)
    requires Paired(r) && i < |r.peers|
    ensures NonceOf(r, r.peers[i]) == r.nonces[i]
  {
    InitiateIssues(r.initiator, r.peers, r.nonces, i);
  }

  lemma InitiatePhase(r: Round, net: Network, me: Endpoint)
    requires Paired(r) && IsSetUp(r, net, me)
    ensures Greeting(r, Run(r.idOf, net, [InitiateOp(me, r.peers, r.nonces)]), me, 0)
  {
    var op := InitiateOp(me, r.peers, r.nonces);
    RunOne(r.idOf, net, op);
    var after := Step(r.idOf, net, op);
    forall i | 0 <= i < |r.peers|
      ensures HelloTo(r, me, r.peers[i]) in after.flight
    {
      NonceAt(r, i);
      assert Packet.Hello(me, r.peers[i], r.nonces[i]) in HelloPackets(me, r.peers, r.nonces);
    }
  }

  lemma GreetOne(r: Round, net: Network, me: Endpoint, k: nat)
    requires Paired(r) && me !in r.peers && k < |r.peers| && Greeting(r, net, me, k)
    requires Responsive(r, r.peers[k]) && Distinct(r.listing(r.peers[k]))
    ensures var p := r.peers[k];
            Greeting(r, Run(r.idOf, net, [HelloOp(HelloTo(r, me, p), EgressOf(r, p), r.listing(p))]), me, k + 1)
  {
    var p := r.peers[k];
    var op := HelloOp(HelloTo(r, me, p), EgressOf(r, p), r.listing(p));
    RunOne(r.idOf, net, op);
    assert Enabled(net, op);
    var after := Step(r.idOf, net, op);
    forall i | 0 <= i < |r.peers|
      ensures At(after, r.peers[i]) == if i < k + 1 then Greeted(r, r.peers[i]) else r.responder(r.peers[i])
    {
      assert i != k ==> r.peers[i] != p;
    }
  }

  lemma {:induction false} GreetAll(r: Round, net: Network, me: Endpoint, k: nat)
    requires LossFree(r) && me !in r.peers && k <= |r.peers| && Greeting(r, net, me, 0)
    requires forall p | p in r.peers :: Distinct(r.listing(p))
    ensures Greeting(r, Run(r.idOf, net, HelloOps(r, me, r.peers[..k])), me, k)
  {
    if k == 0 {
    } else {
      GreetAll(r, net, me, k - 1);
      var p := r.peers[k - 1];
      assert r.peers[..k][..k - 1] == r.peers[..k - 1];
      assert Responsive(r, p);
      GreetOne(r, Run(r.idOf, net, HelloOps(r, me, r.peers[..k - 1])), me, k - 1);
      RunConcat(r.idOf, net, HelloOps(r, me, r.peers[..k - 1]),
                [HelloOp(HelloTo(r, me, p), EgressOf(r, p), r.listing(p))]);
    }
  }

  /** All peers have been greeted, and the initiator is in state `e`. */
  ghost predicate Underway(r: Round, net: Network, me: Endpoint, e: Engine)
    requires |r.peers| == |r.nonces|
  {
    && At(net, me) == e
    && (forall p | p in r.peers :: At(net, p) == Greeted(r, p))
    && (forall p | p in r.peers && r.listing(p) != [] :: DigestFrom(r, me, p) in net.flight)
  }

  lemma GreetedIsUnderway(r: Round, net: Network, me: Endpoint)
    requires Paired(r) && Greeting(r, net, me, |r.peers|)
    ensures Underway(r, net, me, Started(r))
  {
    forall p | p in r.peers
      ensures At(net, p) == Greeted(r, p)
      ensures r.listing(p) != [] ==> DigestFrom(r, me, p) in net.flight
    {
      var i :| 0 <= i < |r.peers| && r.peers[i] == p;
    }
  }

  lemma DigestOne(r: Round, net: Network, me: Endpoint, e: Engine, p: Endpoint)
    requires Paired(r) && me !in r.peers && p in r.peers && Underway(r, net, me, e)
    ensures Underway(r, Run(r.idOf, net, [DigestOp(DigestFrom(r, me, p), r.ingress)]), me,
                     OnDigest(e, DigestOf(r, p), NonceOf(r, p)))
  {
    RunOne(r.idOf, net, DigestOp(DigestFrom(r, me, p), r.ingress));
    assert r.listing(p) == [] ==> DigestOf(r, p) == [];
  }

  lemma {:induction false} DigestAll(r: Round, net: Network, me: Endpoint, arrivals: seq<Endpoint>)
    requires Paired(r) && me !in r.peers && Underway(r, net, me, Started(r))
    requires forall p | p in arrivals :: p in r.peers
    ensures Underway(r, Run(r.idOf, net, DigestOps(r, me, arrivals)), me, Digested(r, arrivals))
  {
    if arrivals == [] {
    } else {
      var n := |arrivals| - 1;
      DigestAll(r, net, me, arrivals[..n]);
      DigestOne(r, Run(r.idOf, net, DigestOps(r, me, arrivals[..n])), me, Digested(r, arrivals[..n]), arrivals[n]);
      RunConcat(r.idOf, net, DigestOps(r, me, arrivals[..n]), [DigestOp(DigestFrom(r, me, arrivals[n]), r.ingress)]);
    }
  }

  lemma {:induction false} DigestedIsBooked(r: Round, arrivals: seq<Endpoint>)
    requires Paired(r)
    ensures Booked(Digested(r, arrivals))
  {
    if arrivals == [] {
      InitiateIsBooked(r.initiator, r.peers, r.nonces);
    } else {
      var n := |arrivals| - 1;
      DigestedIsBooked(r, arrivals[..n]);
      OnDigestIsBooked(Digested(r, arrivals[..n]), DigestOf(r, arrivals[n]), NonceOf(r, arrivals[n]));
    }
  }

  /** The requests are on their way as well. */
  ghost predicate Asking(r: Round, net: Network, me: Endpoint, e: Engine)
    requires |r.peers| == |r.nonces|
  {
    Underway(r, net, me, e) && RequestPackets(me, r.requests) <= net.flight
  }

  lemma TimeoutPhase(r: Round, net: Network, me: Endpoint)
    requires LossFree(r) && me !in r.peers && Underway(r, net, me, Digested(r, r.arrivals))
    ensures Asking(r, Run(r.idOf, net, [TimeoutOp(me, r.draw, r.requests)]), me, Answered(r, []))
  {
    DigestedIsBooked(r, r.arrivals);
    RunOne(r.idOf, net, TimeoutOp(me, r.draw, r.requests));
    assert Enabled(net, TimeoutOp(me, r.draw, r.requests));
  }

  lemma EnvelopedIsParsed(data: seq<SignedMessage>)
    ensures Parsed(Filter(KeepAll(), Enveloped(data, Everything()))) == data
    ensures |Filter(KeepAll(), Enveloped(data, Everything()))| == |data|
  {
    FilterAll(KeepAll(), Enveloped(data, Everything()));
    assert Enveloped(data, Everything()) == Intact(data);
    ParsedIntact(data);
  }

  lemma RunThree(idOf: Extractor, net: Network, a: Op, b: Op, c: Op)
    ensures Run(idOf, net, [a] + [b, c]) == Run(idOf, Run(idOf, Run(idOf, net, [a]), [b]), [c])
  {
    RunConcat(idOf, net, [a], [b, c]);
    RunConcat(idOf, Run(idOf, net, [a]), [b], [c]);
    assert [b] + [c] == [b, c];
  }

  lemma OnResNothing(idOf: Extractor, e: Engine, nonce: Nonce)
    ensures OnRes(idOf, e, [], nonce) == e
  {
    assert Ids(idOf, []) == {};
  }

  /** An unserved request changes nothing. */
  lemma Unserved(r: Round, net: Network, me: Endpoint, q: Request)
    requires |r.peers| == |r.nonces|
    requires OnReq(Greeted(r, q.dest), q.items, q.nonce, EgressOf(r, q.dest)).None?
    requires OnReq(At(net, q.dest), q.items, q.nonce, EgressOf(r, q.dest)).None?
    ensures Run(r.idOf, net, AnswerOps(r, me, q)) == net
  {
    var op := ReqOp(Req(me, q.dest, q.items, q.nonce), EgressOf(r, q.dest));
    RunOne(r.idOf, net, op);
    assert AnswerOps(r, me, q) == [op];
  }

  lemma SendPhase(r: Round, net: Network, me: Endpoint, q: Request, send: seq<Item>)
    requires |r.peers| == |r.nonces| && At(net, q.dest) == Greeted(r, q.dest)
    requires OnReq(Greeted(r, q.dest), q.items, q.nonce, EgressOf(r, q.dest)) == Some(send)
    requires Req(me, q.dest, q.items, q.nonce) in net.flight
    ensures var a := ReqOp(Req(me, q.dest, q.items, q.nonce), EgressOf(r, q.dest));
            var prepared := Prepared(q.dest, me, send, q.nonce);
            var b := SendOp(prepared, Everything());
            var update := Update(q.dest, me, Enveloped(SendRes(Greeted(r, q.dest), send), Everything()), q.nonce);
            Run(r.idOf, Run(r.idOf, net, [a]), [b]) == net.(flight := net.flight + {prepared} + {update})
  {
    var a := ReqOp(Req(me, q.dest, q.items, q.nonce), EgressOf(r, q.dest));
    RunOne(r.idOf, net, a);
    RunOne(r.idOf, Step(r.idOf, net, a), SendOp(Prepared(q.dest, me, send, q.nonce), Everything()));
  }

  lemma ReceiveStep(idOf: Extractor, net: Network, p: Packet, keep: Option<SignedMessage> -> bool)
    requires p in net.flight && p.Update?
    ensures Run(idOf, net, [ResOp(p, keep)])
            == Put(net, p.dst, OnUpdate(idOf, At(net, p.dst), Filter(keep, p.data), p.nonce))
  {
    RunOne(idOf, net, ResOp(p, keep));
  }

  lemma OnUpdateReadable(idOf: Extractor, e: Engine, data: seq<Option<SignedMessage>>, nonce: Nonce)
    requires |Parsed(data)| == |data|
    ensures OnUpdate(idOf, e, data, nonce) == OnRes(idOf, e, Parsed(data), nonce)
  {
  }

  lemma ReceivePhase(idOf: Extractor, net: Network, src: Endpoint, me: Endpoint, data: seq<SignedMessage>, nonce: Nonce)
    requires Update(src, me, Enveloped(data, Everything()), nonce) in net.flight
    ensures Run(idOf, net, [ResOp(Update(src, me, Enveloped(data, Everything()), nonce), KeepAll())])
            == Put(net, me, OnRes(idOf, At(net, me), data, nonce))
  {
    var update := Update(src, me, Enveloped(data, Everything()), nonce);
    ReceiveStep(idOf, net, update, KeepAll());
    EnvelopedIsParsed(data);
    OnUpdateReadable(idOf, At(net, me), Filter(KeepAll(), update.data), nonce);
  }

  lemma Served(r: Round, net: Network, me: Endpoint, q: Request, send: seq<Item>)
    requires |r.peers| == |r.nonces| && At(net, q.dest) == Greeted(r, q.dest)
    requires OnReq(Greeted(r, q.dest), q.items, q.nonce, EgressOf(r, q.dest)) == Some(send)
    requires Req(me, q.dest, q.items, q.nonce) in net.flight
    ensures exists flight | net.flight <= flight ::
              Run(r.idOf, net, AnswerOps(r, me, q))
              == Put(net.(flight := flight), me, OnRes(r.idOf, At(net, me), Answer(r, q), q.nonce))
  {
    var d := Greeted(r, q.dest);
    var data := SendRes(d, send);
    var prepared := Prepared(q.dest, me, send, q.nonce);
    var update := Update(q.dest, me, Enveloped(data, Everything()), q.nonce);
    var a := ReqOp(Req(me, q.dest, q.items, q.nonce), EgressOf(r, q.dest));
    RunThree(r.idOf, net, a, SendOp(prepared, Everything()), ResOp(update, KeepAll()));
    SendPhase(r, net, me, q, send);
    var flight := net.flight + {prepared} + {update};
    ReceivePhase(r.idOf, net.(flight := flight), q.dest, me, data, q.nonce);
    assert net.flight <= flight;
  }

  lemma AskingGrows(r: Round, net: Network, me: Endpoint, e: Engine, flight: set<Packet>, f: Engine)
    requires |r.peers| == |r.nonces| && me !in r.peers && Asking(r, net, me, e) && net.flight <= flight
    ensures Asking(r, Put(net.(flight := flight), me, f), me, f)
  {
  }

  lemma AnswerOne(r: Round, net: Network, me: Endpoint, e: Engine, q: Request)
    requires LossFree(r) && me !in r.peers && Asking(r, net, me, e) && q in r.requests
    ensures Asking(r, Run(r.idOf, net, AnswerOps(r, me, q)), me, OnRes(r.idOf, e, Answer(r, q), q.nonce))
  {
    if q.items != [] {
      RequestedWasAdvertised(r, q, q.items[0]);
    }
    match OnReq(Greeted(r, q.dest), q.items, q.nonce, EgressOf(r, q.dest))
    case None =>
      Unserved(r, net, me, q);
      OnResNothing(r.idOf, e, q.nonce);
    case Some(send) =>
      assert Req(me, q.dest, q.items, q.nonce) in RequestPackets(me, r.requests);
      Served(r, net, me, q, send);
      var f := OnRes(r.idOf, e, Answer(r, q), q.nonce);
      var flight :| net.flight <= flight && Run(r.idOf, net, AnswerOps(r, me, q)) == Put(net.(flight := flight), me, f);
      AskingGrows(r, net, me, e, flight, f);
  }

  lemma {:induction false} AnswerAll(r: Round, net: Network, me: Endpoint, deliveries: seq<Request>)
    requires LossFree(r) && me !in r.peers && Asking(r, net, me, Answered(r, []))
    requires forall q | q in deliveries :: q in r.requests
    ensures Asking(r, Run(r.idOf, net, DeliveryOps(r, me, deliveries)), me, Answered(r, deliveries))
  {
    if deliveries == [] {
    } else {
      var n := |deliveries| - 1;
      AnswerAll(r, net, me, deliveries[..n]);
      AnswerOne(r, Run(r.idOf, net, DeliveryOps(r, me, deliveries[..n])), me, Answered(r, deliveries[..n]),
                deliveries[n]);
      RunConcat(r.idOf, net, DeliveryOps(r, me, deliveries[..n]), AnswerOps(r, me, deliveries[n]));
    }
  }

  lemma RunPhases(r: Round, net: Network, me: Endpoint)
    requires |r.peers| == |r.nonces|
    ensures var one := Run(r.idOf, net, [InitiateOp(me, r.peers, r.nonces)]);
            var two := Run(r.idOf, one, HelloOps(r, me, r.peers));
            var three := Run(r.idOf, two, DigestOps(r, me, r.arrivals));
            var four := Run(r.idOf, three, [TimeoutOp(me, r.draw, r.requests)]);
            var five := Run(r.idOf, four, DeliveryOps(r, me, r.deliveries));
            Run(r.idOf, net, RoundOps(r, me)) == Run(r.idOf, five, [EndOp(me)])
  {
    var a := [InitiateOp(me, r.peers, r.nonces)];
    var b, c := HelloOps(r, me, r.peers), DigestOps(r, me, r.arrivals);
    var d, e := [TimeoutOp(me, r.draw, r.requests)], DeliveryOps(r, me, r.deliveries);
    RunConcat(r.idOf, net, a + b + c + d + e, [EndOp(me)]);
    RunConcat(r.idOf, net, a + b + c + d, e);
    RunConcat(r.idOf, net, a + b + c, d);
    RunConcat(r.idOf, net, a + b, c);
    RunConcat(r.idOf, net, a, b);
  }

  lemma HelloPhases(r: Round, net: Network, me: Endpoint)
    requires LossFree(r) && IsSetUp(r, net, me)
    ensures var one := Run(r.idOf, net, [InitiateOp(me, r.peers, r.nonces)]);
            Underway(r, Run(r.idOf, one, HelloOps(r, me, r.peers)), me, Started(r))
  {
    var one := Run(r.idOf, net, [InitiateOp(me, r.peers, r.nonces)]);
    InitiatePhase(r, net, me);
    GreetAll(r, one, me, |r.peers|);
    assert r.peers[..|r.peers|] == r.peers;
    GreetedIsUnderway(r, Run(r.idOf, one, HelloOps(r, me, r.peers)), me);
  }

  lemma DeliveriesAreRequested(r: Round)
    requires LossFree(r)
    ensures forall q | q in r.deliveries :: q in r.requests
  {
  }

  lemma EndPhase(idOf: Extractor, net: Network, me: Endpoint)
    ensures At(Run(idOf, net, [EndOp(me)]), me) == EndPull(At(net, me))
  {
    RunOne(idOf, net, EndOp(me));
  }

  lemma AnswerPhases(r: Round, net: Network, me: Endpoint)
    requires LossFree(r) && me !in r.peers && Underway(r, net, me, Digested(r, r.arrivals))
    ensures var four := Run(r.idOf, net, [TimeoutOp(me, r.draw, r.requests)]);
            At(Run(r.idOf, Run(r.idOf, four, DeliveryOps(r, me, r.deliveries)), [EndOp(me)]), me) == Finished(r)
  {
    var four := Run(r.idOf, net, [TimeoutOp(me, r.draw, r.requests)]);
    TimeoutPhase(r, net, me);
    DeliveriesAreRequested(r);
    AnswerAll(r, four, me, r.deliveries);
    EndPhase(r.idOf, Run(r.idOf, four, DeliveryOps(r, me, r.deliveries)), me);
  }

  /** Every loss-free round is a run of the network, in which the initiator ends as the round says. */
  lemma RoundIsRun(r: Round, net: Network, me: Endpoint)
    requires LossFree(r) && IsSetUp(r, net, me)
    ensures At(Run(r.idOf, net, RoundOps(r, me)), me) == Finished(r)
  {
    var two := Run(r.idOf, Run(r.idOf, net, [InitiateOp(me, r.peers, r.nonces)]), HelloOps(r, me, r.peers));
    HelloPhases(r, net, me);
    DigestAll(r, two, me, r.arrivals);
    AnswerPhases(r, Run(r.idOf, two, DigestOps(r, me, r.arrivals)), me);
    RunPhases(r, net, me);
  }

  /** So in the network, a round without loss brings the initiator its old items and everything obtainable. */
  lemma RunFetchesEverything(r: Round, net: Network, me: Endpoint)
    requires LossFree(r) && IsSetUp(r, net, me)
    ensures forall i :: i in At(Run(r.idOf, net, RoundOps(r, me)), me).state <==>
                        i in At(net, me).state || Obtainable(r, i)
  {
    RoundIsRun(r, net, me);
    RoundFetchesEverything(r);
  }
}
