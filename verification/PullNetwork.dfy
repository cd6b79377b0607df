/** Many pull engines and the packets between them. Packets are never taken out of flight, so any of them
    may be delivered late, again, or not at all; rounds may overlap. */
module PullNetwork {
  import opened Sequences
  import opened Messages
  import opened Selection
  import opened PullEngines

  /** `Prepared` is a response that a node has decided to send and not yet put together. An envelope in
      an update may have become unreadable (None). */
  datatype Packet =
    | Hello(src: Endpoint, dst: Endpoint, nonce: Nonce)
    | Digest(src: Endpoint, dst: Endpoint, items: seq<Item>, nonce: Nonce)
    | Req(src: Endpoint, dst: Endpoint, items: seq<Item>, nonce: Nonce)
    | Prepared(src: Endpoint, dst: Endpoint, items: seq<Item>, nonce: Nonce)
    | Update(src: Endpoint, dst: Endpoint, data: seq<Option<SignedMessage>>, nonce: Nonce)

  /** `added` is the log of all messages added at some node. A node not in the map is idle. */
  datatype Network = Network(nodes: map<Endpoint, Engine>, flight: set<Packet>, added: set<SignedMessage>)

  const SILENT := Network(map[], {}, {})

  function At(net: Network, node: Endpoint): Engine {
    if node in net.nodes then net.nodes[node] else IDLE
  }

  function Put(net: Network, node: Endpoint, e: Engine): Network {
    net.(nodes := net.nodes[node := e])
  }

  /** The filters are those in force when the step is taken; they may change from step to step. `listing`
      and `requests` resolve the order in which a set or a map is walked. */
  datatype Op =
    | AddOp(node: Endpoint, m: SignedMessage)
    | RemoveOp(node: Endpoint, digest: Item)
    | InitiateOp(node: Endpoint, peers: seq<Endpoint>, nonces: seq<Nonce>)
    | HelloOp(p: Packet, egress: Item -> bool, listing: seq<Item>)
    | DigestOp(p: Packet, ingress: Item -> bool)
    | TimeoutOp(node: Endpoint, draw: Item -> uint64, requests: seq<Request>)
    | ReqOp(p: Packet, egress: Item -> bool)
    | SendOp(p: Packet, intact: SignedMessage -> bool)
    | ResOp(p: Packet, keep: Option<SignedMessage> -> bool)
    | EndOp(node: Endpoint)
    | ForgetNonceOp(node: Endpoint, nonce: Nonce)

  ghost predicate Enabled(net: Network, op: Op) {
    match op
    case AddOp(_, _) => true
    case RemoveOp(_, _) => true
    case InitiateOp(node, peers, nonces) => |peers| == |nonces| && Unused(At(net, node), nonces)
    case HelloOp(p, egress, listing) =>
      && p in net.flight && p.Hello?
      && Distinct(listing) && (forall i :: i in listing <==> i in Offered(At(net, p.dst), egress))
    case DigestOp(p, _) => p in net.flight && p.Digest?
    case TimeoutOp(node, draw, requests) =>
      && Booked(At(net, node))
      && Partition(At(net, node), Assigned(At(net, node), draw), requests)
    case ReqOp(p, _) => p in net.flight && p.Req?
    case SendOp(p, _) => p in net.flight && p.Prepared?
    case ResOp(p, _) => p in net.flight && p.Update?
    case EndOp(_) => true
    case ForgetNonceOp(_, _) => true
  }

  function HelloPackets(src: Endpoint, peers: seq<Endpoint>, nonces: seq<Nonce>): set<Packet>
    requires |peers| == |nonces|
  {
    set k | 0 <= k < |peers| :: Hello(src, peers[k], nonces[k])
  }

  /** The packets of a round's start are its hellos. */
  lemma HelloPacketsAreHellos(src: Endpoint, peers: seq<Endpoint>, nonces: seq<Nonce>)
    requires |peers| == |nonces|
    ensures HelloPackets(src, peers, nonces) == set h | h in Hellos(peers, nonces) :: Hello(src, h.0, h.1)
  {
    var hellos := Hellos(peers, nonces);
    HellosAt(peers, nonces);
    forall k | 0 <= k < |peers|
      ensures Hello(src, peers[k], nonces[k]) in set h | h in hellos :: Hello(src, h.0, h.1)
    {
      assert hellos[k] in hellos;
    }
    forall h | h in hellos
      ensures Hello(src, h.0, h.1) in HelloPackets(src, peers, nonces)
    {
      var k :| 0 <= k < |hellos| && hellos[k] == h;
    }
  }

  function Enveloped(data: seq<SignedMessage>, intact: SignedMessage -> bool): (r: seq<Option<SignedMessage>>)
    ensures |r| == |data|
    ensures forall k | 0 <= k < |data| :: r[k] == if intact(data[k]) then Some(data[k]) else None
  {
    seq(|data|, k requires 0 <= k < |data| => if intact(data[k]) then Some(data[k]) else None)
  }

  function RequestPackets(src: Endpoint, requests: seq<Request>): set<Packet> {
    set r | r in requests :: Req(src, r.dest, r.items, r.nonce)
  }

  ghost function Step(idOf: Extractor, net: Network, op: Op): Network
    requires Enabled(net, op)
  {
    match op
    case AddOp(node, m) =>
      Put(net, node, Added(idOf, At(net, node), m)).(added := net.added + {m})
    case RemoveOp(node, digest) =>
      Put(net, node, Removed(At(net, node), digest))
    case InitiateOp(node, peers, nonces) =>
      Put(net, node, Initiate(At(net, node), peers, nonces)).(flight := net.flight + HelloPackets(node, peers, nonces))
    case HelloOp(p, egress, listing) =>
      Put(net, p.dst, OnHello(At(net, p.dst), p.nonce)).(
        flight := if listing == [] then net.flight else net.flight + {Digest(p.dst, p.src, listing, p.nonce)})
    case DigestOp(p, ingress) =>
      Put(net, p.dst, OnDigest(At(net, p.dst), Filter(ingress, p.items), p.nonce))
    case TimeoutOp(node, draw, requests) =>
      Put(net, node, DigestTimeout(At(net, node))).(flight := net.flight + RequestPackets(node, requests))
    case ReqOp(p, egress) =>
      var send := OnReq(At(net, p.dst), p.items, p.nonce, egress);
      if send.None? then net else net.(flight := net.flight + {Prepared(p.dst, p.src, send.value, p.nonce)})
    case SendOp(p, intact) =>
      net.(flight := net.flight + {Update(p.src, p.dst, Enveloped(SendRes(At(net, p.src), p.items), intact), p.nonce)})
    case ResOp(p, keep) =>
      Put(net, p.dst, OnUpdate(idOf, At(net, p.dst), Filter(keep, p.data), p.nonce))
    case EndOp(node) =>
      Put(net, node, EndPull(At(net, node)))
    case ForgetNonceOp(node, nonce) =>
      Put(net, node, ExpireIncoming(At(net, node), nonce))
  }

  // ----- Provenance -----

  function Origins(idOf: Extractor, added: set<SignedMessage>): set<Item> {
    set m | m in added :: idOf(m)
  }

  /** All a node knows was added somewhere: its items, its messages, and what it was told others have. */
  ghost predicate Honest(idOf: Extractor, added: set<SignedMessage>, e: Engine) {
    && e.state <= Origins(idOf, added)
    && e.item2owners.Keys <= Origins(idOf, added)
    && (forall i | i in e.itemID2Msg :: e.itemID2Msg[i] in added && idOf(e.itemID2Msg[i]) == i)
  }

  ghost predicate HonestPacket(idOf: Extractor, added: set<SignedMessage>, p: Packet) {
    match p
    case Hello(_, _, _) => true
    case Digest(_, _, items, _) => forall i | i in items :: i in Origins(idOf, added)
    case Req(_, _, items, _) => forall i | i in items :: i in Origins(idOf, added)
    case Prepared(_, _, items, _) => forall i | i in items :: i in Origins(idOf, added)
    case Update(_, _, data, _) => forall d | d in data :: d.Some? ==> d.value in added
  }

  ghost predicate Invariant(idOf: Extractor, net: Network) {
    && (forall node :: Booked(At(net, node)))
    && (forall node :: Honest(idOf, net.added, At(net, node)))
    && (forall p | p in net.flight :: HonestPacket(idOf, net.added, p))
  }

  lemma {:induction false} InitiateIsHonest(idOf: Extractor, added: set<SignedMessage>, e: Engine,
                                            peers: seq<Endpoint>, nonces: seq<Nonce>)
    requires Honest(idOf, added, e) && |peers| == |nonces|
    ensures Honest(idOf, added, Initiate(e, peers, nonces))
  {
    if peers == [] {
    } else {
      InitiateIsHonest(idOf, added, e, peers[..|peers| - 1], nonces[..|peers| - 1]);
    }
  }

  lemma {:induction false} AddOwnersKeys(e: Engine, digest: seq<Item>, owner: Endpoint)
    ensures forall i :: i in AddOwners(e, digest, owner) <==> i in e.item2owners || (i in digest && i !in e.state)
  {
    if digest == [] {
    } else {
      AddOwnersKeys(e, digest[..|digest| - 1], owner);
      assert digest == digest[..|digest| - 1] + [digest[|digest| - 1]];
    }
  }

  lemma {:induction false} StoredIsHonest(idOf: Extractor, added: set<SignedMessage>, m: map<Item, SignedMessage>,
                                          data: seq<SignedMessage>)
    requires forall i | i in m :: m[i] in added && idOf(m[i]) == i
    requires forall d | d in data :: d in added
    ensures forall i | i in Stored(idOf, m, data) ::
              Stored(idOf, m, data)[i] in added && idOf(Stored(idOf, m, data)[i]) == i
  {
    if data == [] {
    } else {
      StoredIsHonest(idOf, added, m, data[..|data| - 1]);
    }
  }

  lemma {:induction false} SendResIsHonest(idOf: Extractor, added: set<SignedMessage>, e: Engine, items: seq<Item>)
    requires Honest(idOf, added, e)
    ensures forall m | m in SendRes(e, items) :: m in added && idOf(m) in items
  {
    if items == [] {
    } else {
      SendResIsHonest(idOf, added, e, items[..|items| - 1]);
      assert items == items[..|items| - 1] + [items[|items| - 1]];
    }
  }

  /** A step changes one node, sends some packets, and may add one message. */
  lemma StepByParts(idOf: Extractor, net: Network, after: Network, node: Endpoint)
    requires Invariant(idOf, net) && net.added <= after.added
    requires Booked(At(after, node)) && Honest(idOf, after.added, At(after, node))
    requires forall n | n != node :: At(after, n) == At(net, n)
    requires forall p | p in after.flight :: p in net.flight || HonestPacket(idOf, after.added, p)
    ensures Invariant(idOf, after)
  {
    assert Origins(idOf, net.added) <= Origins(idOf, after.added);
    forall n
      ensures Booked(At(after, n)) && Honest(idOf, after.added, At(after, n))
    {
      if n != node {
        assert Honest(idOf, net.added, At(net, n)) && Booked(At(net, n));
      }
    }
  }

  lemma LocalStepKeepsInvariant(idOf: Extractor, net: Network, op: Op)
    requires Invariant(idOf, net) && Enabled(net, op)
    requires op.AddOp? || op.RemoveOp? || op.InitiateOp? || op.TimeoutOp? || op.EndOp? || op.ForgetNonceOp?
    ensures Invariant(idOf, Step(idOf, net, op))
  {
    var e := At(net, op.node);
    assert Honest(idOf, net.added, e) && Booked(e);
    if op.InitiateOp? {
      InitiateIsBooked(e, op.peers, op.nonces);
      InitiateIsHonest(idOf, net.added, e, op.peers, op.nonces);
    }
    StepByParts(idOf, net, Step(idOf, net, op), op.node);
  }

  lemma ServingKeepsInvariant(idOf: Extractor, net: Network, op: Op)
    requires Invariant(idOf, net) && Enabled(net, op)
    requires op.HelloOp? || op.ReqOp? || op.SendOp?
    ensures Invariant(idOf, Step(idOf, net, op))
  {
    var node := if op.SendOp? then op.p.src else op.p.dst;
    var e := At(net, node);
    assert Honest(idOf, net.added, e) && Booked(e) && HonestPacket(idOf, net.added, op.p);
    if op.ReqOp? {
      FilterMembers(InSet(Offered(e, op.egress)), op.p.items);
    } else if op.SendOp? {
      SendResIsHonest(idOf, net.added, e, op.p.items);
    }
    StepByParts(idOf, net, Step(idOf, net, op), node);
  }

  lemma DigestKeepsInvariant(idOf: Extractor, net: Network, p: Packet, ingress: Item -> bool)
    requires Invariant(idOf, net) && p in net.flight && p.Digest?
    ensures Invariant(idOf, Step(idOf, net, DigestOp(p, ingress)))
  {
    var e, digest := At(net, p.dst), Filter(ingress, p.items);
    assert Honest(idOf, net.added, e) && Booked(e) && HonestPacket(idOf, net.added, p);
    FilterMembers(ingress, p.items);
    OnDigestIsBooked(e, digest, p.nonce);
    AddOwnersKeys(e, digest, PeerOf(e, p.nonce));
    StepByParts(idOf, net, Step(idOf, net, DigestOp(p, ingress)), p.dst);
  }

  lemma StoringIsHonest(idOf: Extractor, added: set<SignedMessage>, e: Engine, data: seq<SignedMessage>)
    requires Honest(idOf, added, e) && Booked(e) && forall m | m in data :: m in added
    ensures var after := e.(itemID2Msg := Stored(idOf, e.itemID2Msg, data));
            Honest(idOf, added, after) && Booked(after)
  {
    StoredIsHonest(idOf, added, e.itemID2Msg, data);
  }

  lemma OnResIsHonest(idOf: Extractor, added: set<SignedMessage>, e: Engine, data: seq<SignedMessage>, nonce: Nonce)
    requires Honest(idOf, added, e) && Booked(e) && forall m | m in data :: m in added
    ensures Honest(idOf, added, OnRes(idOf, e, data, nonce)) && Booked(OnRes(idOf, e, data, nonce))
  {
    StoringIsHonest(idOf, added, e, data);
    assert Ids(idOf, data) <= Origins(idOf, added);
  }

  lemma ParsedWasSent(added: set<SignedMessage>, data: seq<Option<SignedMessage>>)
    requires forall d | d in data :: d.Some? ==> d.value in added
    ensures forall m | m in Parsed(data) :: m in added
  {
    forall m | m in Parsed(data)
      ensures m in added
    {
      var k :| 0 <= k < |Parsed(data)| && Parsed(data)[k] == m;
      assert data[k] in data;
    }
  }

  /** However much of it can be read, an update leaves the node honest and its books in agreement. */
  lemma OnUpdateIsHonest(idOf: Extractor, added: set<SignedMessage>, e: Engine, data: seq<Option<SignedMessage>>,
                         nonce: Nonce)
    requires Honest(idOf, added, e) && Booked(e) && forall d | d in data :: d.Some? ==> d.value in added
    ensures Honest(idOf, added, OnUpdate(idOf, e, data, nonce)) && Booked(OnUpdate(idOf, e, data, nonce))
  {
    ParsedWasSent(added, data);
    StoringIsHonest(idOf, added, e, Parsed(data));
    if |Parsed(data)| == |data| {
      OnResIsHonest(idOf, added, e, Parsed(data), nonce);
    }
  }

  lemma UpdateKeepsInvariant(idOf: Extractor, net: Network, p: Packet, keep: Option<SignedMessage> -> bool)
    requires Invariant(idOf, net) && p in net.flight && p.Update?
    ensures Invariant(idOf, Step(idOf, net, ResOp(p, keep)))
  {
    assert Honest(idOf, net.added, At(net, p.dst)) && Booked(At(net, p.dst)) && HonestPacket(idOf, net.added, p);
    FilterMembers(keep, p.data);
    OnUpdateIsHonest(idOf, net.added, At(net, p.dst), Filter(keep, p.data), p.nonce);
    StepByParts(idOf, net, Step(idOf, net, ResOp(p, keep)), p.dst);
  }

  /** A run; an operation that is not enabled when its turn comes does nothing. */
  ghost function Run(idOf: Extractor, net: Network, ops: seq<Op>): Network {
    if ops == [] then
      net
    else
      var before := Run(idOf, net, ops[..|ops| - 1]);
      if Enabled(before, ops[|ops| - 1]) then Step(idOf, before, ops[|ops| - 1]) else before
  }

  /** In every run from silence, with loss, duplication, reordering and overlapping rounds: all engines'
      books agree, and every item and message anywhere was added at some node. */
  lemma {:induction false} NothingFromNowhere(idOf: Extractor, ops: seq<Op>)
    ensures Invariant(idOf, Run(idOf, SILENT, ops))
  {
    if ops == [] {
    } else {
      var before, op := Run(idOf, SILENT, ops[..|ops| - 1]), ops[|ops| - 1];
      NothingFromNowhere(idOf, ops[..|ops| - 1]);
      if Enabled(before, op) {
        if op.HelloOp? || op.ReqOp? || op.SendOp? {
          ServingKeepsInvariant(idOf, before, op);
        } else if op.DigestOp? {
          DigestKeepsInvariant(idOf, before, op.p, op.ingress);
        } else if op.ResOp? {
          UpdateKeepsInvariant(idOf, before, op.p, op.keep);
        } else {
          LocalStepKeepsInvariant(idOf, before, op);
        }
      }
    }
  }

  lemma {:induction false} InitiateKeepsState(e: Engine, peers: seq<Endpoint>, nonces: seq<Nonce>)
    requires |peers| == |nonces|
    ensures Initiate(e, peers, nonces).state == e.state
  {
    if peers == [] {
    } else {
      InitiateKeepsState(e, peers[..|peers| - 1], nonces[..|peers| - 1]);
    }
  }

  /** A node's item set grows only when a message is added there, or by an update delivered under one of
      its outstanding nonces while it accepts responses; and it never shrinks. */
  lemma StateGrowth(idOf: Extractor, net: Network, op: Op, node: Endpoint)
    requires Invariant(idOf, net) && Enabled(net, op)
    ensures At(net, node).state <= At(Step(idOf, net, op), node).state
    ensures At(net, node).state != At(Step(idOf, net, op), node).state ==>
              || (op.AddOp? && op.node == node)
              || (op.ResOp? && op.p.dst == node && op.p.nonce in At(net, node).nonces2peers
                  && At(net, node).acceptingResponses)
  {
    if op.InitiateOp? && op.node == node {
      InitiateKeepsState(At(net, node), op.peers, op.nonces);
    }
    assert Booked(At(net, node));
  }
}
