/** What the pull handlers refuse: which packets change nothing, and that nothing leaves a node that its egress
    filter withholds. */
module PullDisclosure {
  import opened Sequences
  import opened Messages
  import opened Selection
  import opened PullEngines
  import opened PullNetwork

  // ----- Handlers -----

  /** A request is served exactly with those of its items that are present and that the filter in force lets out,
      and only under a nonce that a hello has brought and that has not expired since. */
  lemma ServedExactly(e: Engine, items: seq<Item>, nonce: Nonce, egress: Item -> bool)
    ensures var send := OnReq(e, items, nonce, egress);
            && (send.Some? <==> nonce in e.incoming && exists i | i in items :: i in e.state && egress(i))
            && (send.Some? ==> forall i :: i in send.value <==> i in items && i in e.state && egress(i))
  {
    var send := Filter(InSet(Offered(e, egress)), items);
    FilterMembers(InSet(Offered(e, egress)), items);
    if i :| i in items && i in e.state && egress(i) {
      assert i in send;
    }
    if send != [] {
      assert send[0] in send;
    }
  }

  /** A hello opens its nonce for requests, the timer closes it, and neither does anything else. */
  lemma NonceWindow(e: Engine, nonce: Nonce, items: seq<Item>, egress: Item -> bool)
    ensures nonce in OnHello(e, nonce).incoming
    ensures OnReq(ExpireIncoming(e, nonce), items, nonce, egress) == None
    ensures OnHello(e, nonce).(incoming := e.incoming) == e && ExpireIncoming(e, nonce).(incoming := e.incoming) == e
    ensures forall n | n != nonce ::
              (n in OnHello(e, nonce).incoming <==> n in e.incoming)
              && (n in ExpireIncoming(e, nonce).incoming <==> n in e.incoming)
  {
  }

  /** How often an item is listed. */
  function Listings(digest: seq<Item>, i: Item): nat {
    if digest == [] then 0
    else Listings(digest[..|digest| - 1], i) + if digest[|digest| - 1] == i then 1 else 0
  }

  function Times(owner: Endpoint, n: nat): seq<Endpoint> {
    if n == 0 then [] else Times(owner, n - 1) + [owner]
  }

  function OwnersOf(owners: map<Item, seq<Endpoint>>, i: Item): seq<Endpoint> {
    if i in owners then owners[i] else []
  }

  lemma {:induction false} OwnersExactly(e: Engine, digest: seq<Item>, owner: Endpoint, i: Item)
    ensures var before, after := OwnersOf(e.item2owners, i), OwnersOf(AddOwners(e, digest, owner), i);
            after == before + if i in e.state then [] else Times(owner, Listings(digest, i))
  {
    if digest == [] {
    } else {
      OwnersExactly(e, digest[..|digest| - 1], owner, i);
    }
  }

  /** A digest counts only while digests are accepted and under an outstanding nonce; then each of its items that
      is missing gains the peer holding the nonce as owner, once for each time it is listed. */
  lemma DigestExactly(e: Engine, digest: seq<Item>, nonce: Nonce, i: Item)
    requires Booked(e)
    ensures var after := OnDigest(e, digest, nonce);
            && (!e.acceptingDigests || nonce !in e.nonces2peers ==> after == e)
            && after.(item2owners := e.item2owners) == e
            && (e.acceptingDigests && nonce in e.nonces2peers && i !in e.state ==>
                  OwnersOf(after.item2owners, i)
                  == OwnersOf(e.item2owners, i) + Times(e.nonces2peers[nonce], Listings(digest, i)))
            && (i in e.state ==> OwnersOf(after.item2owners, i) == OwnersOf(e.item2owners, i))
  {
    OwnersExactly(e, digest, PeerOf(e, nonce), i);
  }

  lemma {:induction false} StoredExactly(idOf: Extractor, m: map<Item, SignedMessage>, data: seq<SignedMessage>,
                                         i: Item)
    ensures i in Stored(idOf, m, data) <==> i in m || exists d | d in data :: idOf(d) == i
    ensures i in Stored(idOf, m, data) ==>
              || (Stored(idOf, m, data)[i] in data && idOf(Stored(idOf, m, data)[i]) == i)
              || (i in m && Stored(idOf, m, data)[i] == m[i] && forall d | d in data :: idOf(d) != i)
  {
    if data == [] {
    } else {
      var n := |data| - 1;
      StoredExactly(idOf, m, data[..n], i);
      assert data == data[..n] + [data[n]];
    }
  }

  /** An update, solicited or not, is remembered as far as it can be read; its items are taken in exactly if all of
      it can be read, under an outstanding nonce, while responses are accepted. */
  lemma UpdateExactly(idOf: Extractor, e: Engine, data: seq<Option<SignedMessage>>, nonce: Nonce, i: Item)
    ensures var after, parsed := OnUpdate(idOf, e, data, nonce), Parsed(data);
            && after.(itemID2Msg := e.itemID2Msg, state := e.state) == e
            && (i in after.itemID2Msg <==> i in e.itemID2Msg || exists d | d in parsed :: idOf(d) == i)
            && (i in after.itemID2Msg ==>
                  || (after.itemID2Msg[i] in parsed && idOf(after.itemID2Msg[i]) == i)
                  || (i in e.itemID2Msg && after.itemID2Msg[i] == e.itemID2Msg[i]))
            && (i in after.state <==>
                  || i in e.state
                  || ((forall k | 0 <= k < |data| :: data[k] != None) && nonce in e.outgoing && e.acceptingResponses
                      && exists d | d in parsed :: idOf(d) == i))
  {
    StoredExactly(idOf, e.itemID2Msg, Parsed(data), i);
    if |Parsed(data)| == |data| {
      forall k | 0 <= k < |data|
        ensures data[k] != None
      {
        assert data[k] == Some(Parsed(data)[k]);
      }
    }
  }

  lemma {:induction false} InitiateFrame(e: Engine, peers: seq<Endpoint>, nonces: seq<Nonce>)
    requires |peers| == |nonces|
    ensures var after := Initiate(e, peers, nonces);
            && after.acceptingDigests && after.acceptingResponses == e.acceptingResponses
            && after.state == e.state && after.itemID2Msg == e.itemID2Msg && after.item2owners == e.item2owners
            && after.incoming == e.incoming
  {
    if peers == [] {
    } else {
      InitiateFrame(e, peers[..|peers| - 1], nonces[..|peers| - 1]);
    }
  }

  /** The phases of a round: digests are heard from its start to the digest timer, responses from the timer to its
      end, and neither in between two rounds. */
  lemma PhasesGate(idOf: Extractor, e: Engine, peers: seq<Endpoint>, nonces: seq<Nonce>, digest: seq<Item>,
                   data: seq<SignedMessage>, nonce: Nonce)
    requires |peers| == |nonces|
    ensures Initiate(e, peers, nonces).acceptingDigests
    ensures OnDigest(DigestTimeout(e), digest, nonce) == DigestTimeout(e) && DigestTimeout(e).acceptingResponses
    ensures OnDigest(EndPull(e), digest, nonce) == EndPull(e)
    ensures OnRes(idOf, EndPull(e), data, nonce).state == e.state
    ensures OnRes(idOf, Initiate(EndPull(e), peers, nonces), data, nonce).state == e.state
  {
    InitiateFrame(EndPull(e), peers, nonces);
    InitiateFrame(e, peers, nonces);
  }

  /** A response carries the messages at hand for the items, and no others. */
  lemma {:induction false} ResponseExactly(e: Engine, items: seq<Item>, m: SignedMessage)
    ensures m in SendRes(e, items) <==> exists i | i in items :: i in e.itemID2Msg && e.itemID2Msg[i] == m
  {
    if items == [] {
    } else {
      var n := |items| - 1;
      ResponseExactly(e, items[..n], m);
      assert items == items[..n] + [items[n]];
    }
  }

  /** Each advertised item is requested from one of its owners, and each owner can be the one. */
  lemma AssignedToOwner(e: Engine, draw: Item -> uint64, i: Item)
    requires Booked(e) && i in e.item2owners
    ensures i in Assigned(e, draw) && Assigned(e, draw)[i] in e.item2owners[i]
  {
  }

  lemma SmallDraw(k: nat, n: int)
    requires k < n && k < TWO_63
    ensures RandomInt(k, n) == k
  {
  }

  lemma AnyOwnerCanBeAsked(e: Engine, i: Item, k: nat)
    requires Booked(e) && i in e.item2owners && k < |e.item2owners[i]| && k < TWO_63
    ensures exists draw: Item -> uint64 :: Assigned(e, draw)[i] == e.item2owners[i][k]
  {
    var draw: Item -> uint64 := (j: Item) => k as uint64;
    SmallDraw(k, |e.item2owners[i]|);
    assert i in Assigned(e, draw) && Assigned(e, draw)[i] == e.item2owners[i][RandomInt(draw(i), |e.item2owners[i]|)];
  }

  // ----- Networks -----

  /** The k-th operation of the run is the request step that prepared these items, and the egress filter then in
      force let all of them out. */
  ghost predicate WasLetOut(idOf: Extractor, ops: seq<Op>, k: nat, src: Endpoint, dst: Endpoint, nonce: Nonce,
                            items: seq<Item>)
  {
    && k < |ops| && ops[k].ReqOp? && ops[k].p.Req?
    && ops[k].p.dst == src && ops[k].p.src == dst && ops[k].p.nonce == nonce
    && forall i | i in items ::
         i in ops[k].p.items && i in At(Run(idOf, SILENT, ops[..k]), src).state && ops[k].egress(i)
  }

  /** Where a packet that carries items to a requester comes from. */
  ghost predicate IsDisclosed(idOf: Extractor, ops: seq<Op>, p: Packet) {
    match p
    case Prepared(src, dst, items, nonce) => exists k :: WasLetOut(idOf, ops, k, src, dst, nonce, items)
    case Update(src, dst, data, nonce) =>
      exists k, items :: WasLetOut(idOf, ops, k, src, dst, nonce, items)
                         && forall d | d in data && d.Some? :: idOf(d.value) in items
    case Digest(src, dst, items, nonce) =>
      exists k | 0 <= k < |ops| ::
        && ops[k].HelloOp? && ops[k].p.dst == src && ops[k].p.src == dst && ops[k].p.nonce == nonce
        && forall i | i in items :: i in At(Run(idOf, SILENT, ops[..k]), src).state && ops[k].egress(i)
    case _ => true
  }

  lemma DisclosedInMore(idOf: Extractor, ops: seq<Op>, op: Op, p: Packet)
    requires IsDisclosed(idOf, ops, p)
    ensures IsDisclosed(idOf, ops + [op], p)
  {
    var more := ops + [op];
    forall k | 0 <= k < |ops|
      ensures more[k] == ops[k] && more[..k] == ops[..k]
    {
    }
    match p
    case Prepared(src, dst, items, nonce) =>
      var k :| WasLetOut(idOf, ops, k, src, dst, nonce, items);
      assert WasLetOut(idOf, more, k, src, dst, nonce, items);
    case Update(src, dst, data, nonce) =>
      var k, items :| WasLetOut(idOf, ops, k, src, dst, nonce, items)
                      && forall d | d in data && d.Some? :: idOf(d.value) in items;
      assert WasLetOut(idOf, more, k, src, dst, nonce, items);
    case Digest(_, _, _, _) =>
    case _ =>
  }

  lemma SentIsDisclosed(idOf: Extractor, ops: seq<Op>, q: Packet, intact: SignedMessage -> bool)
    requires var net := Run(idOf, SILENT, ops);
             q in net.flight && q.Prepared? && Invariant(idOf, net) && IsDisclosed(idOf, ops, q)
    ensures var net := Run(idOf, SILENT, ops);
            IsDisclosed(idOf, ops, Update(q.src, q.dst, Enveloped(SendRes(At(net, q.src), q.items), intact), q.nonce))
  {
    var e := At(Run(idOf, SILENT, ops), q.src);
    assert Honest(idOf, Run(idOf, SILENT, ops).added, e);
    SendResIsHonest(idOf, Run(idOf, SILENT, ops).added, e, q.items);
    var k :| WasLetOut(idOf, ops, k, q.src, q.dst, q.nonce, q.items);
    forall d | d in Enveloped(SendRes(e, q.items), intact) && d.Some?
      ensures idOf(d.value) in q.items
    {
      assert d.value in SendRes(e, q.items);
    }
  }

  lemma PreparedIsDisclosed(idOf: Extractor, ops: seq<Op>, op: Op)
    requires op.ReqOp? && Enabled(Run(idOf, SILENT, ops), op)
    ensures var send := OnReq(At(Run(idOf, SILENT, ops), op.p.dst), op.p.items, op.p.nonce, op.egress);
            send.Some? ==> IsDisclosed(idOf, ops + [op], Prepared(op.p.dst, op.p.src, send.value, op.p.nonce))
  {
    var e, more := At(Run(idOf, SILENT, ops), op.p.dst), ops + [op];
    var send := OnReq(e, op.p.items, op.p.nonce, op.egress);
    ServedExactly(e, op.p.items, op.p.nonce, op.egress);
    assert more[..|ops|] == ops && more[|ops|] == op;
    if send.Some? {
      assert WasLetOut(idOf, more, |ops|, op.p.dst, op.p.src, op.p.nonce, send.value);
    }
  }

  lemma DigestIsDisclosed(idOf: Extractor, ops: seq<Op>, op: Op)
    requires op.HelloOp? && Enabled(Run(idOf, SILENT, ops), op)
    ensures IsDisclosed(idOf, ops + [op], Digest(op.p.dst, op.p.src, op.listing, op.p.nonce))
  {
    var more := ops + [op];
    assert more[..|ops|] == ops && more[|ops|] == op;
  }

  lemma StepDiscloses(idOf: Extractor, ops: seq<Op>, op: Op, p: Packet)
    requires var net := Run(idOf, SILENT, ops);
             Invariant(idOf, net) && Enabled(net, op) && p in Step(idOf, net, op).flight
    requires forall q | q in Run(idOf, SILENT, ops).flight :: IsDisclosed(idOf, ops, q)
    ensures IsDisclosed(idOf, ops + [op], p)
  {
    var net := Run(idOf, SILENT, ops);
    if p in net.flight {
      DisclosedInMore(idOf, ops, op, p);
    } else if op.HelloOp? {
      DigestIsDisclosed(idOf, ops, op);
    } else if op.ReqOp? {
      PreparedIsDisclosed(idOf, ops, op);
    } else if op.SendOp? {
      SentIsDisclosed(idOf, ops, op.p, op.intact);
      DisclosedInMore(idOf, ops, op, p);
    }
  }

  /** In every network run, whatever is on its way to a requester passed the egress filter in force at the step that
      offered or prepared it. */
  lemma {:induction false} NothingWithheldLeaves(idOf: Extractor, ops: seq<Op>, p: Packet)
    requires p in Run(idOf, SILENT, ops).flight
    ensures IsDisclosed(idOf, ops, p)
  {
    if ops == [] {
    } else {
      var front, op := ops[..|ops| - 1], ops[|ops| - 1];
      assert ops == front + [op];
      NothingFromNowhere(idOf, front);
      if Enabled(Run(idOf, SILENT, front), op) {
        forall q | q in Run(idOf, SILENT, front).flight
          ensures IsDisclosed(idOf, front, q)
        {
          NothingWithheldLeaves(idOf, front, q);
        }
        StepDiscloses(idOf, front, op, p);
      } else {
        NothingWithheldLeaves(idOf, front, p);
        DisclosedInMore(idOf, front, op, p);
      }
    }
  }
}
