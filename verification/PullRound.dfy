/** One pull round in which nothing is lost: what the initiator ends up with, whatever the order and the
    repetition of deliveries, and whichever owner each item is requested from. */
module PullRound {
  import opened Sequences
  import opened Messages
  import opened Selection
  import opened PullEngines

  /** `responder` gives the engine at every endpoint, `egress` what it discloses to the initiator, and
      `listing` the order in which it lists its digest. `arrivals` are the endpoints whose digests reach
      the initiator, one after the other, and `deliveries` the requests whose responses do. */
  datatype Round = Round(
    idOf: Extractor, initiator: Engine, peers: seq<Endpoint>, nonces: seq<Nonce>,
    responder: Endpoint -> Engine, egress: (Endpoint, Item) -> bool, ingress: Item -> bool,
    listing: Endpoint -> seq<Item>, arrivals: seq<Endpoint>,
    draw: Item -> uint64, requests: seq<Request>, deliveries: seq<Request>)

  function EgressOf(r: Round, p: Endpoint): Item -> bool {
    i => r.egress(p, i)
  }

  function DigestOf(r: Round, p: Endpoint): seq<Item> {
    Filter(r.ingress, r.listing(p))
  }

  function Started(r: Round): Engine
    requires |r.peers| == |r.nonces|
  {
    Initiate(r.initiator, r.peers, r.nonces)
  }

  function NonceOf(r: Round, p: Endpoint): Nonce
    requires |r.peers| == |r.nonces|
  {
    if p in Started(r).peers2nonces then Started(r).peers2nonces[p] else 0
  }

  /** The initiator after some digests have arrived. */
  function Digested(r: Round, arrivals: seq<Endpoint>): Engine
    requires |r.peers| == |r.nonces|
  {
    if arrivals == [] then
      Started(r)
    else
      var n := |arrivals| - 1;
      OnDigest(Digested(r, arrivals[..n]), DigestOf(r, arrivals[n]), NonceOf(r, arrivals[n]))
  }

  /** What a responder that has seen the hello returns for a request; nothing if it sends nothing. */
  function Answer(r: Round, q: Request): seq<SignedMessage>
    requires |r.peers| == |r.nonces|
  {
    var e := OnHello(r.responder(q.dest), NonceOf(r, q.dest));
    match OnReq(e, q.items, q.nonce, EgressOf(r, q.dest))
    case None => []
    case Some(send) => SendRes(e, send)
  }

  /** The initiator after the digest timer and some responses. */
  function Answered(r: Round, deliveries: seq<Request>): Engine
    requires |r.peers| == |r.nonces|
  {
    if deliveries == [] then
      DigestTimeout(Digested(r, r.arrivals))
    else
      var n := |deliveries| - 1;
      OnRes(r.idOf, Answered(r, deliveries[..n]), Answer(r, deliveries[n]), deliveries[n].nonce)
  }

  /** The initiator when the round is over. */
  function Finished(r: Round): Engine
    requires |r.peers| == |r.nonces|
  {
    EndPull(Answered(r, r.deliveries))
  }

  ghost predicate Covered(idOf: Extractor, e: Engine) {
    forall i | i in e.state :: i in e.itemID2Msg && idOf(e.itemID2Msg[i]) == i
  }

  /** A round that starts from clean books, with distinct endpoints and distinct nonces. */
  ghost predicate Paired(r: Round) {
    && |r.peers| == |r.nonces| && Distinct(r.peers) && Distinct(r.nonces)
    && Booked(r.initiator) && r.initiator.outgoing == {} && r.initiator.item2owners == map[]
  }

  /** Every responder can supply what it has, and lists what it may disclose. */
  ghost predicate Responsive(r: Round, p: Endpoint) {
    && Covered(r.idOf, r.responder(p))
    && (forall i :: i in r.listing(p) <==> i in Offered(r.responder(p), EgressOf(r, p)))
  }

  /** The digests that arrive are from the selected peers, and none that is sent is missing. */
  ghost predicate Arrived(r: Round) {
    && (forall p | p in r.arrivals :: p in r.peers)
    && (forall p | p in r.peers && r.listing(p) != [] :: p in r.arrivals)
  }

  /** The requests are what the digest timer sends for the draws. */
  ghost predicate Requesting(r: Round)
    requires |r.peers| == |r.nonces|
  {
    var e := Digested(r, r.arrivals);
    (forall i | i in e.item2owners :: e.item2owners[i] != []) && Partition(e, Assigned(e, r.draw), r.requests)
  }

  /** Nothing is lost: every digest and every response arrives, in any order, perhaps repeatedly. */
  ghost predicate LossFree(r: Round) {
    && Paired(r) && (forall p | p in r.peers :: Responsive(r, p)) && Arrived(r) && Requesting(r)
    && (forall q :: q in r.requests <==> q in r.deliveries)
  }

  /** What the responders may hand over and the initiator lets in. */
  ghost predicate Obtainable(r: Round, i: Item) {
    exists p | p in r.peers :: i in r.responder(p).state && r.egress(p, i) && r.ingress(i)
  }

  lemma {:induction false} InitiateIssues(e: Engine, peers: seq<Endpoint>, nonces: seq<Nonce>, k: int)
    requires |peers| == |nonces| && Distinct(peers) && Distinct(nonces)
    ensures var s := Initiate(e, peers, nonces);
            && s.acceptingDigests && s.state == e.state && s.item2owners == e.item2owners
            && (0 <= k < |peers| ==>
                  peers[k] in s.peers2nonces && s.peers2nonces[peers[k]] == nonces[k] &&
                  nonces[k] in s.outgoing && nonces[k] in s.nonces2peers && s.nonces2peers[nonces[k]] == peers[k])
  {
    if peers == [] {
    } else {
      InitiateIssues(e, peers[..|peers| - 1], nonces[..|peers| - 1], k);
    }
  }

  lemma PeerHoldsNonce(r: Round, p: Endpoint)
    requires Paired(r) && p in r.peers
    ensures NonceOf(r, p) in Started(r).outgoing && PeerOf(Started(r), NonceOf(r, p)) == p
    ensures p in Started(r).peers2nonces && NonceOf(r, p) == Started(r).peers2nonces[p]
  {
    var k :| 0 <= k < |r.peers| && r.peers[k] == p;
    InitiateIssues(r.initiator, r.peers, r.nonces, k);
  }

  lemma {:induction false} AddOwnersAt(e: Engine, digest: seq<Item>, owner: Endpoint, i: Item)
    ensures var after := AddOwners(e, digest, owner);
            if i in digest && i !in e.state then
              && i in after && after[i] != []
              && (forall p | p in after[i] :: p == owner || (i in e.item2owners && p in e.item2owners[i]))
            else
              (i in after <==> i in e.item2owners) && (i in after ==> after[i] == e.item2owners[i])
  {
    if digest == [] {
    } else {
      AddOwnersAt(e, digest[..|digest| - 1], owner, i);
      assert digest == digest[..|digest| - 1] + [digest[|digest| - 1]];
    }
  }

  /** Between the hellos and the timer only the owners change. */
  lemma {:induction false} DigestedFrame(r: Round, arrivals: seq<Endpoint>)
    requires Paired(r) && forall p | p in arrivals :: p in r.peers
    ensures Digested(r, arrivals) == Started(r).(item2owners := Digested(r, arrivals).item2owners)
    ensures Digested(r, arrivals).acceptingDigests && Digested(r, arrivals).state == r.initiator.state
  {
    InitiateIssues(r.initiator, r.peers, r.nonces, -1);
    if arrivals == [] {
    } else {
      DigestedFrame(r, arrivals[..|arrivals| - 1]);
    }
  }

  ghost predicate Advertised(r: Round, arrivals: seq<Endpoint>, i: Item) {
    exists p | p in arrivals :: i in DigestOf(r, p)
  }

  /** An item has owners exactly if it is missing and was advertised, and only advertisers own it. */
  lemma {:induction false} DigestedAt(r: Round, arrivals: seq<Endpoint>, i: Item)
    requires Paired(r) && forall p | p in arrivals :: p in r.peers
    ensures var owners := Digested(r, arrivals).item2owners;
            && (i in owners <==> i !in r.initiator.state && Advertised(r, arrivals, i))
            && (i in owners ==> forall p | p in owners[i] :: p in arrivals && i in DigestOf(r, p))
  {
    if arrivals == [] {
      InitiateIssues(r.initiator, r.peers, r.nonces, -1);
    } else {
      var front, p := arrivals[..|arrivals| - 1], arrivals[|arrivals| - 1];
      assert arrivals == front + [p];
      DigestedAt(r, front, i);
      DigestedFrame(r, front);
      PeerHoldsNonce(r, p);
      AddOwnersAt(Digested(r, front), DigestOf(r, p), p, i);
    }
  }

  /** Every requested item was missing, and advertised by the endpoint it is requested from. */
  lemma RequestedWasAdvertised(r: Round, q: Request, i: Item)
    requires Paired(r) && Arrived(r) && Requesting(r) && q in r.requests && i in q.items
    ensures q.dest in r.peers && i in DigestOf(r, q.dest) && i !in r.initiator.state
    ensures q.nonce == NonceOf(r, q.dest)
  {
    var e := Digested(r, r.arrivals);
    DigestedAt(r, r.arrivals, i);
    assert i in Assigned(e, r.draw) && Assigned(e, r.draw)[i] == q.dest;
    assert q.dest in e.item2owners[i];
    DigestedFrame(r, r.arrivals);
    PeerHoldsNonce(r, q.dest);
  }

  lemma {:induction false} SendResCovers(idOf: Extractor, e: Engine, items: seq<Item>)
    requires forall i | i in items :: i in e.itemID2Msg && idOf(e.itemID2Msg[i]) == i
    ensures Ids(idOf, SendRes(e, items)) == set i | i in items
  {
    if items == [] {
    } else {
      var front, last := items[..|items| - 1], items[|items| - 1];
      assert items == front + [last];
      SendResCovers(idOf, e, front);
      assert Ids(idOf, SendRes(e, front) + [e.itemID2Msg[last]]) == Ids(idOf, SendRes(e, front)) + {last};
    }
  }

  /** A responder asked only for what it offers, under a nonce it has seen, returns exactly that. */
  lemma ServedInFull(idOf: Extractor, e: Engine, items: seq<Item>, nonce: Nonce, egress: Item -> bool)
    requires Covered(idOf, e) && nonce in e.incoming && items != []
    requires forall i | i in items :: i in Offered(e, egress)
    ensures OnReq(e, items, nonce, egress).Some?
    ensures Ids(idOf, SendRes(e, OnReq(e, items, nonce, egress).value)) == set i | i in items
  {
    var send := Filter(InSet(Offered(e, egress)), items);
    FilterMembers(InSet(Offered(e, egress)), items);
    assert items[0] in send;
    SendResCovers(idOf, e, send);
    assert (set i | i in send) == set i | i in items;
  }

  /** The response to a request carries exactly the requested items. */
  lemma AnswerIsComplete(r: Round, q: Request)
    requires LossFree(r) && q in r.requests
    ensures Ids(r.idOf, Answer(r, q)) == set i | i in q.items
    ensures q.items != [] ==> q.nonce in Started(r).outgoing
  {
    if q.items != [] {
      RequestedWasAdvertised(r, q, q.items[0]);
      PeerHoldsNonce(r, q.dest);
      var e := OnHello(r.responder(q.dest), NonceOf(r, q.dest));
      assert Responsive(r, q.dest);
      forall i | i in q.items
        ensures i in Offered(e, EgressOf(r, q.dest))
      {
        RequestedWasAdvertised(r, q, i);
        FilterMembers(r.ingress, r.listing(q.dest));
      }
      ServedInFull(r.idOf, e, q.items, q.nonce, EgressOf(r, q.dest));
    } else {
      assert Filter(InSet(Offered(OnHello(r.responder(q.dest), NonceOf(r, q.dest)), EgressOf(r, q.dest))),
                    q.items) == [];
    }
  }

  ghost predicate Requested(deliveries: seq<Request>, i: Item) {
    exists q | q in deliveries :: i in q.items
  }

  lemma {:induction false} AnsweredFrame(r: Round, deliveries: seq<Request>)
    requires Paired(r) && Arrived(r)
    ensures Answered(r, deliveries).acceptingResponses && Answered(r, deliveries).outgoing == Started(r).outgoing
  {
    if deliveries == [] {
      DigestedFrame(r, r.arrivals);
    } else {
      AnsweredFrame(r, deliveries[..|deliveries| - 1]);
    }
  }

  lemma {:induction false} AnsweredGrows(r: Round, deliveries: seq<Request>, i: Item)
    requires LossFree(r) && forall q | q in deliveries :: q in r.requests
    ensures i in Answered(r, deliveries).state <==> i in r.initiator.state || Requested(deliveries, i)
  {
    if deliveries == [] {
      DigestedFrame(r, r.arrivals);
    } else {
      var front, q := deliveries[..|deliveries| - 1], deliveries[|deliveries| - 1];
      assert deliveries == front + [q];
      AnsweredGrows(r, front, i);
      AnsweredFrame(r, front);
      AnswerIsComplete(r, q);
    }
  }

  lemma RequestedIsObtainable(r: Round, i: Item)
    requires LossFree(r) && Requested(r.deliveries, i)
    ensures Obtainable(r, i)
  {
    var q :| q in r.deliveries && i in q.items;
    RequestedWasAdvertised(r, q, i);
    FilterMembers(r.ingress, r.listing(q.dest));
    assert Responsive(r, q.dest);
  }

  lemma ObtainableIsRequested(r: Round, i: Item)
    requires LossFree(r) && Obtainable(r, i) && i !in r.initiator.state
    ensures Requested(r.deliveries, i)
  {
    var e := Digested(r, r.arrivals);
    var p :| p in r.peers && i in r.responder(p).state && r.egress(p, i) && r.ingress(i);
    assert Responsive(r, p) && i in Offered(r.responder(p), EgressOf(r, p));
    FilterMembers(r.ingress, r.listing(p));
    assert p in r.arrivals && i in DigestOf(r, p);
    DigestedAt(r, r.arrivals, i);
    assert i in Assigned(e, r.draw);
    var q :| q in r.requests && q.dest == Assigned(e, r.draw)[i] && i in q.items;
  }

  /** A loss-free round leaves the initiator with its old items and everything obtainable, and ready for
      the next round. */
  lemma RoundFetchesEverything(r: Round)
    requires LossFree(r)
    ensures forall i :: i in Finished(r).state <==> i in r.initiator.state || Obtainable(r, i)
    ensures Finished(r).outgoing == {} && Finished(r).item2owners == map[] && Booked(Finished(r))
  {
    forall i
      ensures i in Finished(r).state <==> i in r.initiator.state || Obtainable(r, i)
    {
      AnsweredGrows(r, r.deliveries, i);
      if Requested(r.deliveries, i) {
        RequestedIsObtainable(r, i);
      } else if Obtainable(r, i) && i !in r.initiator.state {
        ObtainableIsRequested(r, i);
      }
    }
  }
}
