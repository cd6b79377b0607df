/** The pull engine of gossip/channel.go and its mediator, at one node: the handlers of the four pull
    messages, the timers, and the books they keep. Every handler is one step. */
module PullEngines {
  import opened Sequences
  import opened Messages
  import opened Selection

  type Item = string
  type Nonce = uint64
  type Endpoint = string

  /** Which item a message carries. */
  type Extractor = SignedMessage -> Item

  datatype Engine = Engine(
    state: set<Item>,
    itemID2Msg: map<Item, SignedMessage>,
    item2owners: map<Item, seq<Endpoint>>,
    peers2nonces: map<Endpoint, Nonce>,
    nonces2peers: map<Nonce, Endpoint>,
    acceptingDigests: bool,
    acceptingResponses: bool,
    outgoing: set<Nonce>,
    incoming: set<Nonce>)

  const IDLE := Engine({}, map[], map[], map[], map[], false, false, {}, {})

  datatype Request = Request(dest: Endpoint, items: seq<Item>, nonce: Nonce)

  // ----- Specification of the handlers -----

  function Added(idOf: Extractor, e: Engine, m: SignedMessage): Engine {
    e.(itemID2Msg := e.itemID2Msg[idOf(m) := m], state := e.state + {idOf(m)})
  }

  /** Removing an item deletes its message and leaves the item in the state: the code looks up the
      characters of the item, one by one, in a set of strings. */
  function Removed(e: Engine, digest: Item): Engine {
    e.(itemID2Msg := e.itemID2Msg - {digest})
  }

  function Initiate(e: Engine, peers: seq<Endpoint>, nonces: seq<Nonce>): Engine
    requires |peers| == |nonces|
  {
    if peers == [] then
      e.(acceptingDigests := true)
    else
      var n := |peers| - 1;
      var before := Initiate(e, peers[..n], nonces[..n]);
      before.(outgoing := before.outgoing + {nonces[n]},
              nonces2peers := before.nonces2peers[nonces[n] := peers[n]],
              peers2nonces := before.peers2nonces[peers[n] := nonces[n]])
  }

  /** One hello for every selected peer, under its nonce. */
  function Hellos(peers: seq<Endpoint>, nonces: seq<Nonce>): seq<(Endpoint, Nonce)>
    requires |peers| == |nonces|
  {
    if peers == [] then []
    else var n := |peers| - 1;
         Hellos(peers[..n], nonces[..n]) + [(peers[n], nonces[n])]
  }

  lemma {:induction false} HellosAt(peers: seq<Endpoint>, nonces: seq<Nonce>)
    requires |peers| == |nonces|
    ensures |Hellos(peers, nonces)| == |peers|
    ensures forall k | 0 <= k < |peers| :: Hellos(peers, nonces)[k] == (peers[k], nonces[k])
  {
    if peers == [] {
    } else {
      var n := |peers| - 1;
      HellosAt(peers[..n], nonces[..n]);
    }
  }

  /** The nonces a round may draw: each was tried until it was not outstanding. */
  ghost predicate Unused(e: Engine, nonces: seq<Nonce>) {
    Distinct(nonces) && forall n | n in nonces :: n !in e.outgoing
  }

  function OnHello(e: Engine, nonce: Nonce): Engine {
    e.(incoming := e.incoming + {nonce})
  }

  /** The items a node offers, or serves, to a requester that `egress` admits. */
  function Offered(e: Engine, egress: Item -> bool): set<Item> {
    set i | i in e.state && egress(i)
  }

  function AddOwner(owners: map<Item, seq<Endpoint>>, item: Item, owner: Endpoint): map<Item, seq<Endpoint>> {
    owners[item := (if item in owners then owners[item] else []) + [owner]]
  }

  function AddOwners(e: Engine, digest: seq<Item>, owner: Endpoint): map<Item, seq<Endpoint>> {
    if digest == [] then
      e.item2owners
    else
      var before, item := AddOwners(e, digest[..|digest| - 1], owner), digest[|digest| - 1];
      if item in e.state then before else AddOwner(before, item, owner)
  }

  /** The peer a nonce was issued to; an unknown nonce reads as the empty endpoint. */
  function PeerOf(e: Engine, nonce: Nonce): Endpoint {
    if nonce in e.nonces2peers then e.nonces2peers[nonce] else ""
  }

  function OnDigest(e: Engine, digest: seq<Item>, nonce: Nonce): Engine {
    if e.acceptingDigests && nonce in e.outgoing
    then e.(item2owners := AddOwners(e, digest, PeerOf(e, nonce)))
    else e
  }

  function InSet(items: set<Item>): Item -> bool {
    i => i in items
  }

  /** The items of a request that are served; None if nothing is sent. */
  function OnReq(e: Engine, items: seq<Item>, nonce: Nonce, egress: Item -> bool): Option<seq<Item>> {
    var send := Filter(InSet(Offered(e, egress)), items);
    if nonce in e.incoming && send != [] then Some(send) else None
  }

  /** The messages of those items that are at hand when the response is put together. */
  function SendRes(e: Engine, items: seq<Item>): seq<SignedMessage> {
    if items == [] then
      []
    else
      var before, item := SendRes(e, items[..|items| - 1]), items[|items| - 1];
      if item in e.itemID2Msg then before + [e.itemID2Msg[item]] else before
  }

  function Stored(idOf: Extractor, m: map<Item, SignedMessage>, data: seq<SignedMessage>): map<Item, SignedMessage> {
    if data == [] then m
    else Stored(idOf, m, data[..|data| - 1])[idOf(data[|data| - 1]) := data[|data| - 1]]
  }

  function Ids(idOf: Extractor, data: seq<SignedMessage>): set<Item> {
    set m | m in data :: idOf(m)
  }

  function OnRes(idOf: Extractor, e: Engine, data: seq<SignedMessage>, nonce: Nonce): Engine {
    var stored := e.(itemID2Msg := Stored(idOf, e.itemID2Msg, data));
    if nonce in e.outgoing && e.acceptingResponses
    then stored.(state := e.state + Ids(idOf, data))
    else stored
  }

  /** The envelopes of an update in front of the first that cannot be parsed (None). */
  function Parsed(data: seq<Option<SignedMessage>>): (r: seq<SignedMessage>)
    ensures |r| <= |data|
    ensures forall k | 0 <= k < |r| :: data[k] == Some(r[k])
    ensures |r| < |data| ==> data[|r|] == None
  {
    if data == [] || data[0] == None then [] else [data[0].value] + Parsed(data[1..])
  }

  function Intact(data: seq<SignedMessage>): (r: seq<Option<SignedMessage>>)
    ensures |r| == |data| && forall k | 0 <= k < |data| :: r[k] == Some(data[k])
  {
    seq(|data|, k requires 0 <= k < |data| => Some(data[k]))
  }

  lemma ParsedIntact(data: seq<SignedMessage>)
    ensures Parsed(Intact(data)) == data
  {
  }

  /** An update with an envelope that cannot be parsed never reaches `onRes`: what precedes it is
      remembered, and is not taken into the state. */
  function OnUpdate(idOf: Extractor, e: Engine, data: seq<Option<SignedMessage>>, nonce: Nonce): Engine {
    if |Parsed(data)| == |data| then OnRes(idOf, e, Parsed(data), nonce)
    else e.(itemID2Msg := Stored(idOf, e.itemID2Msg, Parsed(data)))
  }

  function DigestTimeout(e: Engine): Engine {
    e.(acceptingDigests := false, acceptingResponses := true)
  }

  function EndPull(e: Engine): Engine {
    e.(acceptingResponses := false, outgoing := {}, item2owners := map[], peers2nonces := map[], nonces2peers := map[])
  }

  /** The timer set by `onHello`. */
  function ExpireIncoming(e: Engine, nonce: Nonce): Engine {
    e.(incoming := e.incoming - {nonce})
  }

  // ----- The books agree -----

  /** The outstanding nonces are exactly the keys of `nonces2peers`; every peer's nonce was issued to it;
      every advertised item has an owner, and every owner holds a nonce. */
  ghost predicate Booked(e: Engine) {
    && e.outgoing == e.nonces2peers.Keys
    && (forall p | p in e.peers2nonces :: e.peers2nonces[p] in e.nonces2peers && e.nonces2peers[e.peers2nonces[p]] == p)
    && (forall n | n in e.nonces2peers :: e.nonces2peers[n] in e.peers2nonces)
    && (forall i | i in e.item2owners :: e.item2owners[i] != [])
    && (forall i | i in e.item2owners :: forall o | o in e.item2owners[i] :: o in e.peers2nonces)
  }

  lemma {:induction false} InitiateIsBooked(e: Engine, peers: seq<Endpoint>, nonces: seq<Nonce>)
    requires Booked(e) && |peers| == |nonces| && Unused(e, nonces)
    ensures Booked(Initiate(e, peers, nonces))
    ensures forall n | n in Initiate(e, peers, nonces).outgoing :: n in e.outgoing || n in nonces
  {
    if peers == [] {
    } else {
      var n := |peers| - 1;
      assert nonces == nonces[..n] + [nonces[n]];
      InitiateIsBooked(e, peers[..n], nonces[..n]);
    }
  }

  lemma {:induction false} AddOwnersIsBooked(e: Engine, digest: seq<Item>, owner: Endpoint)
    requires Booked(e) && owner in e.peers2nonces
    ensures Booked(e.(item2owners := AddOwners(e, digest, owner)))
  {
    if digest == [] {
    } else {
      AddOwnersIsBooked(e, digest[..|digest| - 1], owner);
    }
  }

  lemma OnDigestIsBooked(e: Engine, digest: seq<Item>, nonce: Nonce)
    requires Booked(e)
    ensures Booked(OnDigest(e, digest, nonce))
  {
    if nonce in e.outgoing {
      AddOwnersIsBooked(e, digest, PeerOf(e, nonce));
    }
  }

  // ----- The request partition -----

  /** The owner each advertised item is requested from, given the draws. */
  function Assigned(e: Engine, draw: Item -> uint64): map<Item, Endpoint>
    requires forall i | i in e.item2owners :: e.item2owners[i] != []
  {
    map i | i in e.item2owners :: e.item2owners[i][RandomInt(draw(i), |e.item2owners[i]|)]
  }

  /** `mapping` lists every chosen item exactly once, under the owner it is chosen to. */
  ghost predicate Listed(chosen: map<Item, Endpoint>, mapping: map<Endpoint, seq<Item>>) {
    && (forall p | p in mapping :: Distinct(mapping[p]))
    && (forall p | p in mapping :: forall i | i in mapping[p] :: i in chosen && chosen[i] == p)
    && (forall i | i in chosen :: chosen[i] in mapping && i in mapping[chosen[i]])
  }

  /** The requests sent: one for each owner, each item exactly once and under a nonce issued to the owner
      it is requested from. */
  ghost predicate Partition(e: Engine, chosen: map<Item, Endpoint>, requests: seq<Request>) {
    && (forall j, k | 0 <= j < k < |requests| :: requests[j].dest != requests[k].dest)
    && (forall r | r in requests ::
          && Distinct(r.items)
          && (forall i | i in r.items :: i in chosen && chosen[i] == r.dest)
          && r.dest in e.peers2nonces && r.nonce == e.peers2nonces[r.dest])
    && (forall i | i in chosen :: exists r | r in requests :: r.dest == chosen[i] && i in r.items)
  }

  class PullEngine {
    const idOf: Extractor
    var state: set<Item>
    var itemID2Msg: map<Item, SignedMessage>
    var item2owners: map<Item, seq<Endpoint>>
    var peers2nonces: map<Endpoint, Nonce>
    var nonces2peers: map<Nonce, Endpoint>
    var acceptingDigests: bool
    var acceptingResponses: bool
    var outgoingNONCES: set<Nonce>
    var incomingNONCES: set<Nonce>

    constructor (idOf: Extractor)
      ensures this.idOf == idOf && State() == IDLE && Booked(State())
    {
      this.idOf := idOf;
      state, itemID2Msg, item2owners := {}, map[], map[];
      peers2nonces, nonces2peers := map[], map[];
      acceptingDigests, acceptingResponses := false, false;
      outgoingNONCES, incomingNONCES := {}, {};
    }

    ghost function State(): Engine
      reads this
    {
      Engine(state, itemID2Msg, item2owners, peers2nonces, nonces2peers,
             acceptingDigests, acceptingResponses, outgoingNONCES, incomingNONCES)
    }

    method Add(m: SignedMessage)
      modifies this
      ensures State() == Added(idOf, old(State()), m)
    {
      itemID2Msg := itemID2Msg[idOf(m) := m];
      state := state + {idOf(m)};
    }

    method Remove(digest: Item)
      modifies this
      ensures State() == Removed(old(State()), digest)
    {
      itemID2Msg := itemID2Msg - {digest};
    }

    /** `initiatePull` up to the timer; the nonces are those `newNONCE` settles on. */
    method InitiatePull(peers: seq<Endpoint>, nonces: seq<Nonce>) returns (hellos: seq<(Endpoint, Nonce)>)
      requires |peers| == |nonces|
      modifies this
      ensures State() == Initiate(old(State()), peers, nonces)
      ensures hellos == Hellos(peers, nonces)
      ensures |hellos| == |peers| && forall k | 0 <= k < |peers| :: hellos[k] == (peers[k], nonces[k])
    {
      acceptingDigests := true;
      hellos := [];
      for k := 0 to |peers|
        invariant State() == Initiate(old(State()), peers[..k], nonces[..k])
        invariant hellos == Hellos(peers[..k], nonces[..k])
      {
        assert peers[..k + 1][..k] == peers[..k] && nonces[..k + 1][..k] == nonces[..k];
        outgoingNONCES := outgoingNONCES + {nonces[k]};
        nonces2peers := nonces2peers[nonces[k] := peers[k]];
        peers2nonces := peers2nonces[peers[k] := nonces[k]];
        hellos := hellos + [(peers[k], nonces[k])];
      }
      assert peers[..|peers|] == peers && nonces[..|nonces|] == nonces;
      HellosAt(peers, nonces);
    }

    /** The digest answers a hello; an empty one is not sent. The set is listed in some order. */
    method HandleHello(nonce: Nonce, egress: Item -> bool) returns (digest: seq<Item>)
      modifies this
      ensures State() == OnHello(old(State()), nonce)
      ensures Distinct(digest) && forall i :: i in digest <==> i in old(state) && egress(i)
    {
      incomingNONCES := incomingNONCES + {nonce};
      digest := [];
      var rest := state;
      while rest != {}
        invariant rest <= state && Distinct(digest)
        invariant forall i :: i in digest <==> i in state && egress(i) && i !in rest
        decreases rest
      {
        var item :| item in rest;
        rest := rest - {item};
        if egress(item) {
          digest := digest + [item];
        }
      }
    }

    method HandleDigest(digest: seq<Item>, nonce: Nonce)
      requires Booked(State())
      modifies this
      ensures State() == OnDigest(old(State()), digest, nonce) && Booked(State())
    {
      OnDigestIsBooked(State(), digest, nonce);
      if !acceptingDigests || nonce !in outgoingNONCES {
        return;
      }
      ghost var before := State();
      for k := 0 to |digest|
        invariant State() == before.(item2owners := AddOwners(before, digest[..k], PeerOf(before, nonce)))
      {
        assert digest[..k + 1][..k] == digest[..k];
        var n := digest[k];
        if n in state {
          continue;
        }
        if n !in item2owners {
          item2owners := item2owners[n := []];
        }
        item2owners := item2owners[n := item2owners[n] + [nonces2peers[nonce]]];
      }
      assert digest[..|digest|] == digest;
    }

    method HandleReq(items: seq<Item>, nonce: Nonce, egress: Item -> bool) returns (send: Option<seq<Item>>)
      ensures send == OnReq(State(), items, nonce, egress)
      ensures nonce !in incomingNONCES ==> send == None
      ensures send.Some? ==> forall i :: i in send.value <==> i in items && i in state && egress(i)
      ensures send == None && nonce in incomingNONCES ==> forall i | i in items :: i !in state || !egress(i)
    {
      if nonce !in incomingNONCES {
        return None;
      }
      var items2Send: seq<Item> := [];
      for k := 0 to |items|
        invariant items2Send == Filter(InSet(Offered(State(), egress)), items[..k])
      {
        FilterStep(InSet(Offered(State(), egress)), items, k);
        if items[k] in state && egress(items[k]) {
          items2Send := items2Send + [items[k]];
        }
      }
      assert items[..|items|] == items;
      FilterMembers(InSet(Offered(State(), egress)), items);
      send := if |items2Send| == 0 then None else Some(items2Send);
    }

    method AssembleResponse(items: seq<Item>) returns (data: seq<SignedMessage>)
      ensures data == SendRes(State(), items)
    {
      data := [];
      for k := 0 to |items|
        invariant data == SendRes(State(), items[..k])
      {
        assert items[..k + 1][..k] == items[..k];
        if items[k] in itemID2Msg {
          data := data + [itemID2Msg[items[k]]];
        }
      }
      assert items[..|items|] == items;
    }

    /** The update branch of the mediator, with `onRes`. Every item is remembered and handed to the
        consumer; it joins the state only under an outstanding nonce while responses are accepted. */
    method HandleUpdate(data: seq<Option<SignedMessage>>, nonce: Nonce) returns (consumed: seq<SignedMessage>)
      modifies this
      ensures State() == OnUpdate(idOf, old(State()), data, nonce)
      ensures consumed == Parsed(data)
    {
      consumed := [];
      for k := 0 to |data|
        invariant |consumed| == k <= |Parsed(data)| && consumed == Parsed(data)[..k]
        invariant State() == old(State()).(itemID2Msg := Stored(idOf, old(itemID2Msg), consumed))
      {
        if data[k] == None {
          assert Parsed(data)[..k] == Parsed(data);
          return;
        }
        var msg := data[k].value;
        assert (consumed + [msg])[..k] == consumed;
        consumed := consumed + [msg];
        itemID2Msg := itemID2Msg[idOf(msg) := msg];
      }
      assert consumed == Parsed(data);
      HandleRes(consumed, nonce);
    }

    /** `onRes`, for items that have been remembered. */
    method HandleRes(data: seq<SignedMessage>, nonce: Nonce)
      modifies this
      ensures State() == old(State()).(state := if nonce in old(outgoingNONCES) && old(acceptingResponses)
                                                then old(state) + Ids(idOf, data) else old(state))
    {
      if nonce !in outgoingNONCES || !acceptingResponses {
        return;
      }
      for k := 0 to |data|
        invariant State() == old(State()).(state := old(state) + Ids(idOf, data[..k]))
      {
        assert data[..k + 1] == data[..k] + [data[k]];
        state := state + {idOf(data[k])};
      }
      assert data[..|data|] == data;
    }

    /** The digest timer: choose an owner for every advertised item, group the items by owner, and send
        one request to each. */
    method HandleDigestTimeout(draw: Item -> uint64) returns (requests: seq<Request>)
      requires Booked(State())
      modifies this
      ensures State() == DigestTimeout(old(State())) && Booked(State())
      ensures Partition(State(), Assigned(old(State()), draw), requests)
    {
      acceptingDigests := false;
      var requestMapping := MapRequests(draw);
      acceptingResponses := true;
      requests := SendRequests(Assigned(State(), draw), requestMapping);
    }

    /** One request for every owner in the mapping, in some order. */
    method SendRequests(ghost chosen: map<Item, Endpoint>, requestMapping: map<Endpoint, seq<Item>>)
      returns (requests: seq<Request>)
      requires Listed(chosen, requestMapping) && requestMapping.Keys <= peers2nonces.Keys
      ensures Partition(State(), chosen, requests)
    {
      requests := [];
      var rest := requestMapping.Keys;
      while rest != {}
        invariant rest <= requestMapping.Keys
        invariant forall j, k | 0 <= j < k < |requests| :: requests[j].dest != requests[k].dest
        invariant forall r | r in requests ::
                    r.dest in requestMapping && r.dest !in rest && r == RequestTo(requestMapping, r.dest)
        invariant forall p | p in requestMapping && p !in rest :: RequestTo(requestMapping, p) in requests
        decreases rest
      {
        var dest :| dest in rest;
        requests := requests + [RequestTo(requestMapping, dest)];
        rest := rest - {dest};
      }
      forall i | i in chosen
        ensures exists r | r in requests :: r.dest == chosen[i] && i in r.items
      {
        assert RequestTo(requestMapping, chosen[i]) in requests;
      }
    }

    function RequestTo(requestMapping: map<Endpoint, seq<Item>>, dest: Endpoint): Request
      requires dest in requestMapping && dest in peers2nonces
      reads this
    {
      Request(dest, requestMapping[dest], peers2nonces[dest])
    }

    method MapRequests(draw: Item -> uint64) returns (mapping: map<Endpoint, seq<Item>>)
      requires Booked(State())
      ensures Listed(Assigned(State(), draw), mapping)
      ensures mapping.Keys <= peers2nonces.Keys
    {
      ghost var chosen := Assigned(State(), draw);
      mapping := map[];
      var rest := item2owners.Keys;
      while rest != {}
        invariant rest <= item2owners.Keys
        invariant forall p | p in mapping :: p in peers2nonces && Distinct(mapping[p])
        invariant forall p | p in mapping :: forall i | i in mapping[p] :: i in chosen && chosen[i] == p && i !in rest
        invariant forall i | i in chosen && i !in rest :: chosen[i] in mapping && i in mapping[chosen[i]]
        decreases rest
      {
        var n :| n in rest;
        var sources := item2owners[n];
        var source := sources[RandomInt(draw(n), |sources|)];
        assert source in sources;
        if source !in mapping {
          mapping := mapping[source := []];
        }
        mapping := mapping[source := mapping[source] + [n]];
        rest := rest - {n};
      }
    }

    method HandleEndPull()
      modifies this
      ensures State() == EndPull(old(State())) && Booked(State())
    {
      acceptingResponses := false;
      outgoingNONCES := {};
      item2owners, peers2nonces, nonces2peers := map[], map[], map[];
    }
  }
}
