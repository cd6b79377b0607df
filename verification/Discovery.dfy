/** The discovery service of gossip/discovery.go: the membership view, the store of alive messages, and
    the handlers that change them. Every handler is one step. */
module Discovery {
  import opened Sequences
  import opened Messages
  import opened Policy
  import opened MessageStores
  import opened StoreConvergence
  import opened Membership

  /** What ValidateAliveMsg answers, during one step, for a message that is an alive message. */
  type Validator = SignedMessage -> bool

  /** Envelopes inside membership messages; None is one that cannot be parsed. */
  type Envelopes = seq<Option<SignedMessage>>

  /** What the communication layer hands to the discovery service. */
  datatype Inbound =
    | MemReq(selfInformation: Option<AliveMessage>)
    | Alive(message: AliveMessage)
    | MemRes(alive: Envelopes, dead: Envelopes)
    | Unrelated

  // ----- Specification -----

  function HearOne(entries: seq<Entry>, v: View, m: SignedMessage, valid: Validator): View
    requires Consistent(v)
  {
    if Accepts(Comparator(0), entries, m) then Heard(v, m, valid(m)) else v
  }

  /** The alive part of a membership response; the flag tells whether it cut the handler short. */
  function HearAlive(entries: seq<Entry>, v: View, envelopes: Envelopes, valid: Validator): (View, bool)
    requires Consistent(v)
    ensures Consistent(HearAlive(entries, v, envelopes, valid).0)
    decreases |envelopes|
  {
    if envelopes == [] then
      (v, false)
    else if envelopes[0].None? || !envelopes[0].value.content.AliveMsg? then
      (v, true)
    else
      HeardIsConsistent(v, envelopes[0].value, valid(envelopes[0].value));
      HearAlive(entries, HearOne(entries, v, envelopes[0].value, valid), envelopes[1..], valid)
  }

  /** The dead part: an unparsable envelope or one the store would reject ends it, one that fails
      validation is passed over. */
  function HearDead(entries: seq<Entry>, v: View, envelopes: Envelopes, valid: Validator): View
    requires Consistent(v)
    ensures Consistent(HearDead(entries, v, envelopes, valid))
    decreases |envelopes|
  {
    if envelopes == [] || envelopes[0].None? then
      v
    else
      var m := envelopes[0].value;
      if !m.content.AliveMsg? || !valid(m) then
        HearDead(entries, v, envelopes[1..], valid)
      else if !Accepts(Comparator(0), entries, m) then
        v
      else
        HeardDeadIsConsistent(v, m);
        HearDead(entries, HeardDead(v, m), envelopes[1..], valid)
  }

  function PresumeAll(v: View, dead: seq<PkiId>): View
    requires Consistent(v)
    ensures Consistent(PresumeAll(v, dead))
    decreases |dead|
  {
    if dead == [] then
      v
    else
      PresumedIsConsistent(v, dead[0]);
      PresumeAll(Presumed(v, dead[0]), dead[1..])
  }

  /** The records of the listed peers that are alive, each once, in the order of the list. */
  function Closing(v: View, dead: seq<PkiId>): seq<Peer>
    requires Consistent(v)
    decreases |dead|
  {
    if dead == [] then
      []
    else
      PresumedIsConsistent(v, dead[0]);
      (if dead[0] in v.aliveTS then [v.peers[dead[0]]] else []) + Closing(Presumed(v, dead[0]), dead[1..])
  }

  lemma ClosingStep(v: View, dead: seq<PkiId>, i: nat)
    requires Consistent(v) && i < |dead|
    ensures PresumeAll(v, dead[i..]) ==
            if dead[i] in v.aliveTS && Consistent(Presumed(v, dead[i]))
            then PresumeAll(Presumed(v, dead[i]), dead[i + 1..])
            else PresumeAll(v, dead[i + 1..])
    ensures Closing(v, dead[i..]) ==
            if dead[i] in v.aliveTS && Consistent(Presumed(v, dead[i]))
            then [v.peers[dead[i]]] + Closing(Presumed(v, dead[i]), dead[i + 1..])
            else Closing(v, dead[i + 1..])
  {
    PresumedIsConsistent(v, dead[i]);
    assert dead[i..][1..] == dead[i + 1..];
  }

  function ForgetAll(v: View, gone: seq<Entry>): View
    requires Consistent(v)
    ensures Consistent(ForgetAll(v, gone))
    decreases |gone|
  {
    if gone == [] then
      v
    else if !gone[0].data.content.AliveMsg? then
      ForgetAll(v, gone[1..])
    else
      ForgottenIsConsistent(v, PkiOf(gone[0].data));
      ForgetAll(Forgotten(v, PkiOf(gone[0].data)), gone[1..])
  }

  function Response(entries: seq<Entry>, v: View, alive: Envelopes, dead: Envelopes, valid: Validator): View
    requires Consistent(v)
  {
    var (w, aborted) := HearAlive(entries, v, alive, valid);
    if aborted then w else HearDead(entries, w, dead, valid)
  }

  function Handled(v: View, entries: seq<Entry>, msg: Inbound, valid: Validator, now: int): (View, seq<Entry>)
    requires Consistent(v)
  {
    match msg
    case Unrelated => (v, entries)
    case MemReq(selfInformation) =>
      (if selfInformation.None? then v else HearOne(entries, v, selfInformation.value, valid), entries)
    case Alive(m) =>
      var r := AddTo(Comparator(0), entries, m, now);
      (if r.added then Heard(v, m, valid(m)) else v, r.messages)
    case MemRes(alive, dead) => (Response(entries, v, alive, dead, valid), entries)
  }

  class GossipDiscovery {
    const self: PkiId
    const msgStore: MessageStore
    var aliveLastTS: map<PkiId, Timestamp>
    var deadLastTS: map<PkiId, Timestamp>
    var aliveMembership: map<PkiId, SignedMessage>
    var deadMembership: map<PkiId, SignedMessage>
    var id2Member: map<PkiId, Peer>

    constructor (self: PkiId, aliveMsgTTL: int)
      ensures this.self == self && fresh(msgStore) && msgStore.messages == []
      ensures msgStore.policy == Comparator(0) && msgStore.msgTTL == aliveMsgTTL
      ensures State() == View(self, map[], map[], map[], map[], map[]) && Consistent(State())
    {
      this.self := self;
      msgStore := new MessageStore(Comparator(0), aliveMsgTTL);
      aliveLastTS, deadLastTS := map[], map[];
      aliveMembership, deadMembership := map[], map[];
      id2Member := map[];
    }

    ghost function State(): View
      reads this
    {
      View(self, aliveLastTS, deadLastTS, aliveMembership, deadMembership, id2Member)
    }

    /** `learnNewMembers`, which is only ever called with one new member, alive or dead. */
    method LearnNewMember(m: AliveMessage, asDead: bool)
      modifies this
      ensures State() == Learned(old(State()), m, asDead)
    {
      var p := m.content.membership.pkiId;
      if p != self && !asDead {
        aliveLastTS := aliveLastTS[p := Record(m.content.aliveTime)];
        aliveMembership := aliveMembership[p := m];
      }
      if p != self && asDead {
        deadLastTS := deadLastTS[p := Record(m.content.aliveTime)];
        deadMembership := deadMembership[p := m];
      }
      var internalEndpoint := "";
      if m.secret.Some? {
        internalEndpoint := m.secret.value;
      }
      if p in id2Member {
        internalEndpoint := id2Member[p].internalEndpoint;
      }
      id2Member := id2Member[p := Peer(m.content.membership.endpoint, m.content.membership.metadata, p,
                                       internalEndpoint)];
    }

    /** `learnExistingMembers`. The peer record is used without a check, and the branch for a peer that
        is alive without a message would use a missing message: neither can happen. */
    method LearnExistingMember(m: AliveMessage)
      requires Consistent(State()) && PkiOf(m) in aliveLastTS
      modifies this
      ensures State() == MarkAlive(old(State()), m)
    {
      var p := m.content.membership.pkiId;
      var internalEndpoint := "";
      if p in id2Member {
        internalEndpoint := id2Member[p].internalEndpoint;
      }
      if m.secret.Some? {
        internalEndpoint := m.secret.value;
      }
      id2Member := id2Member[p := id2Member[p].(endpoint := m.content.membership.endpoint,
                                                metadata := m.content.membership.metadata,
                                                internalEndpoint := internalEndpoint)];
      if p in deadLastTS {
        assert false;
      }
      if p !in aliveLastTS {
        assert false;
      }
      aliveLastTS := aliveLastTS[p := Record(m.content.aliveTime)];
      if p !in aliveMembership {
        assert false;
      }
      aliveMembership := aliveMembership[p := m];
    }

    method ResurrectMember(m: AliveMessage)
      requires Consistent(State()) && PkiOf(m) in deadLastTS
      modifies this
      ensures State() == MarkAlive(old(State()), m)
    {
      var p := m.content.membership.pkiId;
      aliveLastTS := aliveLastTS[p := Record(m.content.aliveTime)];
      var internalEndpoint := "";
      if p in id2Member {
        internalEndpoint := id2Member[p].internalEndpoint;
      }
      if m.secret.Some? {
        internalEndpoint := m.secret.value;
      }
      id2Member := id2Member[p := Peer(m.content.membership.endpoint, m.content.membership.metadata, p,
                                       internalEndpoint)];
      deadLastTS := deadLastTS - {p};
      deadMembership := deadMembership - {p};
      aliveMembership := aliveMembership[p := m];
    }

    /** Three code paths, one effect: the newest alive message about a peer becomes its record. */
    method HandleAliveMessage(m: SignedMessage, valid: bool)
      requires Consistent(State())
      modifies this
      ensures State() == Heard(old(State()), m, valid)
    {
      if !m.content.AliveMsg? || !valid {
        return;
      }
      var p, ts := m.content.membership.pkiId, m.content.aliveTime;
      if p == self {
        return;
      }
      if p !in id2Member {
        LearnedIsMarkAlive(State(), m);
        LearnNewMember(m, false);
        return;
      }
      var isAlive, isDead := p in aliveLastTS, p in deadLastTS;
      if !isAlive && !isDead {
        assert false;
      }
      if isAlive && isDead {
        assert false;
      }
      IsBeforeAgreesWithPolicy(Recorded(State(), p), ts);
      if isDead {
        if !IsBefore(deadLastTS[p], ts) {
          return;
        }
        ResurrectMember(m);
        IsBeforeAgreesWithPolicy(ts, ts);
      }
      if p in aliveLastTS && IsBefore(aliveLastTS[p], ts) {
        LearnExistingMember(m);
      }
    }

    /** One message from the communication layer. `stopping` says whether that layer is shutting down,
        `forwarded` whether the message is passed on, `reply` to whom a response is sent. */
    method HandleMsgFromComm(msg: Inbound, valid: Validator, now: int, stopping: bool)
      returns (forwarded: bool, reply: Option<Member>)
      requires Consistent(State()) && msgStore.policy == Comparator(0)
      modifies this, msgStore`messages
      ensures Consistent(State())
      ensures Handled(old(State()), old(msgStore.messages), msg, valid, now) == (State(), msgStore.messages)
      ensures forwarded <==> msg.Alive? && Accepts(Comparator(0), old(msgStore.messages), msg.message) && !stopping
      ensures reply == if msg.MemReq? && msg.selfInformation.Some?
                       then Some(msg.selfInformation.value.content.membership) else None
    {
      forwarded, reply := false, None;
      match msg
      case Unrelated =>
      case MemReq(selfInformation) =>
        if selfInformation.None? {
          return;
        }
        var ok := msgStore.CheckValid(selfInformation.value);
        HeardIsConsistent(State(), selfInformation.value, valid(selfInformation.value));
        if ok {
          HandleAliveMessage(selfInformation.value, valid(selfInformation.value));
        }
        reply := Some(selfInformation.value.content.membership);
      case Alive(m) =>
        AddAgreesWithCheckValid(Comparator(0), msgStore.messages, m, now);
        HeardIsConsistent(State(), m, valid(m));
        var added, _ := msgStore.Add(m, now);
        if !added {
          return;
        }
        HandleAliveMessage(m, valid(m));
        if stopping {
          return;
        }
        forwarded := true;
      case MemRes(alive, dead) =>
        HandleMembershipResponse(alive, dead, valid);
    }

    method HandleMembershipResponse(alive: Envelopes, dead: Envelopes, valid: Validator)
      requires Consistent(State()) && msgStore.policy == Comparator(0)
      modifies this
      ensures Consistent(State())
      ensures State() == Response(msgStore.messages, old(State()), alive, dead, valid)
    {
      for i := 0 to |alive|
        invariant Consistent(State())
        invariant HearAlive(msgStore.messages, State(), alive[i..], valid) ==
                  HearAlive(msgStore.messages, old(State()), alive, valid)
      {
        assert alive[i..][1..] == alive[i + 1..];
        if alive[i].None? || !alive[i].value.content.AliveMsg? {
          return;
        }
        HeardIsConsistent(State(), alive[i].value, valid(alive[i].value));
        var ok := msgStore.CheckValid(alive[i].value);
        if ok {
          HandleAliveMessage(alive[i].value, valid(alive[i].value));
        }
      }
      ghost var heard := State();
      for i := 0 to |dead|
        invariant Consistent(State())
        invariant HearDead(msgStore.messages, State(), dead[i..], valid) ==
                  HearDead(msgStore.messages, heard, dead, valid)
      {
        assert dead[i..][1..] == dead[i + 1..];
        if dead[i].None? {
          return;
        }
        if !dead[i].value.content.AliveMsg? || !valid(dead[i].value) {
          continue;
        }
        var ok := msgStore.CheckValid(dead[i].value);
        if !ok {
          return;
        }
        HeardDeadIsConsistent(State(), dead[i].value);
        if dead[i].value.content.membership.pkiId !in id2Member {
          LearnNewMember(dead[i].value, true);
        }
      }
    }

    /** Peers presumed dead, by timeout or by the communication layer, change sides. The peer records
        returned are those whose connections are then closed; each of them exists. */
    method ExpireDeadMembers(dead: seq<PkiId>) returns (closing: seq<Peer>)
      requires Consistent(State())
      modifies this
      ensures Consistent(State()) && State() == PresumeAll(old(State()), dead)
      ensures closing == Closing(old(State()), dead)
    {
      closing := [];
      for i := 0 to |dead|
        invariant Consistent(State())
        invariant PresumeAll(State(), dead[i..]) == PresumeAll(old(State()), dead)
        invariant closing + Closing(State(), dead[i..]) == Closing(old(State()), dead)
      {
        ClosingStep(State(), dead, i);
        if dead[i] !in aliveLastTS {
          continue;
        }
        var peer := PresumeDead(dead[i]);
        Associate(closing, [peer], Closing(State(), dead[i + 1..]));
        closing := closing + [peer];
      }
    }

    /** The body of that loop for a peer that is alive. */
    method PresumeDead(p: PkiId) returns (peer: Peer)
      requires Consistent(State()) && p in aliveLastTS
      modifies this
      ensures Consistent(State()) && State() == Presumed(old(State()), p)
      ensures peer == id2Member[p] && peer.pkiId == p
    {
      PresumedIsConsistent(State(), p);
      peer := id2Member[p];
      var lastTS := aliveLastTS[p];
      deadLastTS, aliveLastTS := deadLastTS[p := lastTS], aliveLastTS - {p};
      if p in aliveMembership {
        deadMembership, aliveMembership := deadMembership[p := aliveMembership[p]], aliveMembership - {p};
      }
    }

    /** The expiry callback of the alive-message store: the peer the message is about is forgotten. */
    method ExpiryCallback(m: SignedMessage)
      requires Consistent(State())
      modifies this
      ensures Consistent(State())
      ensures State() == if m.content.AliveMsg? then Forgotten(old(State()), PkiOf(m)) else old(State())
    {
      if !m.content.AliveMsg? {
        return;
      }
      var p := m.content.membership.pkiId;
      ForgottenIsConsistent(State(), p);
      aliveMembership, deadMembership := aliveMembership - {p}, deadMembership - {p};
      id2Member := id2Member - {p};
      deadLastTS, aliveLastTS := deadLastTS - {p}, aliveLastTS - {p};
    }

    /** One expiry pass of the alive-message store, with its callbacks. */
    method ExpireMessages(clock: Clock)
      requires Consistent(State())
      modifies this, msgStore
      ensures Consistent(State())
      ensures var r := SweepOf(old(msgStore.messages), msgStore.msgTTL, clock);
              msgStore.messages == r.messages && State() == ForgetAll(old(State()), r.calledBack)
    {
      var calledBack, _ := msgStore.ExpireMessages(clock);
      ghost var after := msgStore.messages;
      for i := 0 to |calledBack|
        invariant Consistent(State()) && msgStore.messages == after
        invariant ForgetAll(State(), calledBack[i..]) == ForgetAll(old(State()), calledBack)
      {
        assert calledBack[i..][1..] == calledBack[i + 1..];
        ExpiryCallback(calledBack[i].data);
      }
    }

    /** What `GetMembership` reports about an alive peer. */
    ghost function Report(p: PkiId): Peer
      requires Consistent(State()) && p in aliveMembership
      reads this
    {
      assert About(aliveMembership[p], p, aliveLastTS[p]);
      var m := aliveMembership[p].content.membership;
      Peer(m.endpoint, m.metadata, p, id2Member[p].internalEndpoint)
    }

    /** The members reported to the rest of the service: one for every alive peer, none missing, and none
        at all once the service is stopping. Looking up the record of each, by the identity in its message,
        cannot fail. */
    method GetMembership(stopping: bool) returns (response: seq<Peer>)
      requires Consistent(State())
      ensures stopping ==> response == []
      ensures !stopping ==> |response| == |aliveMembership| && forall p | p in aliveMembership :: Report(p) in response
      ensures forall q | q in response ::
                && q.pkiId in aliveMembership && q.pkiId in id2Member
                && aliveMembership[q.pkiId].content.AliveMsg?
                && q.endpoint == aliveMembership[q.pkiId].content.membership.endpoint
                && q.metadata == aliveMembership[q.pkiId].content.membership.metadata
                && q.internalEndpoint == id2Member[q.pkiId].internalEndpoint
    {
      response := [];
      if stopping {
        return;
      }
      var rest := aliveMembership.Keys;
      while rest != {}
        invariant rest <= aliveMembership.Keys && |response| + |rest| == |aliveMembership|
        invariant forall p | p in aliveMembership && p !in rest :: Report(p) in response
        invariant forall q | q in response :: q.pkiId in aliveMembership && q == Report(q.pkiId)
        decreases rest
      {
        var p :| p in rest;
        assert About(aliveMembership[p], p, aliveLastTS[p]);
        var member := aliveMembership[p].content.membership;
        response := response + [Peer(member.endpoint, member.metadata, member.pkiId,
                                     id2Member[member.pkiId].internalEndpoint)];
        rest := rest - {p};
      }
    }

    /** Copies of the records of all dead peers, one of each; dereferencing each record is safe. */
    method CopyLastSeen() returns (res: seq<Peer>)
      requires Consistent(State())
      ensures forall p :: p in deadLastTS <==> exists q | q in res :: q.pkiId == p
      ensures forall q | q in res :: q.pkiId in id2Member && q == id2Member[q.pkiId]
      ensures forall i, j | 0 <= i < j < |res| :: res[i].pkiId != res[j].pkiId
    {
      res := [];
      var rest := deadLastTS.Keys;
      while rest != {}
        invariant rest <= deadLastTS.Keys
        invariant forall p | p in deadLastTS && p !in rest :: exists q | q in res :: q.pkiId == p
        invariant forall q | q in res :: q.pkiId in deadLastTS && q.pkiId !in rest && q == id2Member[q.pkiId]
        invariant forall i, j | 0 <= i < j < |res| :: res[i].pkiId != res[j].pkiId
        decreases rest
      {
        var p :| p in rest;
        ghost var before := res;
        res := res + [id2Member[p]];
        assert res[|before|] in res && forall q | q in before :: q in res;
        rest := rest - {p};
      }
    }
  }
}
