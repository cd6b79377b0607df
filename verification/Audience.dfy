/** Who is sent which message, said without the routing code: in terms of organisations, channels, endpoints and
    tags alone. */
module Audience {
  import opened Sequences
  import opened Messages
  import opened Membership
  import opened Selection
  import opened Routing
  import opened RoutingLaws

  /** The message is meant for one's own organisation: by its tag, or because it is an alive message of that
      organisation which names no external endpoint. */
  predicate IsInternal(env: Environment, m: EmittedMessage) {
    || m.message.tag == OrgOnly || m.message.tag == ChanAndOrg
    || (&& m.message.content.AliveMsg? && m.message.content.membership.endpoint == ""
        && m.message.content.membership.pkiId != ""
        && env.orgOf(m.message.content.membership.pkiId) == Some(env.selfOrg))
  }

  /** A member of a known channel, in one's own organisation, that has an identity on file and has sent a
      state-info message. */
  predicate SharesChannel(env: Environment, c: string, p: PkiId) {
    && c != "" && c in env.channels
    && env.identified(p) && p in env.channels[c].stateInfo
    && env.orgOf(p) == Some(env.selfOrg) && env.selfOrg in env.channels[c].orgs && p != ""
  }

  /** Alive messages of one's own organisation may go to everybody, those of another to that organisation and
      one's own, those of unknown origin to nobody. */
  predicate MayLearnOf(env: Environment, origin: Option<string>, peer: Option<string>) {
    && origin.Some? && origin.value != ""
    && (origin == Some(env.selfOrg)
        || (peer.Some? && peer.value != "" && (peer == Some(env.selfOrg) || peer == origin)))
  }

  /** The members among which the peers for a message are picked. */
  predicate CanBePicked(env: Environment, m: EmittedMessage, p: PkiId) {
    var own := p != "" && env.orgOf(p) == Some(env.selfOrg);
    match m.message.content
    case DataMsg(_, _) => SharesChannel(env, m.message.channel, p)
    case EmptyDataMsg => SharesChannel(env, m.message.channel, p)
    case LeadershipMsg(_, _) => SharesChannel(env, m.message.channel, p)
    case StateInfo(sender, _) =>
      var gc := env.macChannel(m.message);
      && m.filter(p)
      && if gc.Some? && env.lookup(sender).Some? && env.lookup(sender).value.endpoint != ""
         then env.orgOf(p).Some? && env.orgOf(p).value in gc.value.orgs else own
    case AliveMsg(origin, _) =>
      if IsInternal(env, m) then own else m.filter(p) && MayLearnOf(env, env.orgOf(origin.pkiId), env.orgOf(p))
    case _ => IsInternal(env, m) && own
  }

  /** The peers a message is for: they can be picked, its own filter admits them, and those without an external
      endpoint do not hear of members of other organisations. */
  predicate IsFor(env: Environment, m: EmittedMessage, p: PkiId) {
    && CanBePicked(env, m, p) && m.filter(p)
    && (m.message.content.AliveMsg? && !IsInternal(env, m) ==>
          || (m.message.content.membership.pkiId != ""
              && env.orgOf(m.message.content.membership.pkiId) == Some(env.selfOrg))
          || (env.lookup(p).Some? && env.lookup(p).value.endpoint != ""))
  }

  function Pickable(env: Environment, m: EmittedMessage): RoutingFilter {
    (p: Peer) => CanBePicked(env, m, p.pkiId)
  }

  // ----- Only the audience -----

  lemma PermittedIsFor(env: Environment, m: EmittedMessage, p: PkiId)
    requires m.filter(p)
    ensures Permitted(env, m, p) <==> IsFor(env, m, p)
  {
  }

  /** Nobody is sent a message that is not for them. */
  lemma OnlyAudienceIsSent(env: Environment, draw: Draw, batch: seq<EmittedMessage>, r: Route)
    requires r in BatchRoutes(env, draw, batch)
    ensures r.msg in batch && IsFor(env, r.msg, r.peer.pkiId)
  {
    EveryRouteIsPermitted(env, draw, batch, r);
    PermittedIsFor(env, r.msg, r.peer.pkiId);
  }

  // ----- All of the audience -----

  /** The selection for the message is not cut short: it is unlimited, or asks for at least as many peers as can
      be picked. */
  ghost predicate IsWide(env: Environment, m: EmittedMessage) {
    || m.message.content.LeadershipMsg? || env.propagatePeerNum < 0
    || Count(Pickable(env, m), env.membership) <= env.propagatePeerNum
  }

  /** The filter each pass selects by. */
  function PassFilter(env: Environment, m: EmittedMessage): RoutingFilter
    requires CategoryOf(env, m) in {Block, Leadership} ==> m.message.channel in env.channels
    requires CategoryOf(env, m) == Rest ==> m.message.content.AliveMsg?
  {
    match CategoryOf(env, m)
    case Block => ChannelFilter(env, env.channels[m.message.channel])
    case Leadership => ChannelFilter(env, env.channels[m.message.channel])
    case StateInfoUpdate => StateInfoFilter(env, m)
    case Restricted => InMyOrg(env)
    case Rest => AliveFilter(env, m)
  }

  lemma CombinedTwo(f: RoutingFilter, g: RoutingFilter, p: Peer)
    ensures Combine([f, g])(p) <==> f(p) && g(p)
  {
    var fs := [f, g];
    assert Combine(fs)(p) <==> fs[0](p) && fs[1](p);
  }

  lemma CombinedThree(f: RoutingFilter, g: RoutingFilter, h: RoutingFilter, p: Peer)
    ensures Combine([f, g, h])(p) <==> f(p) && g(p) && h(p)
  {
    var fs := [f, g, h];
    assert Combine(fs)(p) <==> fs[0](p) && fs[1](p) && fs[2](p);
  }

  /** Each pass picks among exactly the members that can be picked. */
  lemma PassFilterPicks(env: Environment, m: EmittedMessage, p: Peer)
    requires CategoryOf(env, m) in {Block, Leadership} ==> m.message.channel in env.channels && m.message.channel != ""
    requires CategoryOf(env, m) == Rest ==> m.message.content.AliveMsg?
    ensures PassFilter(env, m)(p) <==> CanBePicked(env, m, p.pkiId)
  {
    match CategoryOf(env, m)
    case Block =>
      var gc := env.channels[m.message.channel];
      CombinedThree(EligibleForChannel(env, gc), IsMemberInChan(env, gc), InMyOrg(env), p);
    case Leadership =>
      var gc := env.channels[m.message.channel];
      CombinedThree(EligibleForChannel(env, gc), IsMemberInChan(env, gc), InMyOrg(env), p);
    case StateInfoUpdate =>
      var gc := env.macChannel(m.message);
      var selector := if gc.Some? && HasExternalEndpoint(env, m.message.content.statePki)
                      then IsMemberInChan(env, gc.value) else InMyOrg(env);
      CombinedTwo(selector, SourceFilter(m), p);
    case Restricted =>
    case Rest =>
      CombinedTwo(PeersByOriginOrg(env, m.message.content.membership.pkiId), SourceFilter(m), p);
  }

  lemma PickableCount(env: Environment, m: EmittedMessage)
    requires CategoryOf(env, m) in {Block, Leadership} ==> m.message.channel in env.channels && m.message.channel != ""
    requires CategoryOf(env, m) == Rest ==> m.message.content.AliveMsg?
    ensures Count(PassFilter(env, m), env.membership) == Count(Pickable(env, m), env.membership)
  {
    forall p | p in env.membership
      ensures PassFilter(env, m)(p) <==> Pickable(env, m)(p)
    {
      PassFilterPicks(env, m, p);
    }
    CountSame(PassFilter(env, m), Pickable(env, m), env.membership);
  }

  /** A selection that asks for enough peers picks every member that passes the filter. */
  lemma WideSelection(env: Environment, draw: Draw, pick: Pick, k: int, filter: RoutingFilter, p: Peer)
    requires Permutes(env, draw) && p in env.membership && filter(p)
    requires k < 0 || Count(filter, env.membership) <= k
    ensures Remote(p) in Select(k, draw(pick), filter)
  {
    var pool := draw(pick);
    assert multiset(pool) == multiset(env.membership);
    assert p in multiset(pool);
    FilterMember(filter, pool, p);
    CountOfMultiset(filter, pool, env.membership);
    CountIsFilter(filter, pool);
    assert Take(k, Filter(filter, pool)) == Filter(filter, pool);
    var i :| 0 <= i < |Filter(filter, pool)| && Filter(filter, pool)[i] == p;
    assert Select(k, pool, filter)[i] == Remote(p);
  }

  lemma {:induction false} ToEachHas(msgs: seq<EmittedMessage>, peers: seq<RemotePeer>, m: EmittedMessage,
                                     q: RemotePeer)
    requires m in msgs && q in peers && m.filter(q.pkiId)
    ensures Route(m, q) in ToEach(msgs, peers)
  {
    var n := |msgs| - 1;
    if m == msgs[n] {
      FilterMember(Admits(m), peers, q);
      var admitted := Filter(Admits(m), peers);
      var i :| 0 <= i < |admitted| && admitted[i] == q;
      assert Copies(m, admitted)[i] == Route(m, q);
    } else {
      assert msgs == msgs[..n] + [msgs[n]];
      ToEachHas(msgs[..n], peers, m, q);
    }
  }

  lemma CopiesHave(m: EmittedMessage, peers: seq<RemotePeer>, q: RemotePeer)
    requires q in peers
    ensures Route(m, q) in Copies(m, peers)
  {
    var i :| 0 <= i < |peers| && peers[i] == q;
    assert Copies(m, peers)[i] == Route(m, q);
  }

  lemma StateInfoRoutesNext(env: Environment, draw: Draw, msgs: seq<EmittedMessage>, n: nat, r: Route)
    requires |msgs| == n + 1 && forall m | m in msgs :: m.message.content.StateInfo?
    ensures var peers := Select(env.propagatePeerNum, draw(ForStateInfo(n)), StateInfoFilter(env, msgs[n]));
            r in StateInfoRoutes(env, draw, msgs) <==>
            r in StateInfoRoutes(env, draw, msgs[..n]) || r in Copies(msgs[n], peers)
  {
  }

  lemma {:induction false} StateInfoRoutesHave(env: Environment, draw: Draw, msgs: seq<EmittedMessage>, i: nat,
                                               q: RemotePeer)
    requires forall m | m in msgs :: m.message.content.StateInfo?
    requires i < |msgs|
    requires q in Select(env.propagatePeerNum, draw(ForStateInfo(i)), StateInfoFilter(env, msgs[i]))
    ensures Route(msgs[i], q) in StateInfoRoutes(env, draw, msgs)
  {
    var n := |msgs| - 1;
    if i == n {
      CopiesHave(msgs[n], Select(env.propagatePeerNum, draw(ForStateInfo(n)), StateInfoFilter(env, msgs[n])), q);
    } else {
      StateInfoRoutesHave(env, draw, msgs[..n], i, q);
    }
    StateInfoRoutesNext(env, draw, msgs, n, Route(msgs[i], q));
  }

  lemma AliveRoutesNext(env: Environment, draw: Draw, msgs: seq<EmittedMessage>, n: nat, r: Route)
    requires |msgs| == n + 1
    ensures r in AliveRoutes(env, draw, msgs) <==>
            r in AliveRoutes(env, draw, msgs[..n]) || r in Copies(msgs[n], AlivePeers(env, draw, n, msgs[n]))
  {
  }

  lemma {:induction false} AliveRoutesHave(env: Environment, draw: Draw, msgs: seq<EmittedMessage>, i: nat,
                                           q: RemotePeer)
    requires i < |msgs| && q in AlivePeers(env, draw, i, msgs[i])
    ensures Route(msgs[i], q) in AliveRoutes(env, draw, msgs)
  {
    var n := |msgs| - 1;
    if i == n {
      CopiesHave(msgs[n], AlivePeers(env, draw, n, msgs[n]), q);
    } else {
      AliveRoutesHave(env, draw, msgs[..n], i, q);
    }
    AliveRoutesNext(env, draw, msgs, n, Route(msgs[i], q));
  }

  lemma ChannelAudience(env: Environment, draw: Draw, batch: seq<EmittedMessage>, m: EmittedMessage, p: Peer)
    requires Permutes(env, draw) && m in batch && p in env.membership && IsFor(env, m, p.pkiId) && IsWide(env, m)
    requires CategoryOf(env, m) in {Block, Leadership}
    ensures Route(m, Remote(p)) in BatchRoutes(env, draw, batch)
  {
    var r, c, leadership := Route(m, Remote(p)), m.message.channel, CategoryOf(env, m) == Leadership;
    var k := if leadership then |env.membership| else env.propagatePeerNum;
    PassFilterPicks(env, m, p);
    PickableCount(env, m);
    CountIsFilter(PassFilter(env, m), env.membership);
    WideSelection(env, draw, ForChannel(leadership, c), k, PassFilter(env, m), p);
    ChannelMessageTimes(env, draw, batch, r);
    CountMembers(batch, m);
    CountMembers(ChosenPeers(env, draw, leadership, c), r.peer);
    CountMembers(BatchRoutes(env, draw, batch), r);
  }

  lemma PassHas(env: Environment, draw: Draw, batch: seq<EmittedMessage>, r: Route)
    requires r in PassRoutes(env, draw, batch, CategoryOf(env, r.msg))
    ensures r in BatchRoutes(env, draw, batch)
  {
    CountByCategory(env, draw, batch, r);
    CountMembers(PassRoutes(env, draw, batch, CategoryOf(env, r.msg)), r);
    CountMembers(BatchRoutes(env, draw, batch), r);
  }

  lemma OtherAudience(env: Environment, draw: Draw, batch: seq<EmittedMessage>, m: EmittedMessage, p: Peer)
    requires Permutes(env, draw) && m in batch && p in env.membership && IsFor(env, m, p.pkiId) && IsWide(env, m)
    requires CategoryOf(env, m) !in {Block, Leadership}
    ensures Route(m, Remote(p)) in BatchRoutes(env, draw, batch)
  {
    var cat := CategoryOf(env, m);
    var msgs := Filter(Is(env, cat), batch);
    FilterMember(Is(env, cat), batch, m);
    var i :| 0 <= i < |msgs| && msgs[i] == m;
    PassFilterPicks(env, m, p);
    PickableCount(env, m);
    match cat {
      case StateInfoUpdate =>
        WideSelection(env, draw, ForStateInfo(i), env.propagatePeerNum, PassFilter(env, m), p);
        StateInfoRoutesHave(env, draw, StateInfos(env, batch), i, Remote(p));
      case Restricted =>
        WideSelection(env, draw, ForOrg, env.propagatePeerNum, PassFilter(env, m), p);
        ToEachHas(msgs, Select(env.propagatePeerNum, draw(ForOrg), InMyOrg(env)), m, Remote(p));
      case Rest =>
        WideSelection(env, draw, ForAlive(i), env.propagatePeerNum, PassFilter(env, m), p);
        FilterMember(Reaches(env, m), Select(env.propagatePeerNum, draw(ForAlive(i)), AliveFilter(env, m)), Remote(p));
        AliveRoutesHave(env, draw, msgs, i, Remote(p));
    }
    PassHas(env, draw, batch, Route(m, Remote(p)));
  }

  /** When the selection is not cut short, a message reaches exactly its audience: a member is sent a message of
      the batch if and only if it is for that member. */
  lemma AudienceIsReached(env: Environment, draw: Draw, batch: seq<EmittedMessage>, m: EmittedMessage, p: Peer)
    requires Permutes(env, draw) && p in env.membership && IsWide(env, m)
    ensures Route(m, Remote(p)) in BatchRoutes(env, draw, batch) <==> m in batch && IsFor(env, m, p.pkiId)
  {
    if Route(m, Remote(p)) in BatchRoutes(env, draw, batch) {
      OnlyAudienceIsSent(env, draw, batch, Route(m, Remote(p)));
    }
    if m in batch && IsFor(env, m, p.pkiId) {
      if CategoryOf(env, m) in {Block, Leadership} {
        ChannelAudience(env, draw, batch, m, p);
      } else {
        OtherAudience(env, draw, batch, m, p);
      }
    }
  }

  /** How many peers are picked for a message of a channel, in terms of the members that can be picked. */
  lemma PickedInChannel(env: Environment, draw: Draw, m: EmittedMessage)
    requires Permutes(env, draw) && CategoryOf(env, m) in {Block, Leadership}
    requires m.message.channel in env.channels && m.message.channel != ""
    ensures var picked := |ChosenPeers(env, draw, CategoryOf(env, m) == Leadership, m.message.channel)|;
            var eligible := Count(Pickable(env, m), env.membership);
            picked == if m.message.content.LeadershipMsg? then eligible else Fan(env.propagatePeerNum, eligible)
  {
    ChosenCount(env, draw, m.message.channel);
    PickableCount(env, m);
  }

  predicate IsOwnAlive(env: Environment, m: EmittedMessage) {
    && m.message.content.AliveMsg? && m.message.content.membership.pkiId != ""
    && env.orgOf(m.message.content.membership.pkiId) == Some(env.selfOrg)
  }

  /** The same for the number of times a state-info message is sent. */
  lemma StateInfoSends(env: Environment, draw: Draw, batch: seq<EmittedMessage>, m: EmittedMessage)
    requires Permutes(env, draw) && m.message.content.StateInfo?
    ensures Count(Carries(m), BatchRoutes(env, draw, batch))
            == Count(Equals(m), batch) * Fan(env.propagatePeerNum, Count(Pickable(env, m), env.membership))
  {
    StateInfoReach(env, draw, batch, m);
    PickableCount(env, m);
  }

  /** And for an unrestricted alive message; one of another organisation may be sent less often. */
  lemma AliveSends(env: Environment, draw: Draw, batch: seq<EmittedMessage>, m: EmittedMessage)
    requires Permutes(env, draw) && m.message.content.AliveMsg? && !IsInternal(env, m)
    ensures var most := Count(Equals(m), batch)
                        * Fan(env.propagatePeerNum, Count(Pickable(env, m), env.membership));
            var sends := Count(Carries(m), BatchRoutes(env, draw, batch));
            var origin := m.message.content.membership.pkiId;
            sends <= most && (origin != "" && env.orgOf(origin) == Some(env.selfOrg) ==> sends == most)
  {
    AliveReach(env, draw, batch, m);
    PickableCount(env, m);
  }
}
