/** What the routes of a batch guarantee, whatever the batch, the network and the random selections. */
module RoutingLaws {
  import opened Sequences
  import opened Messages
  import opened Membership
  import opened Selection
  import opened Routing

  predicate OrgIn(env: Environment, p: PkiId, orgs: seq<string>) {
    env.orgOf(p).Some? && env.orgOf(p).value in orgs
  }

  predicate InChannel(env: Environment, c: string, p: PkiId) {
    && c != "" && c in env.channels
    && env.identified(p) && p in env.channels[c].stateInfo
    && OrgIn(env, p, env.channels[c].orgs) && IsInMyOrg(env, p)
  }

  /** Alive messages of one's own organisation go anywhere; those of a foreign one only to that
      organisation and one's own, and only to peers with an external endpoint; others nowhere. */
  predicate MayHearOf(env: Environment, origin: PkiId, p: PkiId) {
    var org, memberOrg := env.orgOf(origin).GetOr(""), env.orgOf(p).GetOr("");
    && org != ""
    && (org == env.selfOrg || (memberOrg != "" && (memberOrg == env.selfOrg || memberOrg == org)))
    && (IsInMyOrg(env, origin) || HasExternalEndpoint(env, p))
  }

  /** Which peers a message may be sent to, by its category alone. */
  predicate Permitted(env: Environment, m: EmittedMessage, p: PkiId) {
    var c := m.message.channel;
    match CategoryOf(env, m)
    case Block => InChannel(env, c, p)
    case Leadership => InChannel(env, c, p)
    case StateInfoUpdate =>
      var gc := env.macChannel(m.message);
      if gc.Some? && HasExternalEndpoint(env, m.message.content.statePki) then OrgIn(env, p, gc.value.orgs)
      else IsInMyOrg(env, p)
    case Restricted => IsInMyOrg(env, p)
    case Rest =>
      m.message.content.AliveMsg? && MayHearOf(env, m.message.content.membership.pkiId, p)
  }

  /** A selected peer comes from the pool and passes the filter. */
  lemma Selected(k: int, shuffled: seq<Peer>, filter: RoutingFilter, q: RemotePeer) returns (p: Peer)
    requires q in Select(k, shuffled, filter)
    ensures p in shuffled && filter(p) && Remote(p) == q
  {
    var taken := Take(k, Filter(filter, shuffled));
    var i :| 0 <= i < |taken| && Remotes(taken)[i] == q;
    p := taken[i];
    FilterMember(filter, shuffled, p);
  }

  lemma {:induction false} ToEachRoute(msgs: seq<EmittedMessage>, peers: seq<RemotePeer>, r: Route)
    requires r in ToEach(msgs, peers)
    ensures r.msg in msgs && r.peer in peers && r.msg.filter(r.peer.pkiId)
  {
    var n := |msgs| - 1;
    if r in ToEach(msgs[..n], peers) {
      ToEachRoute(msgs[..n], peers, r);
    } else {
      FilterMember(Admits(msgs[n]), peers, r.peer);
    }
  }

  lemma GroupRoute(env: Environment, draw: Draw, leadership: bool, msgs: seq<EmittedMessage>, c: string, r: Route)
    requires r in GroupRoutes(env, draw, leadership, msgs, c)
    ensures c in env.channels && r.msg in msgs && r.msg.message.channel == c && r.msg.filter(r.peer.pkiId)
    ensures c != "" ==> InChannel(env, c, r.peer.pkiId)
  {
    var group := Filter(OfChannel(c), msgs);
    var first := group[0];
    ToEachRoute(group, ChannelPeers(env, draw, leadership, c, first), r);
    FilterMember(OfChannel(c), msgs, r.msg);
    var k := if first.message.content.LeadershipMsg? then |env.membership| else env.propagatePeerNum;
    var gc := env.channels[c];
    var p := Selected(k, draw(ForChannel(leadership, c)), ChannelFilter(env, gc), r.peer);
    var fs := [EligibleForChannel(env, gc), IsMemberInChan(env, gc), InMyOrg(env)];
    assert fs[0](p) && fs[1](p) && fs[2](p);
  }

  lemma {:induction false} ChannelRoute(env: Environment, draw: Draw, leadership: bool, msgs: seq<EmittedMessage>,
                                        cs: seq<string>, r: Route)
    requires r in ChannelRoutes(env, draw, leadership, msgs, cs) && "" !in cs
    ensures r.msg in msgs && r.msg.filter(r.peer.pkiId) && InChannel(env, r.msg.message.channel, r.peer.pkiId)
  {
    var n := |cs| - 1;
    if r in ChannelRoutes(env, draw, leadership, msgs, cs[..n]) {
      ChannelRoute(env, draw, leadership, msgs, cs[..n], r);
    } else {
      GroupRoute(env, draw, leadership, msgs, cs[n], r);
    }
  }

  lemma {:induction false} StateInfoRoute(env: Environment, draw: Draw, msgs: seq<EmittedMessage>, r: Route)
    requires forall m | m in msgs :: m.message.content.StateInfo?
    requires r in StateInfoRoutes(env, draw, msgs)
    ensures r.msg in msgs && r.msg.filter(r.peer.pkiId) && Permitted(env, r.msg, r.peer.pkiId)
  {
    var n := |msgs| - 1;
    if r in StateInfoRoutes(env, draw, msgs[..n]) {
      StateInfoRoute(env, draw, msgs[..n], r);
    } else {
      var m := msgs[n];
      var p := Selected(env.propagatePeerNum, draw(ForStateInfo(n)), StateInfoFilter(env, m), r.peer);
      var gc := env.macChannel(m.message);
      var selector := if gc.Some? && HasExternalEndpoint(env, m.message.content.statePki)
                      then IsMemberInChan(env, gc.value) else InMyOrg(env);
      var fs := [selector, SourceFilter(m)];
      assert fs[0](p) && fs[1](p);
    }
  }

  lemma OrgRoute(env: Environment, draw: Draw, msgs: seq<EmittedMessage>, r: Route)
    requires r in OrgRoutes(env, draw, msgs)
    ensures r.msg in msgs && r.msg.filter(r.peer.pkiId) && IsInMyOrg(env, r.peer.pkiId)
  {
    ToEachRoute(msgs, Select(env.propagatePeerNum, draw(ForOrg), InMyOrg(env)), r);
    var p := Selected(env.propagatePeerNum, draw(ForOrg), InMyOrg(env), r.peer);
  }

  lemma {:induction false} AliveRoute(env: Environment, draw: Draw, msgs: seq<EmittedMessage>, r: Route)
    requires r in AliveRoutes(env, draw, msgs)
    ensures r.msg in msgs && r.msg.filter(r.peer.pkiId) && r.msg.message.content.AliveMsg?
    ensures MayHearOf(env, r.msg.message.content.membership.pkiId, r.peer.pkiId)
  {
    var n := |msgs| - 1;
    if r in AliveRoutes(env, draw, msgs[..n]) {
      AliveRoute(env, draw, msgs[..n], r);
    } else {
      var m := msgs[n];
      var peers := Select(env.propagatePeerNum, draw(ForAlive(n)), AliveFilter(env, m));
      FilterMember(Reaches(env, m), peers, r.peer);
      var p := Selected(env.propagatePeerNum, draw(ForAlive(n)), AliveFilter(env, m), r.peer);
      var fs := [PeersByOriginOrg(env, m.message.content.membership.pkiId), SourceFilter(m)];
      assert fs[0](p) && fs[1](p);
    }
  }

  lemma {:induction false} ChannelsAreDistinct(msgs: seq<EmittedMessage>)
    ensures Distinct(Channels(msgs)) && "" !in Channels(msgs)
    ensures forall m | m in msgs && m.message.channel != "" :: m.message.channel in Channels(msgs)
  {
    if msgs == [] {
    } else {
      ChannelsAreDistinct(msgs[..|msgs| - 1]);
      assert msgs == msgs[..|msgs| - 1] + [msgs[|msgs| - 1]];
    }
  }

  lemma EarlyRoute(env: Environment, draw: Draw, batch: seq<EmittedMessage>, r: Route)
    requires r in EarlyRoutes(env, draw, batch)
    ensures r.msg in batch && CategoryOf(env, r.msg) != Rest
    ensures r.msg.filter(r.peer.pkiId) && Permitted(env, r.msg, r.peer.pkiId)
  {
    var blocks, leaders := Filter(Is(env, Block), batch), Filter(Is(env, Leadership), batch);
    if r in InChannels(env, draw, false, blocks) {
      ChannelsAreDistinct(blocks);
      ChannelRoute(env, draw, false, blocks, Channels(blocks), r);
      FilterMember(Is(env, Block), batch, r.msg);
    } else if r in InChannels(env, draw, true, leaders) {
      ChannelsAreDistinct(leaders);
      ChannelRoute(env, draw, true, leaders, Channels(leaders), r);
      FilterMember(Is(env, Leadership), batch, r.msg);
    } else if r in StateInfoRoutes(env, draw, StateInfos(env, batch)) {
      StateInfoRoute(env, draw, StateInfos(env, batch), r);
      FilterMember(Is(env, StateInfoUpdate), batch, r.msg);
    } else {
      OrgRoute(env, draw, Filter(Is(env, Restricted), batch), r);
      FilterMember(Is(env, Restricted), batch, r.msg);
    }
  }

  /** No route violates the filter its message came with, and every route obeys the rules of its
      message's category. */
  lemma EveryRouteIsPermitted(env: Environment, draw: Draw, batch: seq<EmittedMessage>, r: Route)
    requires r in BatchRoutes(env, draw, batch)
    ensures r.msg in batch && r.msg.filter(r.peer.pkiId) && Permitted(env, r.msg, r.peer.pkiId)
  {
    if r in EarlyRoutes(env, draw, batch) {
      EarlyRoute(env, draw, batch, r);
    } else {
      AliveRoute(env, draw, Filter(Is(env, Rest), batch), r);
      FilterMember(Is(env, Rest), batch, r.msg);
    }
  }

  // ----- How often each message is sent to each peer -----

  ghost function Equals<T>(x: T): T -> bool {
    y => y == x
  }

  /** The product of two numbers. */
  function Times(k: nat, n: nat): nat {
    if k == 0 then 0 else Times(k - 1, n) + n
  }

  lemma {:induction false} TimesIsProduct(k: nat, n: nat)
    ensures Times(k, n) == k * n
  {
    if k == 0 {
    } else {
      TimesIsProduct(k - 1, n);
    }
  }

  lemma {:induction false} CountInFilter<T>(p: T -> bool, s: seq<T>, x: T)
    ensures Count(Equals(x), Filter(p, s)) == if p(x) then Count(Equals(x), s) else 0
  {
    if s == [] {
    } else {
      CountInFilter(p, s[..|s| - 1], x);
    }
  }

  lemma {:induction false} CountMembers<T>(s: seq<T>, x: T)
    ensures Count(Equals(x), s) > 0 <==> x in s
  {
    if s == [] {
    } else {
      CountMembers(s[..|s| - 1], x);
      assert s == s[..|s| - 1] + [s[|s| - 1]];
    }
  }

  lemma {:induction false} CopiesCount(m: EmittedMessage, peers: seq<RemotePeer>, r: Route)
    ensures Count(Equals(r), Copies(m, peers)) == if r.msg == m then Count(Equals(r.peer), peers) else 0
  {
    if peers == [] {
    } else {
      var n := |peers| - 1;
      CopiesCount(m, peers[..n], r);
      assert Copies(m, peers)[..n] == Copies(m, peers[..n]);
    }
  }

  lemma ToEachStep(msgs: seq<EmittedMessage>, peers: seq<RemotePeer>, r: Route)
    requires msgs != []
    ensures var n := |msgs| - 1;
            Count(Equals(r), ToEach(msgs, peers)) == Count(Equals(r), ToEach(msgs[..n], peers))
            + if msgs[n] == r.msg && r.msg.filter(r.peer.pkiId) then Count(Equals(r.peer), peers) else 0
  {
    var n := |msgs| - 1;
    var admitted := Filter(Admits(msgs[n]), peers);
    CountConcat(Equals(r), ToEach(msgs[..n], peers), Copies(msgs[n], admitted));
    CopiesCount(msgs[n], admitted, r);
    CountInFilter(Admits(msgs[n]), peers, r.peer);
  }

  lemma {:induction false} ToEachCount(msgs: seq<EmittedMessage>, peers: seq<RemotePeer>, r: Route)
    ensures Count(Equals(r), ToEach(msgs, peers))
            == if r.msg.filter(r.peer.pkiId) then Times(Count(Equals(r.msg), msgs), Count(Equals(r.peer), peers)) else 0
  {
    if msgs == [] {
    } else {
      var n := |msgs| - 1;
      ToEachCount(msgs[..n], peers, r);
      ToEachStep(msgs, peers, r);
    }
  }

  /** Among distinct channels, only the message's own contributes. */
  lemma {:induction false} ChannelsCount(env: Environment, draw: Draw, leadership: bool, msgs: seq<EmittedMessage>,
                                         cs: seq<string>, r: Route)
    requires Distinct(cs)
    ensures var c := r.msg.message.channel;
            Count(Equals(r), ChannelRoutes(env, draw, leadership, msgs, cs))
            == if c in cs then Count(Equals(r), GroupRoutes(env, draw, leadership, msgs, c)) else 0
  {
    if cs == [] {
    } else {
      var n := |cs| - 1;
      ChannelsCount(env, draw, leadership, msgs, cs[..n], r);
      CountConcat(Equals(r), ChannelRoutes(env, draw, leadership, msgs, cs[..n]),
                  GroupRoutes(env, draw, leadership, msgs, cs[n]));
      CountMembers(GroupRoutes(env, draw, leadership, msgs, cs[n]), r);
      if cs[n] != r.msg.message.channel && r in GroupRoutes(env, draw, leadership, msgs, cs[n]) {
        GroupRoute(env, draw, leadership, msgs, cs[n], r);
      }
      assert cs == cs[..n] + [cs[n]];
    }
  }

  /** The peers chosen for the blocks or the leadership messages of a channel. */
  function ChosenPeers(env: Environment, draw: Draw, leadership: bool, c: string): seq<RemotePeer>
    requires c in env.channels
  {
    Select(if leadership then |env.membership| else env.propagatePeerNum,
           draw(ForChannel(leadership, c)), ChannelFilter(env, env.channels[c]))
  }

  lemma InChannelsCount(env: Environment, draw: Draw, leadership: bool, msgs: seq<EmittedMessage>, r: Route)
    requires r.msg in msgs && forall m | m in msgs :: m.message.content.LeadershipMsg? == leadership
    ensures var c := r.msg.message.channel;
            Count(Equals(r), InChannels(env, draw, leadership, msgs))
            == if c == "" || c !in env.channels || !r.msg.filter(r.peer.pkiId) then 0
               else Times(Count(Equals(r.msg), msgs), Count(Equals(r.peer), ChosenPeers(env, draw, leadership, c)))
  {
    var c := r.msg.message.channel;
    var group := Filter(OfChannel(c), msgs);
    ChannelsAreDistinct(msgs);
    ChannelsCount(env, draw, leadership, msgs, Channels(msgs), r);
    FilterMember(OfChannel(c), msgs, r.msg);
    FilterMember(OfChannel(c), msgs, group[0]);
    if c in env.channels {
      ToEachCount(group, ChosenPeers(env, draw, leadership, c), r);
      CountInFilter(OfChannel(c), msgs, r.msg);
    }
  }

  lemma PassCount(env: Environment, draw: Draw, batch: seq<EmittedMessage>, cat: Category, r: Route)
    requires r.msg in batch && CategoryOf(env, r.msg) == cat && cat in {Block, Leadership}
    ensures var c := r.msg.message.channel;
            Count(Equals(r), InChannels(env, draw, cat == Leadership, Filter(Is(env, cat), batch)))
            == if c == "" || c !in env.channels || !r.msg.filter(r.peer.pkiId) then 0
               else Times(Count(Equals(r.msg), batch),
                          Count(Equals(r.peer), ChosenPeers(env, draw, cat == Leadership, c)))
  {
    var msgs := Filter(Is(env, cat), batch);
    FilterMember(Is(env, cat), batch, r.msg);
    forall m | m in msgs
      ensures m.message.content.LeadershipMsg? == (cat == Leadership)
    {
      FilterMember(Is(env, cat), batch, m);
    }
    InChannelsCount(env, draw, cat == Leadership, msgs, r);
    CountInFilter(Is(env, cat), batch, r.msg);
  }

  /** The pass for a category. */
  function PassRoutes(env: Environment, draw: Draw, batch: seq<EmittedMessage>, cat: Category): seq<Route> {
    match cat
    case Block => InChannels(env, draw, false, Filter(Is(env, Block), batch))
    case Leadership => InChannels(env, draw, true, Filter(Is(env, Leadership), batch))
    case StateInfoUpdate => StateInfoRoutes(env, draw, StateInfos(env, batch))
    case Restricted => OrgRoutes(env, draw, Filter(Is(env, Restricted), batch))
    case Rest => AliveRoutes(env, draw, Filter(Is(env, Rest), batch))
  }

  lemma PassIsOfCategory(env: Environment, draw: Draw, batch: seq<EmittedMessage>, cat: Category, r: Route)
    requires r in PassRoutes(env, draw, batch, cat)
    ensures CategoryOf(env, r.msg) == cat
  {
    var msgs := Filter(Is(env, cat), batch);
    FilterMember(Is(env, cat), batch, r.msg);
    match cat
    case Block =>
      ChannelsAreDistinct(msgs);
      ChannelRoute(env, draw, false, msgs, Channels(msgs), r);
    case Leadership =>
      ChannelsAreDistinct(msgs);
      ChannelRoute(env, draw, true, msgs, Channels(msgs), r);
    case StateInfoUpdate => StateInfoRoute(env, draw, StateInfos(env, batch), r);
    case Restricted => OrgRoute(env, draw, msgs, r);
    case Rest => AliveRoute(env, draw, msgs, r);
  }

  lemma AbsentElsewhere(env: Environment, draw: Draw, batch: seq<EmittedMessage>, cat: Category, r: Route)
    ensures cat != CategoryOf(env, r.msg) ==> Count(Equals(r), PassRoutes(env, draw, batch, cat)) == 0
  {
    CountMembers(PassRoutes(env, draw, batch, cat), r);
    if r in PassRoutes(env, draw, batch, cat) {
      PassIsOfCategory(env, draw, batch, cat, r);
    }
  }

  /** The five passes together, whatever is counted. */
  lemma CountPasses(env: Environment, draw: Draw, batch: seq<EmittedMessage>, p: Route -> bool)
    ensures Count(p, BatchRoutes(env, draw, batch)) ==
            Count(p, PassRoutes(env, draw, batch, Block)) + Count(p, PassRoutes(env, draw, batch, Leadership))
            + Count(p, PassRoutes(env, draw, batch, StateInfoUpdate))
            + Count(p, PassRoutes(env, draw, batch, Restricted)) + Count(p, PassRoutes(env, draw, batch, Rest))
  {
    CountConcat5(p, PassRoutes(env, draw, batch, Block), PassRoutes(env, draw, batch, Leadership),
                 PassRoutes(env, draw, batch, StateInfoUpdate), PassRoutes(env, draw, batch, Restricted),
                 PassRoutes(env, draw, batch, Rest));
  }

  lemma CountParts(env: Environment, draw: Draw, batch: seq<EmittedMessage>, r: Route)
    ensures Count(Equals(r), BatchRoutes(env, draw, batch)) ==
            Count(Equals(r), PassRoutes(env, draw, batch, Block))
            + Count(Equals(r), PassRoutes(env, draw, batch, Leadership))
            + Count(Equals(r), PassRoutes(env, draw, batch, StateInfoUpdate))
            + Count(Equals(r), PassRoutes(env, draw, batch, Restricted))
            + Count(Equals(r), PassRoutes(env, draw, batch, Rest))
  {
    CountPasses(env, draw, batch, Equals(r));
  }

  /** A message is routed only by the pass for its own category. */
  lemma CountByCategory(env: Environment, draw: Draw, batch: seq<EmittedMessage>, r: Route)
    ensures Count(Equals(r), BatchRoutes(env, draw, batch))
            == Count(Equals(r), PassRoutes(env, draw, batch, CategoryOf(env, r.msg)))
  {
    CountParts(env, draw, batch, r);
    AbsentElsewhere(env, draw, batch, Block, r);
    AbsentElsewhere(env, draw, batch, Leadership, r);
    AbsentElsewhere(env, draw, batch, StateInfoUpdate, r);
    AbsentElsewhere(env, draw, batch, Restricted, r);
    AbsentElsewhere(env, draw, batch, Rest, r);
  }

  lemma ChannelMessageTimes(env: Environment, draw: Draw, batch: seq<EmittedMessage>, r: Route)
    requires r.msg in batch && CategoryOf(env, r.msg) in {Block, Leadership}
    ensures var c := r.msg.message.channel;
            Count(Equals(r), BatchRoutes(env, draw, batch))
            == if c == "" || c !in env.channels || !r.msg.filter(r.peer.pkiId) then 0
               else Times(Count(Equals(r.msg), batch),
                          Count(Equals(r.peer), ChosenPeers(env, draw, CategoryOf(env, r.msg) == Leadership, c)))
  {
    CountByCategory(env, draw, batch, r);
    PassCount(env, draw, batch, CategoryOf(env, r.msg), r);
  }

  /** Each block and each leadership message of a known channel goes exactly once, per time it is in the
      batch, to each peer chosen for its channel that its filter admits; others go nowhere. */
  lemma ChannelMessageCount(env: Environment, draw: Draw, batch: seq<EmittedMessage>, r: Route)
    requires r.msg in batch && CategoryOf(env, r.msg) in {Block, Leadership}
    ensures var c := r.msg.message.channel;
            Count(Equals(r), BatchRoutes(env, draw, batch))
            == if c == "" || c !in env.channels || !r.msg.filter(r.peer.pkiId) then 0
               else Count(Equals(r.msg), batch)
                    * Count(Equals(r.peer), ChosenPeers(env, draw, CategoryOf(env, r.msg) == Leadership, c))
  {
    var c, leadership := r.msg.message.channel, CategoryOf(env, r.msg) == Leadership;
    ChannelMessageTimes(env, draw, batch, r);
    if c in env.channels {
      TimesIsProduct(Count(Equals(r.msg), batch), Count(Equals(r.peer), ChosenPeers(env, draw, leadership, c)));
    }
  }

  /** Each restricted message goes exactly once, per time it is in the batch, to each peer chosen from the
      organisation that its filter admits. */
  lemma RestrictedMessageCount(env: Environment, draw: Draw, batch: seq<EmittedMessage>, r: Route)
    requires r.msg in batch && CategoryOf(env, r.msg) == Restricted
    ensures Count(Equals(r), BatchRoutes(env, draw, batch))
            == if !r.msg.filter(r.peer.pkiId) then 0
               else Count(Equals(r.msg), batch)
                    * Count(Equals(r.peer), Select(env.propagatePeerNum, draw(ForOrg), InMyOrg(env)))
  {
    var peers := Select(env.propagatePeerNum, draw(ForOrg), InMyOrg(env));
    CountByCategory(env, draw, batch, r);
    CountInFilter(Is(env, Restricted), batch, r.msg);
    ToEachCount(Filter(Is(env, Restricted), batch), peers, r);
    TimesIsProduct(Count(Equals(r.msg), batch), Count(Equals(r.peer), peers));
  }

  /** The sum of `each(i)` over the positions of `m` in a list. */
  function Total(msgs: seq<EmittedMessage>, m: EmittedMessage, each: nat -> nat): nat {
    if msgs == [] then 0
    else Total(msgs[..|msgs| - 1], m, each) + if msgs[|msgs| - 1] == m then each(|msgs| - 1) else 0
  }

  /** How often a peer is among those chosen for the i-th state-info message, if that is the route's. */
  ghost function StateInfoChoices(env: Environment, draw: Draw, r: Route): nat -> nat
    requires r.msg.message.content.StateInfo?
  {
    (i: nat) => Count(Equals(r.peer), Select(env.propagatePeerNum, draw(ForStateInfo(i)), StateInfoFilter(env, r.msg)))
  }

  ghost function AliveChoices(env: Environment, draw: Draw, r: Route): nat -> nat {
    (i: nat) => Count(Equals(r.peer), AlivePeers(env, draw, i, r.msg))
  }

  lemma {:induction false} StateInfoRoutesCount(env: Environment, draw: Draw, msgs: seq<EmittedMessage>, r: Route)
    requires r.msg.message.content.StateInfo? && forall m | m in msgs :: m.message.content.StateInfo?
    ensures Count(Equals(r), StateInfoRoutes(env, draw, msgs)) == Total(msgs, r.msg, StateInfoChoices(env, draw, r))
  {
    if msgs == [] {
    } else {
      var n := |msgs| - 1;
      var peers := Select(env.propagatePeerNum, draw(ForStateInfo(n)), StateInfoFilter(env, msgs[n]));
      StateInfoRoutesCount(env, draw, msgs[..n], r);
      CountConcat(Equals(r), StateInfoRoutes(env, draw, msgs[..n]), Copies(msgs[n], peers));
      CopiesCount(msgs[n], peers, r);
    }
  }

  lemma {:induction false} AliveRoutesCount(env: Environment, draw: Draw, msgs: seq<EmittedMessage>, r: Route)
    ensures Count(Equals(r), AliveRoutes(env, draw, msgs)) == Total(msgs, r.msg, AliveChoices(env, draw, r))
  {
    if msgs == [] {
    } else {
      var n := |msgs| - 1;
      AliveRoutesCount(env, draw, msgs[..n], r);
      CountConcat(Equals(r), AliveRoutes(env, draw, msgs[..n]), Copies(msgs[n], AlivePeers(env, draw, n, msgs[n])));
      CopiesCount(msgs[n], AlivePeers(env, draw, n, msgs[n]), r);
    }
  }

  lemma OnlyStateInfoPass(env: Environment, draw: Draw, batch: seq<EmittedMessage>, r: Route)
    requires CategoryOf(env, r.msg) == StateInfoUpdate
    ensures r.msg.message.content.StateInfo?
    ensures Count(Equals(r), BatchRoutes(env, draw, batch))
            == Count(Equals(r), StateInfoRoutes(env, draw, StateInfos(env, batch)))
  {
    CountByCategory(env, draw, batch, r);
  }

  /** Each state-info message goes exactly once, for each time it is in the batch, to each peer chosen for it
      that time. */
  lemma StateInfoMessageCount(env: Environment, draw: Draw, batch: seq<EmittedMessage>, r: Route)
    requires CategoryOf(env, r.msg) == StateInfoUpdate
    ensures Count(Equals(r), BatchRoutes(env, draw, batch))
            == Total(StateInfos(env, batch), r.msg, StateInfoChoices(env, draw, r))
  {
    OnlyStateInfoPass(env, draw, batch, r);
    StateInfoRoutesCount(env, draw, StateInfos(env, batch), r);
  }

  /** Each unrestricted alive message goes exactly once, for each time it is in the batch, to each peer chosen
      for it that time and not passed over; other unrestricted messages go nowhere. */
  lemma AliveMessageCount(env: Environment, draw: Draw, batch: seq<EmittedMessage>, r: Route)
    requires CategoryOf(env, r.msg) == Rest
    ensures Count(Equals(r), BatchRoutes(env, draw, batch))
            == Total(Filter(Is(env, Rest), batch), r.msg, AliveChoices(env, draw, r))
  {
    CountByCategory(env, draw, batch, r);
    AliveRoutesCount(env, draw, Filter(Is(env, Rest), batch), r);
  }

  /** Leadership messages reach every member of the network that the channel's routing filter and the
      message's own filter admit, whatever the random selections. */
  lemma LeadershipReachesAll(env: Environment, draw: Draw, batch: seq<EmittedMessage>, m: EmittedMessage, p: Peer)
    requires Permutes(env, draw) && m in batch && CategoryOf(env, m) == Leadership
    requires m.message.channel != "" && m.message.channel in env.channels
    requires p in env.membership && m.filter(p.pkiId) && ChannelFilter(env, env.channels[m.message.channel])(p)
    ensures Route(m, Remote(p)) in BatchRoutes(env, draw, batch)
  {
    var r, c := Route(m, Remote(p)), m.message.channel;
    var pool, filter := draw(ForChannel(true, c)), ChannelFilter(env, env.channels[c]);
    var peers := ChosenPeers(env, draw, true, c);
    assert multiset(pool) == multiset(env.membership);
    assert p in multiset(pool) && |pool| == |multiset(pool)| == |env.membership|;
    FilterMember(filter, pool, p);
    assert Take(|env.membership|, Filter(filter, pool)) == Filter(filter, pool);
    var i :| 0 <= i < |Filter(filter, pool)| && Filter(filter, pool)[i] == p;
    assert peers[i] == Remote(p);
    ChannelMessageTimes(env, draw, batch, r);
    CountMembers(batch, m);
    CountMembers(peers, r.peer);
    CountMembers(BatchRoutes(env, draw, batch), r);
  }

  // ----- How many peers each message reaches -----

  /** How many of the members a selection of at most `k` peers picks; a negative `k` picks all. */
  function Fan(k: int, eligible: nat): nat {
    if 0 <= k < eligible then k else eligible
  }

  /** Whatever the permutation, a selection has as many peers as asked for and eligible. */
  lemma SelectedCount(env: Environment, draw: Draw, pick: Pick, k: int, filter: RoutingFilter)
    requires Permutes(env, draw)
    ensures |Select(k, draw(pick), filter)| == Fan(k, Count(filter, env.membership))
  {
    assert multiset(draw(pick)) == multiset(env.membership);
    SelectionCount(k, env.membership, draw(pick), filter);
  }

  /** For a channel's leadership messages all eligible members are chosen, for its blocks, and for restricted
      messages, at most the configured number; the source filters are applied to them afterwards. */
  lemma ChosenCount(env: Environment, draw: Draw, c: string)
    requires Permutes(env, draw) && c in env.channels
    ensures var eligible := Count(ChannelFilter(env, env.channels[c]), env.membership);
            && |ChosenPeers(env, draw, true, c)| == eligible
            && |ChosenPeers(env, draw, false, c)| == Fan(env.propagatePeerNum, eligible)
  {
    var filter := ChannelFilter(env, env.channels[c]);
    SelectedCount(env, draw, ForChannel(true, c), |env.membership|, filter);
    SelectedCount(env, draw, ForChannel(false, c), env.propagatePeerNum, filter);
    CountIsFilter(filter, env.membership);
  }

  lemma RestrictedChosenCount(env: Environment, draw: Draw)
    requires Permutes(env, draw)
    ensures |Select(env.propagatePeerNum, draw(ForOrg), InMyOrg(env))|
            == Fan(env.propagatePeerNum, Count(InMyOrg(env), env.membership))
  {
    SelectedCount(env, draw, ForOrg, env.propagatePeerNum, InMyOrg(env));
  }

  ghost function Carries(m: EmittedMessage): Route -> bool {
    (r: Route) => r.msg == m
  }

  lemma {:induction false} CarriesCopies(m: EmittedMessage, x: EmittedMessage, peers: seq<RemotePeer>)
    ensures Count(Carries(m), Copies(x, peers)) == if x == m then |peers| else 0
  {
    if peers == [] {
    } else {
      var n := |peers| - 1;
      CarriesCopies(m, x, peers[..n]);
      assert Copies(x, peers)[..n] == Copies(x, peers[..n]);
    }
  }

  lemma NotCarriedElsewhere(env: Environment, draw: Draw, batch: seq<EmittedMessage>, cat: Category, m: EmittedMessage)
    ensures cat != CategoryOf(env, m) ==> Count(Carries(m), PassRoutes(env, draw, batch, cat)) == 0
  {
    var routes := PassRoutes(env, draw, batch, cat);
    if cat != CategoryOf(env, m) {
      forall r | r in routes
        ensures !Carries(m)(r)
      {
        PassIsOfCategory(env, draw, batch, cat, r);
      }
      CountBounds(Carries(m), Carries(m), routes);
    }
  }

  lemma CarriedByOwnPass(env: Environment, draw: Draw, batch: seq<EmittedMessage>, m: EmittedMessage)
    ensures Count(Carries(m), BatchRoutes(env, draw, batch))
            == Count(Carries(m), PassRoutes(env, draw, batch, CategoryOf(env, m)))
  {
    CountPasses(env, draw, batch, Carries(m));
    NotCarriedElsewhere(env, draw, batch, Block, m);
    NotCarriedElsewhere(env, draw, batch, Leadership, m);
    NotCarriedElsewhere(env, draw, batch, StateInfoUpdate, m);
    NotCarriedElsewhere(env, draw, batch, Restricted, m);
    NotCarriedElsewhere(env, draw, batch, Rest, m);
  }

  lemma OccurrencesNext(msgs: seq<EmittedMessage>, n: nat, m: EmittedMessage, fan: nat)
    requires |msgs| == n + 1
    ensures Times(Count(Equals(m), msgs), fan)
            == Times(Count(Equals(m), msgs[..n]), fan) + if msgs[n] == m then fan else 0
  {
    var before := Count(Equals(m), msgs[..n]);
    if msgs[n] == m {
      assert Count(Equals(m), msgs) == before + 1;
      assert Times(before + 1, fan) == Times(before, fan) + fan;
    } else {
      assert Count(Equals(m), msgs) == before;
    }
  }

  lemma StateInfoFanStep(env: Environment, draw: Draw, msgs: seq<EmittedMessage>, n: nat, m: EmittedMessage)
    requires Permutes(env, draw) && m.message.content.StateInfo? && |msgs| == n + 1
    requires forall x | x in msgs :: x.message.content.StateInfo?
    ensures Count(Carries(m), StateInfoRoutes(env, draw, msgs))
            == Count(Carries(m), StateInfoRoutes(env, draw, msgs[..n]))
               + if msgs[n] == m then Fan(env.propagatePeerNum, Count(StateInfoFilter(env, m), env.membership)) else 0
  {
    var peers := Select(env.propagatePeerNum, draw(ForStateInfo(n)), StateInfoFilter(env, msgs[n]));
    CountConcat(Carries(m), StateInfoRoutes(env, draw, msgs[..n]), Copies(msgs[n], peers));
    CarriesCopies(m, msgs[n], peers);
    SelectedCount(env, draw, ForStateInfo(n), env.propagatePeerNum, StateInfoFilter(env, msgs[n]));
  }

  lemma {:induction false} StateInfoFan(env: Environment, draw: Draw, msgs: seq<EmittedMessage>, m: EmittedMessage,
                                        fan: nat)
    requires Permutes(env, draw) && m.message.content.StateInfo?
    requires forall x | x in msgs :: x.message.content.StateInfo?
    requires fan == Fan(env.propagatePeerNum, Count(StateInfoFilter(env, m), env.membership))
    ensures Count(Carries(m), StateInfoRoutes(env, draw, msgs)) == Times(Count(Equals(m), msgs), fan)
  {
    if msgs == [] {
    } else {
      StateInfoFan(env, draw, msgs[..|msgs| - 1], m, fan);
      StateInfoFanStep(env, draw, msgs, |msgs| - 1, m);
      OccurrencesNext(msgs, |msgs| - 1, m, fan);
    }
  }

  /** Whatever the permutations, each occurrence of a state-info message is sent to min(configured, eligible)
      peers. */
  lemma StateInfoReach(env: Environment, draw: Draw, batch: seq<EmittedMessage>, m: EmittedMessage)
    requires Permutes(env, draw) && CategoryOf(env, m) == StateInfoUpdate
    ensures m.message.content.StateInfo?
    ensures Count(Carries(m), BatchRoutes(env, draw, batch))
            == Count(Equals(m), batch)
               * Fan(env.propagatePeerNum, Count(StateInfoFilter(env, m), env.membership))
  {
    var fan := Fan(env.propagatePeerNum, Count(StateInfoFilter(env, m), env.membership));
    CarriedByOwnPass(env, draw, batch, m);
    StateInfoFan(env, draw, StateInfos(env, batch), m, fan);
    CountInFilter(Is(env, StateInfoUpdate), batch, m);
    TimesIsProduct(Count(Equals(m), batch), fan);
  }

  lemma AlivePeersCount(env: Environment, draw: Draw, n: nat, m: EmittedMessage)
    requires Permutes(env, draw) && m.message.content.AliveMsg?
    ensures var fan := Fan(env.propagatePeerNum, Count(AliveFilter(env, m), env.membership));
            && |AlivePeers(env, draw, n, m)| <= fan
            && (IsInMyOrg(env, m.message.content.membership.pkiId) ==> |AlivePeers(env, draw, n, m)| == fan)
  {
    var peers := Select(env.propagatePeerNum, draw(ForAlive(n)), AliveFilter(env, m));
    SelectedCount(env, draw, ForAlive(n), env.propagatePeerNum, AliveFilter(env, m));
    if IsInMyOrg(env, m.message.content.membership.pkiId) {
      FilterAll(Reaches(env, m), peers);
    }
  }

  lemma AliveFanStep(env: Environment, draw: Draw, msgs: seq<EmittedMessage>, n: nat, m: EmittedMessage)
    requires Permutes(env, draw) && |msgs| == n + 1
    ensures Count(Carries(m), AliveRoutes(env, draw, msgs))
            == Count(Carries(m), AliveRoutes(env, draw, msgs[..n]))
               + if msgs[n] == m then |AlivePeers(env, draw, n, m)| else 0
  {
    CountConcat(Carries(m), AliveRoutes(env, draw, msgs[..n]), Copies(msgs[n], AlivePeers(env, draw, n, msgs[n])));
    CarriesCopies(m, msgs[n], AlivePeers(env, draw, n, msgs[n]));
  }

  lemma {:induction false} AliveFan(env: Environment, draw: Draw, msgs: seq<EmittedMessage>, m: EmittedMessage,
                                    fan: nat)
    requires Permutes(env, draw) && m.message.content.AliveMsg?
    requires fan == Fan(env.propagatePeerNum, Count(AliveFilter(env, m), env.membership))
    ensures var sends := Count(Carries(m), AliveRoutes(env, draw, msgs));
            && sends <= Times(Count(Equals(m), msgs), fan)
            && (IsInMyOrg(env, m.message.content.membership.pkiId) ==> sends == Times(Count(Equals(m), msgs), fan))
  {
    if msgs == [] {
    } else {
      var n := |msgs| - 1;
      AliveFan(env, draw, msgs[..n], m, fan);
      AliveFanStep(env, draw, msgs, n, m);
      AlivePeersCount(env, draw, n, m);
      OccurrencesNext(msgs, n, m, fan);
    }
  }

  /** Each occurrence of an unrestricted alive message is sent to min(configured, eligible) peers if it is of
      one's own organisation; otherwise those without an external endpoint are passed over. */
  lemma AliveReach(env: Environment, draw: Draw, batch: seq<EmittedMessage>, m: EmittedMessage)
    requires Permutes(env, draw) && CategoryOf(env, m) == Rest && m.message.content.AliveMsg?
    ensures var sends := Count(Carries(m), BatchRoutes(env, draw, batch));
            var most := Count(Equals(m), batch)
                        * Fan(env.propagatePeerNum, Count(AliveFilter(env, m), env.membership));
            sends <= most && (IsInMyOrg(env, m.message.content.membership.pkiId) ==> sends == most)
  {
    var fan := Fan(env.propagatePeerNum, Count(AliveFilter(env, m), env.membership));
    CarriedByOwnPass(env, draw, batch, m);
    AliveFan(env, draw, Filter(Is(env, Rest), batch), m, fan);
    CountInFilter(Is(env, Rest), batch, m);
    TimesIsProduct(Count(Equals(m), batch), fan);
  }
}
