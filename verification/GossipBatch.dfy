/** Sending a batch: `sendGossipBatch` and `gossipInChan` of gossip/gossip.go. */
module GossipBatch {
  import opened Sequences
  import opened Messages
  import opened Membership
  import opened Selection
  import opened Routing
  import opened RoutingLaws

  /** What was handed to the communication layer: the route, and the secret envelope that went along. */
  datatype Sent = Sent(route: Route, secret: Option<string>)

  type Secrets = map<EmittedMessage, Option<string>>

  function SecretsOf(batch: seq<EmittedMessage>): Secrets
    reads batch
  {
    map m | m in batch :: m.secret
  }

  /** The messages still carry these secret envelopes. */
  ghost predicate Current(secrets: Secrets)
    reads secrets.Keys
  {
    forall m | m in secrets :: m.secret == secrets[m]
  }

  ghost predicate Within(msgs: seq<EmittedMessage>, secrets: Secrets) {
    forall m | m in msgs :: m in secrets
  }

  function Envelope(secrets: Secrets, m: EmittedMessage): Option<string> {
    if m in secrets then secrets[m] else None
  }

  /** The routes, each with the secret envelope its message carries. */
  function AsIs(routes: seq<Route>, secrets: Secrets): (r: seq<Sent>)
    ensures |r| == |routes| && forall i | 0 <= i < |routes| :: r[i] == Sent(routes[i], Envelope(secrets, routes[i].msg))
  {
    seq(|routes|, i requires 0 <= i < |routes| => Sent(routes[i], Envelope(secrets, routes[i].msg)))
  }

  lemma AsIsConcat(a: seq<Route>, b: seq<Route>, secrets: Secrets)
    ensures AsIs(a + b, secrets) == AsIs(a, secrets) + AsIs(b, secrets)
  {
  }

  predicate Foreign(env: Environment, p: RemotePeer) {
    !IsInMyOrg(env, p.pkiId)
  }

  /** The message is an alive message that one of the routes takes out of the organisation. */
  ghost predicate Cleared(env: Environment, routes: seq<Route>, m: EmittedMessage) {
    m.message.content.AliveMsg? && exists k | 0 <= k < |routes| :: routes[k].msg == m && Foreign(env, routes[k].peer)
  }

  /** The secret envelope a message carries after the given routes. */
  ghost function Kept(env: Environment, routes: seq<Route>, m: EmittedMessage, before: Secrets): Option<string> {
    if Cleared(env, routes, m) || m !in before then None else before[m]
  }

  /** What the routes send: an alive message loses its secret envelope, for good, just before its first
      route out of the organisation. */
  ghost function Carried(env: Environment, routes: seq<Route>, before: Secrets): seq<Sent> {
    if routes == [] then []
    else var r := routes[|routes| - 1];
         Carried(env, routes[..|routes| - 1], before) + [Sent(r, Kept(env, routes, r.msg, before))]
  }

  ghost function SecretAfter(env: Environment, peers: seq<RemotePeer>, secret: Option<string>): Option<string> {
    if exists p | p in peers :: Foreign(env, p) then None else secret
  }

  ghost function AliveSends(env: Environment, m: EmittedMessage, peers: seq<RemotePeer>,
                            secret: Option<string>): seq<Sent> {
    if peers == [] then []
    else AliveSends(env, m, peers[..|peers| - 1], secret)
         + [Sent(Route(m, peers[|peers| - 1]), SecretAfter(env, peers, secret))]
  }

  /** Of one of these channels. */
  function OfAny(cs: seq<string>): EmittedMessage -> bool {
    (m: EmittedMessage) => m.message.channel in cs
  }

  /** What is grabbed for a channel from the messages left over is everything the batch has for it. */
  lemma GroupIsWhole(msgs: seq<EmittedMessage>, cs: seq<string>, n: nat)
    requires Distinct(cs) && n < |cs|
    ensures var rest := Filter(Not(OfAny(cs[..n])), msgs);
            && Filter(OfChannel(cs[n]), rest) == Filter(OfChannel(cs[n]), msgs)
            && Filter(Not(OfChannel(cs[n])), rest) == Filter(Not(OfAny(cs[..n + 1])), msgs)
  {
    assert cs[..n + 1] == cs[..n] + [cs[n]];
    FilterTwice(Not(OfAny(cs[..n])), OfChannel(cs[n]), OfChannel(cs[n]), msgs);
    FilterTwice(Not(OfAny(cs[..n])), Not(OfChannel(cs[n])), Not(OfAny(cs[..n + 1])), msgs);
  }

  lemma ChannelStep(env: Environment, draw: Draw, leadership: bool, msgs: seq<EmittedMessage>, cs: seq<string>,
                    n: nat, secrets: Secrets)
    requires n < |cs|
    ensures AsIs(ChannelRoutes(env, draw, leadership, msgs, cs[..n + 1]), secrets)
            == AsIs(ChannelRoutes(env, draw, leadership, msgs, cs[..n]), secrets)
               + AsIs(GroupRoutes(env, draw, leadership, msgs, cs[n]), secrets)
  {
    assert cs[..n + 1][..n] == cs[..n];
    AsIsConcat(ChannelRoutes(env, draw, leadership, msgs, cs[..n]), GroupRoutes(env, draw, leadership, msgs, cs[n]),
               secrets);
  }

  lemma SecretStep(env: Environment, peers: seq<RemotePeer>, p: RemotePeer, secret: Option<string>)
    ensures SecretAfter(env, peers + [p], secret) == if Foreign(env, p) then None else SecretAfter(env, peers, secret)
  {
    if SecretAfter(env, peers, secret) != secret {
      var q :| q in peers && Foreign(env, q);
      assert q in peers + [p];
    }
    assert p in peers + [p];
  }

  lemma AliveStep(env: Environment, m: EmittedMessage, peers: seq<RemotePeer>, p: RemotePeer, secret: Option<string>)
    ensures var after := if Foreign(env, p) then None else SecretAfter(env, peers, secret);
            && SecretAfter(env, peers + [p], secret) == after
            && AliveSends(env, m, peers + [p], secret) == AliveSends(env, m, peers, secret) + [Sent(Route(m, p), after)]
  {
    SecretStep(env, peers, p, secret);
    assert (peers + [p])[..|peers|] == peers;
  }

  /** `SendAlive` has sent to `reached`: `log` is what has been sent, counting from `start`, and `current` the
      secret envelope left of `secret`. */
  ghost predicate Spreading(env: Environment, m: EmittedMessage, reached: seq<RemotePeer>, secret: Option<string>,
                            start: seq<Sent>, log: seq<Sent>, current: Option<string>)
  {
    log == start + AliveSends(env, m, reached, secret) && current == SecretAfter(env, reached, secret)
  }

  lemma SpreadStep(env: Environment, m: EmittedMessage, reached: seq<RemotePeer>, p: RemotePeer,
                   secret: Option<string>, start: seq<Sent>, log: seq<Sent>, current: Option<string>)
    requires Spreading(env, m, reached, secret, start, log, current)
    ensures var after := if Foreign(env, p) then None else current;
            Spreading(env, m, reached + [p], secret, start, log + [Sent(Route(m, p), after)], after)
  {
    AliveStep(env, m, reached, p, secret);
    var after := if Foreign(env, p) then None else current;
    Associate(start, AliveSends(env, m, reached, secret), [Sent(Route(m, p), after)]);
  }

  /** `GossipInChan` has handled the first `done` channels: `left` are the others, `rest` are the messages not
      grabbed yet, and `log` is what has been sent, counting from `start`. */
  ghost predicate Grabbing(env: Environment, draw: Draw, leadership: bool, msgs: seq<EmittedMessage>, all: seq<string>,
                           done: int, left: seq<string>, rest: seq<EmittedMessage>, start: seq<Sent>, log: seq<Sent>,
                           secrets: Secrets)
  {
    && 0 <= done <= |all| && left == all[done..]
    && rest == Filter(Not(OfAny(all[..done])), msgs)
    && log == start + AsIs(ChannelRoutes(env, draw, leadership, msgs, all[..done]), secrets)
  }

  lemma GrabStart(env: Environment, draw: Draw, leadership: bool, msgs: seq<EmittedMessage>, all: seq<string>,
                  start: seq<Sent>, secrets: Secrets)
    ensures Grabbing(env, draw, leadership, msgs, all, 0, all, msgs, start, start, secrets)
  {
    FilterNone(OfAny(all[..0]), msgs);
    assert AsIs(ChannelRoutes(env, draw, leadership, msgs, all[..0]), secrets) == [];
  }

  lemma GrabStep(env: Environment, draw: Draw, leadership: bool, msgs: seq<EmittedMessage>, all: seq<string>,
                 done: int, left: seq<string>, rest: seq<EmittedMessage>, start: seq<Sent>, log: seq<Sent>,
                 secrets: Secrets)
    requires Grabbing(env, draw, leadership, msgs, all, done, left, rest, start, log, secrets)
    requires Distinct(all) && left != []
    ensures var c := left[0];
            && Filter(OfChannel(c), rest) == Filter(OfChannel(c), msgs)
            && Grabbing(env, draw, leadership, msgs, all, done + 1, left[1..], Filter(Not(OfChannel(c)), rest), start,
                        log + AsIs(GroupRoutes(env, draw, leadership, msgs, c), secrets), secrets)
  {
    GroupIsWhole(msgs, all, done);
    ChannelStep(env, draw, leadership, msgs, all, done, secrets);
    Associate(start, AsIs(ChannelRoutes(env, draw, leadership, msgs, all[..done]), secrets),
              AsIs(GroupRoutes(env, draw, leadership, msgs, all[done]), secrets));
  }

  lemma GrabEnd(env: Environment, draw: Draw, leadership: bool, msgs: seq<EmittedMessage>, all: seq<string>,
                done: int, rest: seq<EmittedMessage>, start: seq<Sent>, log: seq<Sent>, secrets: Secrets)
    requires Grabbing(env, draw, leadership, msgs, all, done, [], rest, start, log, secrets)
    ensures log == start + AsIs(ChannelRoutes(env, draw, leadership, msgs, all), secrets)
  {
    assert all[..|all|] == all;
  }

  lemma WithinFiltered(p: EmittedMessage -> bool, msgs: seq<EmittedMessage>, secrets: Secrets)
    requires Within(msgs, secrets)
    ensures Within(Filter(p, msgs), secrets)
  {
    forall m | m in Filter(p, msgs)
      ensures m in msgs
    {
      FilterMember(p, msgs, m);
    }
  }

  lemma PartsWithin(env: Environment, batch: seq<EmittedMessage>, secrets: Secrets)
    requires Within(batch, secrets)
    ensures Within(Filter(Is(env, Block), batch), secrets) && Within(Filter(Is(env, Leadership), batch), secrets)
    ensures Within(StateInfos(env, batch), secrets) && Within(Filter(Is(env, Restricted), batch), secrets)
    ensures Within(Filter(Is(env, Rest), batch), secrets)
  {
    WithinFiltered(Is(env, Block), batch, secrets);
    WithinFiltered(Is(env, Leadership), batch, secrets);
    WithinFiltered(Is(env, StateInfoUpdate), batch, secrets);
    WithinFiltered(Is(env, Restricted), batch, secrets);
    WithinFiltered(Is(env, Rest), batch, secrets);
  }

  lemma AsIsConcat4(start: seq<Sent>, a: seq<Route>, b: seq<Route>, c: seq<Route>, d: seq<Route>, secrets: Secrets)
    ensures start + AsIs(a + b + c + d, secrets)
            == start + AsIs(a, secrets) + AsIs(b, secrets) + AsIs(c, secrets) + AsIs(d, secrets)
  {
    AsIsConcat(a + b + c, d, secrets);
    AsIsConcat(a + b, c, secrets);
    AsIsConcat(a, b, secrets);
    Associate(start, AsIs(a + b + c, secrets), AsIs(d, secrets));
    Associate(start, AsIs(a + b, secrets), AsIs(c, secrets));
    Associate(start, AsIs(a, secrets), AsIs(b, secrets));
  }

  lemma EarlyParts(start: seq<Sent>, env: Environment, draw: Draw, batch: seq<EmittedMessage>, secrets: Secrets)
    ensures start + AsIs(EarlyRoutes(env, draw, batch), secrets)
            == start + AsIs(InChannels(env, draw, false, Filter(Is(env, Block), batch)), secrets)
               + AsIs(InChannels(env, draw, true, Filter(Is(env, Leadership), batch)), secrets)
               + AsIs(StateInfoRoutes(env, draw, StateInfos(env, batch)), secrets)
               + AsIs(OrgRoutes(env, draw, Filter(Is(env, Restricted), batch)), secrets)
  {
    var a := InChannels(env, draw, false, Filter(Is(env, Block), batch));
    var b := InChannels(env, draw, true, Filter(Is(env, Leadership), batch));
    var c := StateInfoRoutes(env, draw, StateInfos(env, batch));
    var d := OrgRoutes(env, draw, Filter(Is(env, Restricted), batch));
    AsIsConcat4(start, a, b, c, d, secrets);
  }

  lemma AliveRoutesStep(env: Environment, draw: Draw, early: seq<Route>, msgs: seq<EmittedMessage>, n: nat)
    requires n < |msgs|
    ensures early + AliveRoutes(env, draw, msgs[..n + 1])
            == early + AliveRoutes(env, draw, msgs[..n]) + Copies(msgs[n], AlivePeers(env, draw, n, msgs[n]))
  {
    assert msgs[..n + 1][..n] == msgs[..n];
    Associate(early, AliveRoutes(env, draw, msgs[..n]), Copies(msgs[n], AlivePeers(env, draw, n, msgs[n])));
  }

  lemma ClearedAppend(env: Environment, routes: seq<Route>, r: Route, m: EmittedMessage)
    ensures Cleared(env, routes + [r], m)
            <==> Cleared(env, routes, m) || (m == r.msg && m.message.content.AliveMsg? && Foreign(env, r.peer))
  {
    var all := routes + [r];
    if Cleared(env, routes, m) {
      var k :| 0 <= k < |routes| && routes[k].msg == m && Foreign(env, routes[k].peer);
      assert all[k] == routes[k];
    }
    assert all[|routes|] == r;
  }

  lemma {:induction false} KeptAfterCopies(env: Environment, routes: seq<Route>, m: EmittedMessage,
                                           peers: seq<RemotePeer>, before: Secrets, x: EmittedMessage)
    requires m.message.content.AliveMsg? && x in before
    ensures Kept(env, routes + Copies(m, peers), x, before)
            == if x == m then SecretAfter(env, peers, Kept(env, routes, m, before)) else Kept(env, routes, x, before)
  {
    if peers == [] {
      assert routes + Copies(m, peers) == routes;
    } else {
      var n := |peers| - 1;
      var r := Route(m, peers[n]);
      KeptAfterCopies(env, routes, m, peers[..n], before, x);
      assert routes + Copies(m, peers) == routes + Copies(m, peers[..n]) + [r];
      ClearedAppend(env, routes + Copies(m, peers[..n]), r, x);
      SecretStep(env, peers[..n], peers[n], Kept(env, routes, m, before));
      assert peers == peers[..n] + [peers[n]];
    }
  }

  lemma KeptAppend(env: Environment, routes: seq<Route>, m: EmittedMessage, peers: seq<RemotePeer>, before: Secrets)
    requires m.message.content.AliveMsg?
    ensures forall x | x in before ::
              Kept(env, routes + Copies(m, peers), x, before)
              == if x == m then SecretAfter(env, peers, Kept(env, routes, m, before)) else Kept(env, routes, x, before)
  {
    forall x | x in before
      ensures Kept(env, routes + Copies(m, peers), x, before)
              == if x == m then SecretAfter(env, peers, Kept(env, routes, m, before)) else Kept(env, routes, x, before)
    {
      KeptAfterCopies(env, routes, m, peers, before, x);
    }
  }

  lemma CopiesNext(routes: seq<Route>, m: EmittedMessage, peers: seq<RemotePeer>, n: nat)
    requires |peers| == n + 1
    ensures routes + Copies(m, peers) == routes + Copies(m, peers[..n]) + [Route(m, peers[n])]
  {
  }

  lemma CarriedNext(env: Environment, routes: seq<Route>, r: Route, before: Secrets)
    ensures Carried(env, routes + [r], before)
            == Carried(env, routes, before) + [Sent(r, Kept(env, routes + [r], r.msg, before))]
  {
    assert (routes + [r])[..|routes|] == routes;
  }

  lemma {:induction false} CarriedAppend(env: Environment, routes: seq<Route>, m: EmittedMessage,
                                         peers: seq<RemotePeer>, before: Secrets)
    requires m.message.content.AliveMsg? && m in before
    ensures Carried(env, routes + Copies(m, peers), before)
            == Carried(env, routes, before) + AliveSends(env, m, peers, Kept(env, routes, m, before))
  {
    if peers == [] {
      assert routes + Copies(m, peers) == routes;
    } else {
      var n := |peers| - 1;
      CarriedAppend(env, routes, m, peers[..n], before);
      CopiesNext(routes, m, peers, n);
      CarriedNext(env, routes + Copies(m, peers[..n]), Route(m, peers[n]), before);
      KeptAfterCopies(env, routes, m, peers, before, m);
      var secret := Kept(env, routes, m, before);
      Associate(Carried(env, routes, before), AliveSends(env, m, peers[..n], secret),
                [Sent(Route(m, peers[n]), SecretAfter(env, peers, secret))]);
    }
  }

  /** Routes that take no alive message out of the organisation leave all secret envelopes in place. */
  lemma {:induction false} HomeRoutesKeepSecrets(env: Environment, routes: seq<Route>, before: Secrets)
    requires forall r | r in routes :: r.msg.message.content.AliveMsg? ==> !Foreign(env, r.peer)
    ensures Carried(env, routes, before) == AsIs(routes, before)
    ensures forall m | m in before :: Kept(env, routes, m, before) == before[m]
  {
    if routes == [] {
    } else {
      HomeRoutesKeepSecrets(env, routes[..|routes| - 1], before);
    }
  }

  lemma EarlyRoutesKeepSecrets(env: Environment, draw: Draw, batch: seq<EmittedMessage>, before: Secrets)
    ensures var early := EarlyRoutes(env, draw, batch);
            && Carried(env, early, before) == AsIs(early, before)
            && forall m | m in before :: Kept(env, early, m, before) == before[m]
  {
    var early := EarlyRoutes(env, draw, batch);
    forall r | r in early
      ensures r.msg.message.content.AliveMsg? ==> !Foreign(env, r.peer)
    {
      EarlyRoute(env, draw, batch, r);
    }
    HomeRoutesKeepSecrets(env, early, before);
  }

  lemma StateInfoStep(env: Environment, draw: Draw, msgs: seq<EmittedMessage>, n: nat, secrets: Secrets)
    requires n < |msgs| && forall m | m in msgs :: m.message.content.StateInfo?
    ensures AsIs(StateInfoRoutes(env, draw, msgs[..n + 1]), secrets)
            == AsIs(StateInfoRoutes(env, draw, msgs[..n]), secrets)
               + AsIs(Copies(msgs[n], Select(env.propagatePeerNum, draw(ForStateInfo(n)),
                                             StateInfoFilter(env, msgs[n]))), secrets)
  {
    assert msgs[..n + 1][..n] == msgs[..n];
    AsIsConcat(StateInfoRoutes(env, draw, msgs[..n]),
               Copies(msgs[n], Select(env.propagatePeerNum, draw(ForStateInfo(n)),
                                      StateInfoFilter(env, msgs[n]))), secrets);
  }

  method CollectChannels(messages: seq<EmittedMessage>) returns (totalChannels: seq<string>)
    ensures totalChannels == Channels(messages)
  {
    totalChannels := [];
    for i := 0 to |messages|
      invariant totalChannels == Channels(messages[..i])
    {
      assert messages[..i + 1][..i] == messages[..i];
      if |messages[i].message.channel| == 0 {
        continue;
      }
      var at := IndexInSlice(totalChannels, messages[i].message.channel);
      if at == -1 {
        totalChannels := totalChannels + [messages[i].message.channel];
      }
    }
    assert messages[..|messages|] == messages;
  }

  class GossipService {
    var sent: seq<Sent>

    constructor ()
      ensures sent == []
    {
      sent := [];
    }

    method Send(m: EmittedMessage, peers: seq<RemotePeer>, ghost secrets: Secrets)
      requires Within([m], secrets) && Current(secrets)
      modifies this
      ensures sent == old(sent) + AsIs(Copies(m, peers), secrets)
    {
      assert m in [m];
      for i := 0 to |peers|
        invariant sent == old(sent) + AsIs(Copies(m, peers), secrets)[..i]
      {
        sent := sent + [Sent(Route(m, peers[i]), m.secret)];
      }
    }

    method RemoveSelfLoop(msg: EmittedMessage, peers: seq<RemotePeer>) returns (result: seq<RemotePeer>)
      ensures result == Filter(Admits(msg), peers)
    {
      result := [];
      for i := 0 to |peers|
        invariant result == Filter(Admits(msg), peers[..i])
      {
        FilterStep(Admits(msg), peers, i);
        if msg.filter(peers[i].pkiId) {
          result := result + [peers[i]];
        }
      }
      assert peers[..|peers|] == peers;
    }

    /** The loop shared by the channel groups and the restricted messages. */
    method SendToEach(msgs: seq<EmittedMessage>, peers: seq<RemotePeer>, ghost secrets: Secrets)
      requires Within(msgs, secrets) && Current(secrets)
      modifies this
      ensures sent == old(sent) + AsIs(ToEach(msgs, peers), secrets)
    {
      for i := 0 to |msgs|
        invariant sent == old(sent) + AsIs(ToEach(msgs[..i], peers), secrets)
      {
        assert msgs[..i + 1][..i] == msgs[..i];
        var filteredPeers := RemoveSelfLoop(msgs[i], peers);
        AsIsConcat(ToEach(msgs[..i], peers), Copies(msgs[i], filteredPeers), secrets);
        Send(msgs[i], filteredPeers, secrets);
      }
      assert msgs[..|msgs|] == msgs;
    }

    method GossipInChan(messages: seq<EmittedMessage>, leadership: bool, env: Environment, draw: Draw,
                        ghost secrets: Secrets)
      requires Within(messages, secrets) && Current(secrets)
      modifies this
      ensures sent == old(sent) + AsIs(InChannels(env, draw, leadership, messages), secrets)
    {
      if |messages| == 0 {
        return;
      }
      var totalChannels := CollectChannels(messages);
      ChannelsAreDistinct(messages);
      ghost var all, done := totalChannels, 0;
      var rest := messages;
      GrabStart(env, draw, leadership, messages, all, sent, secrets);
      while |totalChannels| > 0
        invariant Grabbing(env, draw, leadership, messages, all, done, totalChannels, rest, old(sent), sent, secrets)
        decreases |totalChannels|
      {
        GrabStep(env, draw, leadership, messages, all, done, totalChannels, rest, old(sent), sent, secrets);
        var channel := totalChannels[0];
        totalChannels := totalChannels[1..];
        var messagesOfChannel;
        messagesOfChannel, rest := PartitionMessages(OfChannel(channel), rest);
        SendGroup(messagesOfChannel, channel, messages, leadership, env, draw, secrets);
        done := done + 1;
      }
      GrabEnd(env, draw, leadership, messages, all, done, rest, old(sent), sent, secrets);
    }

    method SendGroup(group: seq<EmittedMessage>, channel: string, ghost messages: seq<EmittedMessage>, leadership: bool,
                     env: Environment, draw: Draw, ghost secrets: Secrets)
      requires group == Filter(OfChannel(channel), messages) && Within(messages, secrets) && Current(secrets)
      modifies this
      ensures sent == old(sent) + AsIs(GroupRoutes(env, draw, leadership, messages, channel), secrets)
    {
      if |group| == 0 {
        return;
      }
      if channel !in env.channels {
        return;
      }
      var gc := env.channels[channel];
      var k := if group[0].message.content.LeadershipMsg? then |env.membership| else env.propagatePeerNum;
      var peers2Send := SelectPeers(k, draw(ForChannel(leadership, channel)), ChannelFilter(env, gc));
      WithinFiltered(OfChannel(channel), messages, secrets);
      SendToEach(group, peers2Send, secrets);
    }

    method SendStateInfos(msgs: seq<EmittedMessage>, env: Environment, draw: Draw, ghost secrets: Secrets)
      requires forall m | m in msgs :: m.message.content.StateInfo?
      requires Within(msgs, secrets) && Current(secrets)
      modifies this
      ensures sent == old(sent) + AsIs(StateInfoRoutes(env, draw, msgs), secrets)
    {
      ghost var logged := [];
      for i := 0 to |msgs|
        invariant logged == AsIs(StateInfoRoutes(env, draw, msgs[..i]), secrets)
        invariant sent == old(sent) + logged
      {
        StateInfoStep(env, draw, msgs, i, secrets);
        var peers2Send := SelectPeers(env.propagatePeerNum, draw(ForStateInfo(i)), StateInfoFilter(env, msgs[i]));
        Associate(old(sent), logged, AsIs(Copies(msgs[i], peers2Send), secrets));
        logged := logged + AsIs(Copies(msgs[i], peers2Send), secrets);
        Send(msgs[i], peers2Send, secrets);
      }
      assert msgs[..|msgs|] == msgs;
    }

    /** One unrestricted alive message; its secret envelope is taken off in place. */
    method SendAlive(env: Environment, m: EmittedMessage, peers: seq<RemotePeer>)
      requires m.message.content.AliveMsg?
      modifies this, m
      ensures sent == old(sent) + AliveSends(env, m, Filter(Reaches(env, m), peers), old(m.secret))
      ensures m.secret == SecretAfter(env, Filter(Reaches(env, m), peers), old(m.secret))
    {
      ghost var reached: seq<RemotePeer> := [];
      for i := 0 to |peers|
        invariant reached == Filter(Reaches(env, m), peers[..i])
        invariant Spreading(env, m, reached, old(m.secret), old(sent), sent, m.secret)
      {
        var peer := peers[i];
        FilterStep(Reaches(env, m), peers, i);
        var aliveMsgFromDiffOrg := !IsInMyOrg(env, m.message.content.membership.pkiId);
        if aliveMsgFromDiffOrg && !HasExternalEndpoint(env, peer.pkiId) {
          continue;
        }
        SpreadStep(env, m, reached, peer, old(m.secret), old(sent), sent, m.secret);
        reached := reached + [peer];
        if !IsInMyOrg(env, peer.pkiId) {
          m.secret := None;
        }
        sent := sent + [Sent(Route(m, peer), m.secret)];
      }
      assert peers[..|peers|] == peers;
    }

    /** The unrestricted part of a batch; `start` and `early` are what was sent before it and how. */
    method SendAlives(msgs: seq<EmittedMessage>, env: Environment, draw: Draw,
                      ghost start: seq<Sent>, ghost early: seq<Route>, ghost before: Secrets)
      requires Within(msgs, before)
      requires sent == start + Carried(env, early, before)
      requires forall m | m in before :: m.secret == Kept(env, early, m, before)
      modifies this, before.Keys
      ensures sent == start + Carried(env, early + AliveRoutes(env, draw, msgs), before)
      ensures forall m | m in before :: m.secret == Kept(env, early + AliveRoutes(env, draw, msgs), m, before)
    {
      ghost var routes := early;
      for i := 0 to |msgs|
        invariant routes == early + AliveRoutes(env, draw, msgs[..i])
        invariant sent == start + Carried(env, routes, before)
        invariant forall m | m in before :: m.secret == Kept(env, routes, m, before)
      {
        var m := msgs[i];
        AliveRoutesStep(env, draw, early, msgs, i);
        if !m.message.content.AliveMsg? {
          continue;
        }
        var peers2Send := SelectPeers(env.propagatePeerNum, draw(ForAlive(i)), AliveFilter(env, m));
        ghost var peers := AlivePeers(env, draw, i, m);
        SendAlive(env, m, peers2Send);
        CarriedAppend(env, routes, m, peers, before);
        Associate(start, Carried(env, routes, before), AliveSends(env, m, peers, Kept(env, routes, m, before)));
        KeptAppend(env, routes, m, peers, before);
        routes := routes + Copies(m, peers);
      }
      assert msgs[..|msgs|] == msgs;
    }

    /** `sendGossipBatch`; before discovery is set up nothing is sent. */
    method SendGossipBatch(batch: seq<EmittedMessage>, discovering: bool, env: Environment, draw: Draw)
      modifies this, batch
      ensures var routes, before := if discovering then BatchRoutes(env, draw, batch) else [], old(SecretsOf(batch));
              && sent == old(sent) + Carried(env, routes, before)
              && forall m | m in batch :: m.secret == Kept(env, routes, m, before)
    {
      if !discovering {
        return;
      }
      ghost var before := SecretsOf(batch);
      ghost var start := sent;
      PartsWithin(env, batch, before);
      ChainSortsByCategory(env, batch);
      var blocks, leadershipMsgs, stateInfoMsgs, orgMsgs, rest;
      blocks, rest := PartitionMessages(IsBlock(), batch);
      GossipInChan(blocks, false, env, draw, before);
      leadershipMsgs, rest := PartitionMessages(IsLeadership(), rest);
      GossipInChan(leadershipMsgs, true, env, draw, before);
      stateInfoMsgs, rest := PartitionMessages(IsStateInfo(), rest);
      SendStateInfos(stateInfoMsgs, env, draw, before);
      orgMsgs, rest := PartitionMessages(IsRestricted(env), rest);
      var peers2Send := SelectPeers(env.propagatePeerNum, draw(ForOrg), InMyOrg(env));
      SendToEach(orgMsgs, peers2Send, before);
      EarlyParts(start, env, draw, batch, before);
      EarlyRoutesKeepSecrets(env, draw, batch, before);
      SendAlives(rest, env, draw, start, EarlyRoutes(env, draw, batch), before);
    }
  }

  /** The message is an alive message that one of the first routes, up to the k-th, takes out of the
      organisation. */
  ghost predicate LeavesHome(env: Environment, routes: seq<Route>, m: EmittedMessage, k: nat)
    requires k < |routes|
  {
    && m.message.content.AliveMsg?
    && exists i | 0 <= i <= k :: routes[i].msg == m && Foreign(env, routes[i].peer)
  }

  /** Exactly which sends carry which secret envelope: an alive message goes without from its first send out
      of the organisation on, at home and abroad; every other send carries the envelope the message had. So
      no alive message leaves the organisation with its envelope. */
  lemma {:induction false} SecretsStayHome(env: Environment, routes: seq<Route>, before: Secrets, k: nat)
    requires k < |routes|
    ensures var sends, m := Carried(env, routes, before), routes[k].msg;
            && |sends| == |routes| && sends[k].route == routes[k]
            && (m in before ==>
                  sends[k].secret == (if LeavesHome(env, routes, m, k) then None else before[m]))
  {
    var n := |routes| - 1;
    var front := routes[..n];
    if n == 0 {
    } else if k < n {
      SecretsStayHome(env, front, before, k);
      assert forall i | 0 <= i <= k :: front[i] == routes[i];
    } else {
      SecretsStayHome(env, front, before, 0);
    }
  }

  ghost predicate IsPlainAlive(env: Environment, m: EmittedMessage) {
    && m.message.content.AliveMsg? && m.message.content.membership.endpoint != "" && m.message.tag == Tag.Empty
    && env.selfOrg != "" && IsInMyOrg(env, m.message.content.membership.pkiId)
  }

  lemma LoneAliveIsRest(env: Environment, draw: Draw, m: EmittedMessage)
    requires IsPlainAlive(env, m)
    ensures BatchRoutes(env, draw, [m]) == AliveRoutes(env, draw, [m])
  {
    var early := EarlyRoutes(env, draw, [m]);
    if early != [] {
      EarlyRoute(env, draw, [m], early[0]);
      assert false;
    }
    FilterAll(Is(env, Rest), [m]);
  }

  lemma CopiesOfTwo(m: EmittedMessage, p: RemotePeer, q: RemotePeer)
    ensures Copies(m, [p, q]) == [Route(m, p), Route(m, q)]
  {
  }

  lemma AliveRoutesOfOne(env: Environment, draw: Draw, m: EmittedMessage)
    ensures AliveRoutes(env, draw, [m]) == Copies(m, AlivePeers(env, draw, 0, m))
  {
    assert [m][..0] == [];
    assert AliveRoutes(env, draw, []) == [];
  }

  lemma LoneAlivePeers(env: Environment, draw: Draw, m: EmittedMessage, abroad: Peer, home: Peer)
    requires IsPlainAlive(env, m) && env.propagatePeerNum == 2 && draw(ForAlive(0)) == [abroad, home]
    requires m.filter(abroad.pkiId) && m.filter(home.pkiId)
    ensures AlivePeers(env, draw, 0, m) == [Remote(abroad), Remote(home)]
  {
    var pool, peers := [abroad, home], [Remote(abroad), Remote(home)];
    forall p | p in pool
      ensures AliveFilter(env, m)(p)
    {
      var fs := [PeersByOriginOrg(env, m.message.content.membership.pkiId), SourceFilter(m)];
      assert fs[0](p) && fs[1](p);
    }
    FilterAll(AliveFilter(env, m), pool);
    FilterAll(Reaches(env, m), peers);
    assert Remotes(pool) == peers;
  }

  lemma LoneAliveRoutes(env: Environment, draw: Draw, m: EmittedMessage, abroad: Peer, home: Peer)
    requires IsPlainAlive(env, m) && env.propagatePeerNum == 2 && draw(ForAlive(0)) == [abroad, home]
    requires m.filter(abroad.pkiId) && m.filter(home.pkiId)
    ensures BatchRoutes(env, draw, [m]) == [Route(m, Remote(abroad)), Route(m, Remote(home))]
  {
    LoneAliveIsRest(env, draw, m);
    AliveRoutesOfOne(env, draw, m);
    LoneAlivePeers(env, draw, m, abroad, home);
    CopiesOfTwo(m, Remote(abroad), Remote(home));
  }

  /** One alive message of one's own, selected first for a peer abroad and then for one at home: it is sent
      to both, to both without its secret envelope. */
  lemma HomeSendGoesWithout(env: Environment, draw: Draw, m: EmittedMessage, abroad: Peer, home: Peer, before: Secrets)
    requires m in before && before[m].Some? && IsPlainAlive(env, m)
    requires env.propagatePeerNum == 2 && draw(ForAlive(0)) == [abroad, home]
    requires m.filter(abroad.pkiId) && m.filter(home.pkiId)
    requires !IsInMyOrg(env, abroad.pkiId) && IsInMyOrg(env, home.pkiId)
    ensures Carried(env, BatchRoutes(env, draw, [m]), before)
            == [Sent(Route(m, Remote(abroad)), None), Sent(Route(m, Remote(home)), None)]
  {
    var routes := [Route(m, Remote(abroad)), Route(m, Remote(home))];
    LoneAliveRoutes(env, draw, m, abroad, home);
    SecretsStayHome(env, routes, before, 0);
    SecretsStayHome(env, routes, before, 1);
    assert Foreign(env, routes[0].peer);
  }
}
