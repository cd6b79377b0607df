/** Which message goes to which peer: the batch routing of gossip/gossip.go.

    What the node knows about the network is a parameter that stays fixed while one batch is sent. */
module Routing {
  import opened Sequences
  import opened Messages
  import opened Membership
  import opened Selection

  /** A message waiting to be gossiped. `secret` is the secret envelope it still carries; `message.secret`
      is the one it was made with. `filter` turns away the peers the message must not go back to. */
  class EmittedMessage {
    const message: SignedMessage
    const filter: PkiId -> bool
    var secret: Option<string>

    constructor (message: SignedMessage, filter: PkiId -> bool)
      ensures this.message == message && this.filter == filter && secret == message.secret
    {
      this.message, this.filter, secret := message, filter, message.secret;
    }
  }

  datatype Channel = Channel(orgs: seq<string>, stateInfo: set<PkiId>)

  /** `identified` says which peers have an identity on file, `macChannel` finds the channel whose code a
      state-info message carries. `channels` is empty while the service is stopping. */
  datatype Environment = Environment(
    selfOrg: string, orgOf: PkiId -> Option<string>, identified: PkiId -> bool, lookup: PkiId -> Option<Peer>,
    channels: map<string, Channel>, macChannel: SignedMessage -> Option<Channel>,
    membership: seq<Peer>, propagatePeerNum: int)

  predicate IsInMyOrg(env: Environment, p: PkiId) {
    p != "" && env.orgOf(p) == Some(env.selfOrg)
  }

  function InMyOrg(env: Environment): RoutingFilter {
    (p: Peer) => IsInMyOrg(env, p.pkiId)
  }

  predicate HasExternalEndpoint(env: Environment, p: PkiId) {
    env.lookup(p).Some? && env.lookup(p).value.endpoint != ""
  }

  function IsMemberInChan(env: Environment, gc: Channel): RoutingFilter {
    (p: Peer) => env.orgOf(p.pkiId).Some? && env.orgOf(p.pkiId).value in gc.orgs
  }

  function EligibleForChannel(env: Environment, gc: Channel): RoutingFilter {
    (p: Peer) => env.identified(p.pkiId) && p.pkiId in gc.stateInfo
  }

  function ChannelFilter(env: Environment, gc: Channel): RoutingFilter {
    Combine([EligibleForChannel(env, gc), IsMemberInChan(env, gc), InMyOrg(env)])
  }

  function Admits(m: EmittedMessage): RemotePeer -> bool {
    (p: RemotePeer) => m.filter(p.pkiId)
  }

  function SourceFilter(m: EmittedMessage): RoutingFilter {
    (p: Peer) => m.filter(p.pkiId)
  }

  function StateInfoFilter(env: Environment, m: EmittedMessage): RoutingFilter
    requires m.message.content.StateInfo?
  {
    var gc := env.macChannel(m.message);
    var selector := if gc.Some? && HasExternalEndpoint(env, m.message.content.statePki)
                    then IsMemberInChan(env, gc.value) else InMyOrg(env);
    Combine([selector, SourceFilter(m)])
  }

  function PeersByOriginOrg(env: Environment, origin: PkiId): RoutingFilter {
    var org := env.orgOf(origin).GetOr("");
    if org == "" then (p: Peer) => false
    else if org == env.selfOrg then (p: Peer) => true
    else (p: Peer) => var memberOrg := env.orgOf(p.pkiId).GetOr("");
                      memberOrg != "" && (memberOrg == env.selfOrg || memberOrg == org)
  }

  function AliveFilter(env: Environment, m: EmittedMessage): RoutingFilter
    requires m.message.content.AliveMsg?
  {
    Combine([PeersByOriginOrg(env, m.message.content.membership.pkiId), SourceFilter(m)])
  }

  /** An alive message of another organisation is not sent to peers without an external endpoint. */
  function Reaches(env: Environment, m: EmittedMessage): RemotePeer -> bool
    requires m.message.content.AliveMsg?
  {
    (p: RemotePeer) =>
      IsInMyOrg(env, m.message.content.membership.pkiId) || HasExternalEndpoint(env, p.pkiId)
  }

  // ----- Categories -----

  datatype Category = Block | Leadership | StateInfoUpdate | Restricted | Rest

  function IsBlock(): EmittedMessage -> bool {
    (m: EmittedMessage) => m.message.content.DataMsg? || m.message.content.EmptyDataMsg?
  }

  function IsLeadership(): EmittedMessage -> bool {
    (m: EmittedMessage) => m.message.content.LeadershipMsg?
  }

  function IsStateInfo(): EmittedMessage -> bool {
    (m: EmittedMessage) => m.message.content.StateInfo?
  }

  predicate OrgRestricted(env: Environment, m: EmittedMessage) {
    || (&& m.message.content.AliveMsg? && m.message.content.membership.endpoint == ""
        && IsInMyOrg(env, m.message.content.membership.pkiId))
    || m.message.tag == ChanAndOrg || m.message.tag == OrgOnly
  }

  function IsRestricted(env: Environment): EmittedMessage -> bool {
    (m: EmittedMessage) => OrgRestricted(env, m)
  }

  function CategoryOf(env: Environment, m: EmittedMessage): Category {
    match m.message.content
    case DataMsg(_, _) => Block
    case EmptyDataMsg => Block
    case LeadershipMsg(_, _) => Leadership
    case StateInfo(_, _) => StateInfoUpdate
    case _ => if OrgRestricted(env, m) then Restricted else Rest
  }

  function Is(env: Environment, c: Category): EmittedMessage -> bool {
    (m: EmittedMessage) => CategoryOf(env, m) == c
  }

  method PartitionMessages(pred: EmittedMessage -> bool, a: seq<EmittedMessage>)
    returns (s1: seq<EmittedMessage>, s2: seq<EmittedMessage>)
    ensures s1 == Filter(pred, a) && s2 == Filter(Not(pred), a)
  {
    s1, s2 := [], [];
    for i := 0 to |a|
      invariant s1 == Filter(pred, a[..i]) && s2 == Filter(Not(pred), a[..i])
    {
      FilterStep(pred, a, i);
      FilterStep(Not(pred), a, i);
      if pred(a[i]) {
        s1 := s1 + [a[i]];
      } else {
        s2 := s2 + [a[i]];
      }
    }
    assert a[..|a|] == a;
  }

  function NotInChannels(): EmittedMessage -> bool {
    (m: EmittedMessage) =>
      !m.message.content.DataMsg? && !m.message.content.EmptyDataMsg? && !m.message.content.LeadershipMsg?
  }

  function Other(): EmittedMessage -> bool {
    (m: EmittedMessage) =>
      && !m.message.content.DataMsg? && !m.message.content.EmptyDataMsg? && !m.message.content.LeadershipMsg?
      && !m.message.content.StateInfo?
  }

  lemma RestrictedByCategory(env: Environment, batch: seq<EmittedMessage>)
    ensures Filter(IsRestricted(env), Filter(Other(), batch)) == Filter(Is(env, Restricted), batch)
  {
    FilterTwice(Other(), IsRestricted(env), Is(env, Restricted), batch);
  }

  lemma RestByCategory(env: Environment, batch: seq<EmittedMessage>)
    ensures Filter(Not(IsRestricted(env)), Filter(Other(), batch)) == Filter(Is(env, Rest), batch)
  {
    FilterTwice(Other(), Not(IsRestricted(env)), Is(env, Rest), batch);
  }

  /** The chain of partitions, each applied to what the one before left over, sorts the batch by
      category: every message lands in exactly one part, in the order of the batch. */
  lemma ChainSortsByCategory(env: Environment, batch: seq<EmittedMessage>)
    ensures var a := Filter(Not(IsBlock()), batch);
            var b := Filter(Not(IsLeadership()), a);
            var c := Filter(Not(IsStateInfo()), b);
            && Filter(IsBlock(), batch) == Filter(Is(env, Block), batch)
            && Filter(IsLeadership(), a) == Filter(Is(env, Leadership), batch)
            && Filter(IsStateInfo(), b) == Filter(Is(env, StateInfoUpdate), batch)
            && Filter(IsRestricted(env), c) == Filter(Is(env, Restricted), batch)
            && Filter(Not(IsRestricted(env)), c) == Filter(Is(env, Rest), batch)
  {
    FilterSame(IsBlock(), Is(env, Block), batch);
    FilterTwice(Not(IsBlock()), IsLeadership(), Is(env, Leadership), batch);
    FilterTwice(Not(IsBlock()), Not(IsLeadership()), NotInChannels(), batch);
    FilterTwice(NotInChannels(), IsStateInfo(), Is(env, StateInfoUpdate), batch);
    FilterTwice(NotInChannels(), Not(IsStateInfo()), Other(), batch);
    RestrictedByCategory(env, batch);
    RestByCategory(env, batch);
  }

  /** Sorting by category neither loses nor repeats a message. */
  lemma {:induction false} CategoriesCoverBatch(env: Environment, batch: seq<EmittedMessage>, p: EmittedMessage -> bool)
    ensures Count(p, batch) == Count(p, Filter(Is(env, Block), batch)) + Count(p, Filter(Is(env, Leadership), batch))
            + Count(p, Filter(Is(env, StateInfoUpdate), batch)) + Count(p, Filter(Is(env, Restricted), batch))
            + Count(p, Filter(Is(env, Rest), batch))
  {
    var a := Filter(Not(IsBlock()), batch);
    var b := Filter(Not(IsLeadership()), a);
    var c := Filter(Not(IsStateInfo()), b);
    ChainSortsByCategory(env, batch);
    CountSplit(p, IsBlock(), batch);
    CountSplit(p, IsLeadership(), a);
    CountSplit(p, IsStateInfo(), b);
    CountSplit(p, IsRestricted(env), c);
  }

  // ----- Routes: who is sent what, in order -----

  datatype Route = Route(msg: EmittedMessage, peer: RemotePeer)

  /** Which random permutation of the membership each selection of a batch draws. */
  datatype Pick =
    | ForChannel(leadership: bool, channel: string)
    | ForStateInfo(index: nat)
    | ForOrg
    | ForAlive(index: nat)

  type Draw = Pick -> seq<Peer>

  ghost predicate Permutes(env: Environment, draw: Draw) {
    forall pick :: multiset(draw(pick)) == multiset(env.membership)
  }

  function Select(k: int, shuffled: seq<Peer>, filter: RoutingFilter): seq<RemotePeer> {
    Remotes(Take(k, Filter(filter, shuffled)))
  }

  function Copies(m: EmittedMessage, peers: seq<RemotePeer>): (r: seq<Route>)
    ensures |r| == |peers| && forall i | 0 <= i < |peers| :: r[i] == Route(m, peers[i])
  {
    seq(|peers|, i requires 0 <= i < |peers| => Route(m, peers[i]))
  }

  function ToEach(msgs: seq<EmittedMessage>, peers: seq<RemotePeer>): seq<Route> {
    if msgs == [] then []
    else var m := msgs[|msgs| - 1];
         ToEach(msgs[..|msgs| - 1], peers) + Copies(m, Filter(Admits(m), peers))
  }

  function OfChannel(c: string): EmittedMessage -> bool {
    (m: EmittedMessage) => m.message.channel == c
  }

  /** The distinct channels of some messages, in order of first appearance. */
  function Channels(msgs: seq<EmittedMessage>): seq<string> {
    if msgs == [] then []
    else var before, c := Channels(msgs[..|msgs| - 1]), msgs[|msgs| - 1].message.channel;
         if c == "" || c in before then before else before + [c]
  }

  function ChannelPeers(env: Environment, draw: Draw, leadership: bool, c: string,
                        first: EmittedMessage): seq<RemotePeer>
    requires c in env.channels
  {
    Select(if first.message.content.LeadershipMsg? then |env.membership| else env.propagatePeerNum,
           draw(ForChannel(leadership, c)), ChannelFilter(env, env.channels[c]))
  }

  function GroupRoutes(env: Environment, draw: Draw, leadership: bool, msgs: seq<EmittedMessage>,
                       c: string): seq<Route> {
    var group := Filter(OfChannel(c), msgs);
    if group == [] || c !in env.channels then []
    else ToEach(group, ChannelPeers(env, draw, leadership, c, group[0]))
  }

  function ChannelRoutes(env: Environment, draw: Draw, leadership: bool, msgs: seq<EmittedMessage>,
                         cs: seq<string>): seq<Route> {
    if cs == [] then []
    else ChannelRoutes(env, draw, leadership, msgs, cs[..|cs| - 1])
         + GroupRoutes(env, draw, leadership, msgs, cs[|cs| - 1])
  }

  function StateInfoRoutes(env: Environment, draw: Draw, msgs: seq<EmittedMessage>): seq<Route>
    requires forall m | m in msgs :: m.message.content.StateInfo?
  {
    if msgs == [] then []
    else var n := |msgs| - 1;
         StateInfoRoutes(env, draw, msgs[..n])
         + Copies(msgs[n], Select(env.propagatePeerNum, draw(ForStateInfo(n)), StateInfoFilter(env, msgs[n])))
  }

  function OrgRoutes(env: Environment, draw: Draw, msgs: seq<EmittedMessage>): seq<Route> {
    ToEach(msgs, Select(env.propagatePeerNum, draw(ForOrg), InMyOrg(env)))
  }

  function AlivePeers(env: Environment, draw: Draw, n: nat, m: EmittedMessage): seq<RemotePeer> {
    if m.message.content.AliveMsg?
    then Filter(Reaches(env, m), Select(env.propagatePeerNum, draw(ForAlive(n)), AliveFilter(env, m)))
    else []
  }

  function AliveRoutes(env: Environment, draw: Draw, msgs: seq<EmittedMessage>): seq<Route> {
    if msgs == [] then []
    else var n := |msgs| - 1;
         AliveRoutes(env, draw, msgs[..n]) + Copies(msgs[n], AlivePeers(env, draw, n, msgs[n]))
  }

  function InChannels(env: Environment, draw: Draw, leadership: bool, msgs: seq<EmittedMessage>): seq<Route> {
    ChannelRoutes(env, draw, leadership, msgs, Channels(msgs))
  }

  function StateInfos(env: Environment, batch: seq<EmittedMessage>): (r: seq<EmittedMessage>)
    ensures forall m | m in r :: m.message.content.StateInfo?
  {
    var r := Filter(Is(env, StateInfoUpdate), batch);
    assert forall m | m in r :: m.message.content.StateInfo? by {
      forall m | m in r
        ensures m.message.content.StateInfo?
      {
        FilterMember(Is(env, StateInfoUpdate), batch, m);
      }
    }
    r
  }

  /** The routes of all messages but the unrestricted alive messages. */
  function EarlyRoutes(env: Environment, draw: Draw, batch: seq<EmittedMessage>): seq<Route> {
    var blocks, leaders := Filter(Is(env, Block), batch), Filter(Is(env, Leadership), batch);
    InChannels(env, draw, false, blocks) + InChannels(env, draw, true, leaders)
    + StateInfoRoutes(env, draw, StateInfos(env, batch))
    + OrgRoutes(env, draw, Filter(Is(env, Restricted), batch))
  }

  function BatchRoutes(env: Environment, draw: Draw, batch: seq<EmittedMessage>): seq<Route> {
    EarlyRoutes(env, draw, batch) + AliveRoutes(env, draw, Filter(Is(env, Rest), batch))
  }
}
