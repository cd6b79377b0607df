/** The membership view of gossip/discovery.go as a value: what is known about every peer, and how one
    alive message, one presumed death or one expiry changes it. */
module Membership {
  import opened Sequences
  import opened Messages
  import opened Policy

  // ----- Logical times as the discovery layer records them -----

  /** A point in time as Go's time package keeps it, with 0 <= nsec < 10^9. */
  datatype Time = Time(sec: int, nsec: int)

  const NANOS: int := 1_000_000_000

  function UnixTime(nanos: int64): Time {
    Time(nanos / NANOS, nanos % NANOS)
  }

  function UnixNano(t: Time): int64 {
    ToInt64(ToUint64(t.sec * NANOS + t.nsec))
  }

  datatype Timestamp = Timestamp(incTime: Time, seqNum: uint64)

  function Record(t: PeerTime): Timestamp {
    Timestamp(UnixTime(ToInt64(t.incNum)), t.seqNum)
  }

  function Reading(t: Timestamp): PeerTime {
    PeerTime(ToUint64(UnixNano(t.incTime)), t.seqNum)
  }

  /** `before` of gossip/discovery.go. */
  predicate IsBefore(a: Timestamp, b: PeerTime) {
    || (ToUint64(UnixNano(a.incTime)) == b.incNum && a.seqNum < b.seqNum)
    || ToUint64(UnixNano(a.incTime)) < b.incNum
  }

  /** The detour over int64, seconds and nanoseconds loses nothing. */
  lemma RecordThenRead(t: PeerTime)
    ensures Reading(Record(t)) == t
  {
    var n := ToInt64(t.incNum);
    assert n / NANOS * NANOS + n % NANOS == n;
  }

  /** A recorded time is before a message's time exactly when the replacement policy would let a message
      with that time supersede one with the recorded time. */
  lemma IsBeforeAgreesWithPolicy(a: PeerTime, b: PeerTime)
    ensures IsBefore(Record(a), b) <==> CompareTimestamps(b, a) == Invalidates
    ensures IsBefore(Record(a), b) <==> Before(a, b)
  {
    RecordThenRead(a);
  }

  // ----- The view -----

  datatype Peer = Peer(endpoint: string, metadata: string, pkiId: PkiId, internalEndpoint: string)

  datatype View = View(
    self: PkiId,
    aliveTS: map<PkiId, Timestamp>, deadTS: map<PkiId, Timestamp>,
    alive: map<PkiId, SignedMessage>, dead: map<PkiId, SignedMessage>,
    peers: map<PkiId, Peer>)

  type AliveMessage = m: SignedMessage | m.content.AliveMsg?
    witness SignedMessage(AliveMsg(Member("", "", ""), PeerTime(0, 0)), "", Undefined, None)

  function PkiOf(m: AliveMessage): PkiId {
    m.content.membership.pkiId
  }

  function TimeOf(m: AliveMessage): PeerTime {
    m.content.aliveTime
  }

  ghost predicate About(m: SignedMessage, p: PkiId, t: Timestamp) {
    m.content.AliveMsg? && PkiOf(m) == p && t == Record(TimeOf(m))
  }

  ghost predicate SameKeys(v: View) {
    && v.aliveTS.Keys == v.alive.Keys && v.deadTS.Keys == v.dead.Keys
    && v.aliveTS.Keys !! v.deadTS.Keys
    && v.self !in v.aliveTS && v.self !in v.deadTS
    && v.peers.Keys - {v.self} == v.aliveTS.Keys + v.deadTS.Keys
  }

  /** The five maps agree: every known peer other than oneself is either alive or dead, and its recorded
      time is that of the message kept about it. Oneself may have a peer record, and nothing else. */
  ghost predicate Consistent(v: View) {
    && SameKeys(v)
    && (forall p | p in v.alive :: About(v.alive[p], p, v.aliveTS[p]))
    && (forall p | p in v.dead :: About(v.dead[p], p, v.deadTS[p]))
    && (forall p | p in v.peers :: v.peers[p].pkiId == p)
  }

  predicate Known(v: View, p: PkiId) {
    p in v.aliveTS || p in v.deadTS
  }

  /** The message last recorded about a peer, alive or dead. */
  function Latest(v: View, p: PkiId): SignedMessage
    requires Consistent(v) && Known(v, p)
  {
    if p in v.aliveTS then v.alive[p] else v.dead[p]
  }

  function Recorded(v: View, p: PkiId): PeerTime
    requires Consistent(v) && Known(v, p)
  {
    TimeOf(Latest(v, p))
  }

  function PeerOf(v: View, m: AliveMessage): Peer {
    var p := PkiOf(m);
    var previous := if p in v.peers then v.peers[p].internalEndpoint else "";
    Peer(m.content.membership.endpoint, m.content.membership.metadata, p,
         if m.secret.Some? then m.secret.value else previous)
  }

  /** `m` becomes the record of a peer that is alive. */
  function MarkAlive(v: View, m: AliveMessage): View {
    var p := PkiOf(m);
    v.(aliveTS := v.aliveTS[p := Record(TimeOf(m))], deadTS := v.deadTS - {p},
       alive := v.alive[p := m], dead := v.dead - {p}, peers := v.peers[p := PeerOf(v, m)])
  }

  /** `learnNewMembers` for one member, alive or dead. An internal endpoint already on record wins over
      the message's, and learning of oneself leaves nothing but a peer record behind. */
  function Learned(v: View, m: AliveMessage, asDead: bool): View {
    var p := PkiOf(m);
    var endpoint := if p in v.peers then v.peers[p].internalEndpoint else m.secret.GetOr("");
    var w := v.(peers := v.peers[p := Peer(m.content.membership.endpoint, m.content.membership.metadata, p, endpoint)]);
    if p == v.self then
      w
    else if asDead then
      w.(deadTS := v.deadTS[p := Record(TimeOf(m))], dead := v.dead[p := m])
    else
      w.(aliveTS := v.aliveTS[p := Record(TimeOf(m))], alive := v.alive[p := m])
  }

  /** For a peer not known before, learning it alive is marking it alive. */
  lemma LearnedIsMarkAlive(v: View, m: AliveMessage)
    requires Consistent(v) && PkiOf(m) !in v.peers && PkiOf(m) != v.self
    ensures Learned(v, m, false) == MarkAlive(v, m)
  {
    assert v.deadTS - {PkiOf(m)} == v.deadTS && v.dead - {PkiOf(m)} == v.dead;
  }

  predicate Fresh(v: View, m: AliveMessage)
    requires Consistent(v)
  {
    var p := PkiOf(m);
    p != v.self && (Known(v, p) ==> Before(Recorded(v, p), TimeOf(m)))
  }

  /** Hearing an alive message: learning, refreshing and resurrecting all come to this. */
  function Heard(v: View, m: SignedMessage, valid: bool): View
    requires Consistent(v)
  {
    if valid && m.content.AliveMsg? && Fresh(v, m) then MarkAlive(v, m) else v
  }

  function HeardDead(v: View, m: AliveMessage): View {
    if PkiOf(m) in v.peers then v else Learned(v, m, true)
  }

  /** A peer presumed dead moves from the alive maps to the dead ones, record and all. */
  function Presumed(v: View, p: PkiId): View
    requires Consistent(v)
  {
    if p !in v.aliveTS then
      v
    else
      v.(aliveTS := v.aliveTS - {p}, deadTS := v.deadTS[p := v.aliveTS[p]],
         alive := v.alive - {p}, dead := v.dead[p := v.alive[p]])
  }

  /** The expiry callback of the alive-message store. */
  function Forgotten(v: View, p: PkiId): View {
    v.(aliveTS := v.aliveTS - {p}, deadTS := v.deadTS - {p},
       alive := v.alive - {p}, dead := v.dead - {p}, peers := v.peers - {p})
  }

  lemma MarkAliveIsConsistent(v: View, m: AliveMessage)
    requires Consistent(v) && PkiOf(m) != v.self
    ensures Consistent(MarkAlive(v, m))
  {
  }

  lemma HeardIsConsistent(v: View, m: SignedMessage, valid: bool)
    requires Consistent(v)
    ensures Consistent(Heard(v, m, valid))
  {
    if m.content.AliveMsg? && PkiOf(m) != v.self {
      MarkAliveIsConsistent(v, m);
    }
  }

  lemma LearnedDeadIsAbout(v: View, m: AliveMessage)
    requires SameKeys(v) && forall p | p in v.dead :: About(v.dead[p], p, v.deadTS[p])
    ensures var w := Learned(v, m, true); SameKeys(w) ==> forall p | p in w.dead :: About(w.dead[p], p, w.deadTS[p])
  {
  }

  lemma LearnedDeadHasSameKeys(v: View, m: AliveMessage)
    requires SameKeys(v) && PkiOf(m) !in v.peers
    ensures SameKeys(Learned(v, m, true))
  {
    var w, p := Learned(v, m, true), PkiOf(m);
    assert w.peers.Keys == v.peers.Keys + {p};
    if p != v.self {
      assert w.deadTS.Keys == v.deadTS.Keys + {p} && w.dead.Keys == v.dead.Keys + {p};
    }
  }

  lemma LearnedDeadIsConsistent(v: View, m: AliveMessage)
    requires Consistent(v) && PkiOf(m) !in v.peers
    ensures Consistent(Learned(v, m, true))
  {
    LearnedDeadHasSameKeys(v, m);
    LearnedDeadIsAbout(v, m);
  }

  lemma HeardDeadIsConsistent(v: View, m: AliveMessage)
    requires Consistent(v)
    ensures Consistent(HeardDead(v, m))
  {
    if PkiOf(m) !in v.peers {
      LearnedDeadIsConsistent(v, m);
    }
  }

  /** A dead entry about oneself leaves a peer record about oneself, and nothing else. */
  lemma MayRecordItself(v: View, m: AliveMessage)
    requires Consistent(v) && PkiOf(m) == v.self && v.self !in v.peers
    ensures var w := HeardDead(v, m);
            && Consistent(w) && w.peers.Keys == v.peers.Keys + {v.self} && !Known(w, v.self)
            && w.aliveTS == v.aliveTS && w.deadTS == v.deadTS && w.alive == v.alive && w.dead == v.dead
  {
    HeardDeadIsConsistent(v, m);
  }

  lemma PresumedIsConsistent(v: View, p: PkiId)
    requires Consistent(v)
    ensures Consistent(Presumed(v, p))
  {
  }

  lemma ForgottenIsConsistent(v: View, p: PkiId)
    requires Consistent(v)
    ensures Consistent(Forgotten(v, p))
  {
  }

  // ----- Logical time never runs backwards -----

  /** From `v` to `w` the peer stays known, and the message recorded about it changes only to a strictly
      newer one; in particular it comes back from the dead only through a strictly newer one. */
  ghost predicate Advances(v: View, w: View, p: PkiId) {
    && Consistent(v) && Consistent(w) && w.self == v.self
    && (Known(v, p) ==>
          && Known(w, p)
          && (Latest(w, p) != Latest(v, p) ==> Before(Recorded(v, p), Recorded(w, p)))
          && (p in v.deadTS && p in w.aliveTS ==> Before(Recorded(v, p), Recorded(w, p))))
  }

  lemma HeardAdvances(v: View, m: SignedMessage, valid: bool, p: PkiId)
    requires Consistent(v)
    ensures Advances(v, Heard(v, m, valid), p)
  {
    HeardIsConsistent(v, m, valid);
  }

  lemma HeardDeadAdvances(v: View, m: AliveMessage, p: PkiId)
    requires Consistent(v)
    ensures Advances(v, HeardDead(v, m), p)
  {
    HeardDeadIsConsistent(v, m);
  }

  lemma PresumedAdvances(v: View, q: PkiId, p: PkiId)
    requires Consistent(v)
    ensures Advances(v, Presumed(v, q), p)
  {
    PresumedIsConsistent(v, q);
    if Known(v, p) {
      assert Known(Presumed(v, q), p) && Latest(Presumed(v, q), p) == Latest(v, p);
    }
  }

  /** Steps compose: a peer that was dead and is alive again must have been heard of in between. */
  lemma AdvancesIsTransitive(u: View, v: View, w: View, p: PkiId)
    requires Advances(u, v, p) && Advances(v, w, p)
    ensures Advances(u, w, p)
  {
  }

  /** After hearing a valid alive message about another peer, that peer is known and its recorded time is
      the later of the message's time and what was recorded before. */
  lemma HeardRecordsMaximum(v: View, m: AliveMessage)
    requires Consistent(v) && PkiOf(m) != v.self
    ensures var w, p := Heard(v, m, true), PkiOf(m);
            && Consistent(w) && Known(w, p)
            && Recorded(w, p)
               == if Known(v, p) && !Before(Recorded(v, p), TimeOf(m)) then Recorded(v, p) else TimeOf(m)
  {
    HeardIsConsistent(v, m, true);
  }
}
