/** What a handler of the discovery service does to each peer, exactly: who becomes known, who is alive, and what is
    on record. */
module DiscoveryEffects {
  import opened Sequences
  import opened Messages
  import opened Policy
  import opened MessageStores
  import opened StoreConvergence
  import opened Membership
  import opened Discovery
  import opened DiscoveryRuns
  import opened DiscoveryTimes

  // ----- One message -----

  /** Nothing about `q` differs in any of the five maps. */
  ghost predicate SameAbout(v: View, w: View, q: PkiId) {
    && (q in w.aliveTS <==> q in v.aliveTS) && (q in v.aliveTS && q in w.aliveTS ==> w.aliveTS[q] == v.aliveTS[q])
    && (q in w.deadTS <==> q in v.deadTS) && (q in v.deadTS && q in w.deadTS ==> w.deadTS[q] == v.deadTS[q])
    && (q in w.alive <==> q in v.alive) && (q in v.alive && q in w.alive ==> w.alive[q] == v.alive[q])
    && (q in w.dead <==> q in v.dead) && (q in v.dead && q in w.dead ==> w.dead[q] == v.dead[q])
    && (q in w.peers <==> q in v.peers) && (q in v.peers && q in w.peers ==> w.peers[q] == v.peers[q])
  }

  /** The message is later than anything on record about its peer. */
  ghost predicate IsNews(v: View, m: AliveMessage)
    requires Consistent(v)
  {
    var p := PkiOf(m);
    Known(v, p) ==>
      var r, t := Recorded(v, p), TimeOf(m);
      r.incNum < t.incNum || (r.incNum == t.incNum && r.seqNum < t.seqNum)
  }

  /** A valid alive message about another peer that is news makes the peer alive, with that message on record and
      its endpoints; any other changes nothing, and nobody else is affected. */
  lemma HeardExactly(v: View, m: AliveMessage, valid: bool, q: PkiId)
    requires Consistent(v)
    ensures var w, p := Heard(v, m, valid), PkiOf(m);
            && (q != p || !valid || p == v.self || !IsNews(v, m) ==> SameAbout(v, w, q))
            && (valid && p != v.self && IsNews(v, m) ==>
                  && p in w.alive && w.alive[p] == m && p !in w.dead && p !in w.deadTS
                  && p in w.peers
                  && w.peers[p].endpoint == m.content.membership.endpoint
                  && w.peers[p].metadata == m.content.membership.metadata
                  && (m.secret.Some? ==> w.peers[p].internalEndpoint == m.secret.value)
                  && (m.secret.None? && p in v.peers ==>
                        w.peers[p].internalEndpoint == v.peers[p].internalEndpoint)
                  && (m.secret.None? && p !in v.peers ==> w.peers[p].internalEndpoint == ""))
  {
    HeardIsConsistent(v, m, valid);
  }

  /** A dead entry about a peer without a record makes it known as dead; any other changes nothing. */
  lemma HeardDeadExactly(v: View, m: AliveMessage, q: PkiId)
    requires Consistent(v)
    ensures var w, p := HeardDead(v, m), PkiOf(m);
            && (q != p || p in v.peers ==> SameAbout(v, w, q))
            && (p !in v.peers && p != v.self ==>
                  && p in w.dead && w.dead[p] == m && p !in w.alive && p !in w.aliveTS
                  && p in w.peers
                  && w.peers[p].endpoint == m.content.membership.endpoint
                  && w.peers[p].metadata == m.content.membership.metadata
                  && w.peers[p].internalEndpoint == m.secret.GetOr(""))
  {
    HeardDeadIsConsistent(v, m);
  }

  // ----- What a response tells -----

  predicate IsAliveEnvelope(e: Option<SignedMessage>) {
    e.Some? && e.value.content.AliveMsg?
  }

  /** Position by position: the messages heard are the valid and accepted ones in front of the first envelope
      that is unreadable or no alive message. */
  lemma {:induction false} AliveHeardAt(entries: seq<Entry>, envelopes: Envelopes, valid: Validator, m: SignedMessage)
    ensures m in AliveHeard(entries, envelopes, valid) <==>
            && valid(m) && Accepts(Comparator(0), entries, m)
            && exists i | 0 <= i < |envelopes| ::
                 envelopes[i] == Some(m) && forall j | 0 <= j <= i :: IsAliveEnvelope(envelopes[j])
    decreases |envelopes|
  {
    if envelopes == [] || !IsAliveEnvelope(envelopes[0]) {
    } else {
      var rest := envelopes[1..];
      AliveHeardAt(entries, rest, valid, m);
      if i :| 0 <= i < |rest| && rest[i] == Some(m) && forall j | 0 <= j <= i :: IsAliveEnvelope(rest[j]) {
        assert envelopes[i + 1] == Some(m);
        forall j | 0 <= j <= i + 1
          ensures IsAliveEnvelope(envelopes[j])
        {
          assert j > 0 ==> envelopes[j] == rest[j - 1];
        }
      }
      if i :| 0 <= i < |envelopes| && envelopes[i] == Some(m)
              && forall j | 0 <= j <= i :: IsAliveEnvelope(envelopes[j]) {
        if i > 0 {
          assert rest[i - 1] == Some(m);
          forall j | 0 <= j <= i - 1
            ensures IsAliveEnvelope(rest[j])
          {
            assert rest[j] == envelopes[j + 1];
          }
        }
      }
    }
  }

  /** The dead part is reached exactly if no alive envelope cuts the handler short. */
  lemma {:induction false} CutShort(entries: seq<Entry>, v: View, envelopes: Envelopes, valid: Validator)
    requires Consistent(v)
    ensures HearAlive(entries, v, envelopes, valid).1 <==>
            exists i | 0 <= i < |envelopes| :: !IsAliveEnvelope(envelopes[i])
    decreases |envelopes|
  {
    if envelopes == [] || !IsAliveEnvelope(envelopes[0]) {
    } else {
      HeardIsConsistent(v, envelopes[0].value, valid(envelopes[0].value));
      CutShort(entries, HearOne(entries, v, envelopes[0].value, valid), envelopes[1..], valid);
      assert envelopes == [envelopes[0]] + envelopes[1..];
    }
  }

  /** An envelope that ends the dead part: unreadable, or valid and turned away by the store. */
  predicate EndsDead(entries: seq<Entry>, e: Option<SignedMessage>, valid: Validator) {
    e.None? || (e.value.content.AliveMsg? && valid(e.value) && !Accepts(Comparator(0), entries, e.value))
  }

  /** The messages about dead peers that are taken notice of. */
  function DeadHeard(entries: seq<Entry>, envelopes: Envelopes, valid: Validator): set<SignedMessage>
    decreases |envelopes|
  {
    if envelopes == [] || EndsDead(entries, envelopes[0], valid) then
      {}
    else
      (if envelopes[0].value.content.AliveMsg? && valid(envelopes[0].value) then {envelopes[0].value} else {})
      + DeadHeard(entries, envelopes[1..], valid)
  }

  /** Position by position: the valid alive messages in front of the first envelope that ends the part. */
  lemma {:induction false} DeadHeardAt(entries: seq<Entry>, envelopes: Envelopes, valid: Validator, m: SignedMessage)
    ensures m in DeadHeard(entries, envelopes, valid) <==>
            && m.content.AliveMsg? && valid(m)
            && exists i | 0 <= i < |envelopes| ::
                 envelopes[i] == Some(m) && forall j | 0 <= j <= i :: !EndsDead(entries, envelopes[j], valid)
    decreases |envelopes|
  {
    if envelopes == [] || EndsDead(entries, envelopes[0], valid) {
    } else {
      var rest := envelopes[1..];
      DeadHeardAt(entries, rest, valid, m);
      if i :| 0 <= i < |rest| && rest[i] == Some(m) && forall j | 0 <= j <= i :: !EndsDead(entries, rest[j], valid) {
        assert envelopes[i + 1] == Some(m);
        forall j | 0 <= j <= i + 1
          ensures !EndsDead(entries, envelopes[j], valid)
        {
          assert j > 0 ==> envelopes[j] == rest[j - 1];
        }
      }
      if i :| 0 <= i < |envelopes| && envelopes[i] == Some(m)
              && forall j | 0 <= j <= i :: !EndsDead(entries, envelopes[j], valid) {
        if i > 0 {
          assert rest[i - 1] == Some(m);
          forall j | 0 <= j <= i - 1
            ensures !EndsDead(entries, rest[j], valid)
          {
            assert rest[j] == envelopes[j + 1];
          }
        }
      }
    }
  }

  /** The messages in a response's dead part that its handler gets to. */
  function DeadFrom(entries: seq<Entry>, v: View, msg: Inbound, valid: Validator): set<SignedMessage> {
    match msg
    case MemRes(alive, dead) =>
      if exists i | 0 <= i < |alive| :: !IsAliveEnvelope(alive[i]) then {} else DeadHeard(entries, dead, valid)
    case _ => {}
  }

  // ----- Who becomes known, who is alive -----

  /** What is on record about one peer. */
  datatype Standing = Stranger | OnRecord(isAlive: bool, latest: SignedMessage)

  function StandingOf(v: View, p: PkiId): Standing
    requires Consistent(v)
  {
    if p in v.aliveTS then OnRecord(true, v.alive[p])
    else if p in v.deadTS then OnRecord(false, v.dead[p])
    else Stranger
  }

  predicate IsUp(a: Standing) {
    a.OnRecord? && a.isAlive
  }

  predicate IsNewer(a: Standing, m: SignedMessage) {
    m.content.AliveMsg? &&
    (a.OnRecord? && a.latest.content.AliveMsg? ==>
       var r, t := TimeOf(a.latest), TimeOf(m);
       r.incNum < t.incNum || (r.incNum == t.incNum && r.seqNum < t.seqNum))
  }

  /** What hearing some messages does to a peer: it is known afterwards exactly if it was before or one of them is
      about it; it is alive exactly if it was before or one of them is newer than what was on record; and what is on
      record changes only to one of them, and is not before any of them. */
  ghost predicate Tells(a: Standing, b: Standing, p: PkiId, heard: set<SignedMessage>) {
    && (a.OnRecord? ==> IsOf(a.latest, p)) && (b.OnRecord? ==> IsOf(b.latest, p))
    && (b.OnRecord? <==> a.OnRecord? || exists m | m in heard :: IsOf(m, p))
    && (IsUp(b) <==> IsUp(a) || exists m | m in heard :: IsOf(m, p) && IsNewer(a, m))
    && (b.OnRecord? ==> (a.OnRecord? && b.latest == a.latest) || b.latest in heard)
    && (a.OnRecord? && b.OnRecord? ==> !Before(TimeOf(b.latest), TimeOf(a.latest)))
    && (forall m | m in heard && IsOf(m, p) && b.OnRecord? :: !Before(TimeOf(b.latest), TimeOf(m)))
  }

  /** One message about another peer, in terms of what is on record about it. */
  lemma HeardStanding(v: View, m: AliveMessage, p: PkiId)
    requires Consistent(v) && p != v.self
    ensures var w, a := Heard(v, m, true), StandingOf(v, p);
            && Consistent(w)
            && StandingOf(w, p) == (if PkiOf(m) == p && IsNewer(a, m) then OnRecord(true, m) else a)
            && (a.OnRecord? ==> IsOf(a.latest, p))
  {
    HeardIsConsistent(v, m, true);
  }

  lemma OneTells(a: Standing, m: AliveMessage, p: PkiId)
    requires a.OnRecord? ==> IsOf(a.latest, p)
    ensures Tells(a, if PkiOf(m) == p && IsNewer(a, m) then OnRecord(true, m) else a, p, {m})
  {
    assert m in {m};
  }

  lemma NothingTold(v: View, p: PkiId)
    requires Consistent(v)
    ensures Tells(StandingOf(v, p), StandingOf(v, p), p, {})
  {
  }

  lemma HeardTells(v: View, m: AliveMessage, valid: bool, p: PkiId)
    requires Consistent(v) && p != v.self
    ensures Consistent(Heard(v, m, valid))
    ensures Tells(StandingOf(v, p), StandingOf(Heard(v, m, valid), p), p, if valid then {m} else {})
  {
    if valid {
      HeardStanding(v, m, p);
      OneTells(StandingOf(v, p), m, p);
    } else {
      NothingTold(v, p);
    }
  }

  lemma TellsIsTransitive(a: Standing, b: Standing, c: Standing, p: PkiId, one: set<SignedMessage>,
                          two: set<SignedMessage>)
    requires Tells(a, b, p, one) && Tells(b, c, p, two)
    ensures Tells(a, c, p, one + two)
  {
    forall m | m in one || m in two
      ensures m in one + two
    {
    }
    if m :| m in two && IsOf(m, p) && IsNewer(a, m) {
      if !IsNewer(b, m) {
        assert b.latest in one && IsOf(b.latest, p) && IsNewer(a, b.latest);
      }
    }
  }

  lemma HearOneTells(entries: seq<Entry>, v: View, m: AliveMessage, valid: Validator, p: PkiId)
    requires Consistent(v) && p != v.self
    ensures Consistent(HearOne(entries, v, m, valid)) && HearOne(entries, v, m, valid).self == v.self
    ensures Tells(StandingOf(v, p), StandingOf(HearOne(entries, v, m, valid), p), p,
                  if Accepts(Comparator(0), entries, m) && valid(m) then {m} else {})
  {
    HeardTells(v, m, valid(m), p);
    NothingTold(v, p);
  }

  lemma {:induction false} HearAliveTells(entries: seq<Entry>, v: View, envelopes: Envelopes, valid: Validator,
                                          p: PkiId)
    requires Consistent(v) && p != v.self
    ensures Tells(StandingOf(v, p), StandingOf(HearAlive(entries, v, envelopes, valid).0, p), p,
                  AliveHeard(entries, envelopes, valid))
    ensures HearAlive(entries, v, envelopes, valid).0.self == v.self
    decreases |envelopes|
  {
    if envelopes == [] || !IsAliveEnvelope(envelopes[0]) {
      NothingTold(v, p);
    } else {
      var m, rest := envelopes[0].value, envelopes[1..];
      var one: set<SignedMessage> := if Accepts(Comparator(0), entries, m) && valid(m) then {m} else {};
      HearOneTells(entries, v, m, valid, p);
      var w := HearOne(entries, v, m, valid);
      HearAliveTells(entries, w, rest, valid, p);
      TellsIsTransitive(StandingOf(v, p), StandingOf(w, p), StandingOf(HearAlive(entries, w, rest, valid).0, p), p,
                        one, AliveHeard(entries, rest, valid));
    }
  }

  // ----- The dead part -----

  /** What the dead part does to a peer: one not known before becomes known, as dead, exactly if one of its
      messages is about it; one known before is left alone. */
  ghost predicate Buries(a: Standing, b: Standing, p: PkiId, heard: set<SignedMessage>) {
    && (a.OnRecord? ==> b == a)
    && (a.Stranger? ==>
          && (b.OnRecord? <==> exists m | m in heard :: IsOf(m, p))
          && (b.OnRecord? ==> !b.isAlive && b.latest in heard && IsOf(b.latest, p)))
  }

  lemma HeardDeadBuries(v: View, m: AliveMessage, p: PkiId)
    requires Consistent(v) && p != v.self
    ensures Consistent(HeardDead(v, m))
    ensures Buries(StandingOf(v, p), StandingOf(HeardDead(v, m), p), p, {m})
  {
    HeardDeadIsConsistent(v, m);
    HeardDeadExactly(v, m, p);
    assert m in {m};
  }

  lemma BuriesIsTransitive(a: Standing, b: Standing, c: Standing, p: PkiId, one: set<SignedMessage>,
                           two: set<SignedMessage>)
    requires Buries(a, b, p, one) && Buries(b, c, p, two)
    ensures Buries(a, c, p, one + two)
  {
    forall m | m in one || m in two
      ensures m in one + two
    {
    }
  }

  lemma {:induction false} HearDeadBuries(entries: seq<Entry>, v: View, envelopes: Envelopes, valid: Validator,
                                          p: PkiId)
    requires Consistent(v) && p != v.self
    ensures Buries(StandingOf(v, p), StandingOf(HearDead(entries, v, envelopes, valid), p), p,
                   DeadHeard(entries, envelopes, valid))
    decreases |envelopes|
  {
    if envelopes == [] || EndsDead(entries, envelopes[0], valid) {
    } else {
      var m, rest := envelopes[0].value, envelopes[1..];
      if !m.content.AliveMsg? || !valid(m) {
        HearDeadBuries(entries, v, rest, valid, p);
        assert {} + DeadHeard(entries, rest, valid) == DeadHeard(entries, rest, valid);
      } else {
        HeardDeadBuries(v, m, p);
        HearDeadBuries(entries, HeardDead(v, m), rest, valid, p);
        BuriesIsTransitive(StandingOf(v, p), StandingOf(HeardDead(v, m), p),
                           StandingOf(HearDead(entries, HeardDead(v, m), rest, valid), p), p,
                           {m}, DeadHeard(entries, rest, valid));
      }
    }
  }

  // ----- Whole handlers -----

  /** What a handler does to a peer: it is known afterwards exactly if it was before or one of the messages is about
      it; it is alive exactly if it was before or one of those about alive peers is newer than what was on record;
      what is on record changes only to one of the messages, and is not before any about an alive peer. */
  ghost predicate HasEffect(a: Standing, b: Standing, p: PkiId, heard: set<SignedMessage>, dead: set<SignedMessage>) {
    && (a.OnRecord? ==> IsOf(a.latest, p)) && (b.OnRecord? ==> IsOf(b.latest, p))
    && (b.OnRecord? <==> a.OnRecord? || (exists m | m in heard :: IsOf(m, p)) || (exists m | m in dead :: IsOf(m, p)))
    && (IsUp(b) <==> IsUp(a) || exists m | m in heard :: IsOf(m, p) && IsNewer(a, m))
    && (b.OnRecord? ==> (a.OnRecord? && b.latest == a.latest) || b.latest in heard || (a.Stranger? && b.latest in dead))
    && (forall m | m in heard && IsOf(m, p) && b.OnRecord? :: !Before(TimeOf(b.latest), TimeOf(m)))
  }

  lemma EffectOfParts(a: Standing, c: Standing, b: Standing, p: PkiId, heard: set<SignedMessage>,
                      dead: set<SignedMessage>)
    requires Tells(a, c, p, heard) && Buries(c, b, p, dead)
    ensures HasEffect(a, b, p, heard, dead)
  {
  }

  lemma ResponseHasEffect(v: View, entries: seq<Entry>, alive: Envelopes, dead: Envelopes, valid: Validator, p: PkiId)
    requires Consistent(v) && p != v.self
    ensures var w := Response(entries, v, alive, dead, valid);
            && Consistent(w)
            && HasEffect(StandingOf(v, p), StandingOf(w, p), p, AliveHeard(entries, alive, valid),
                         DeadFrom(entries, v, MemRes(alive, dead), valid))
  {
    var (c, aborted) := HearAlive(entries, v, alive, valid);
    HearAliveTells(entries, v, alive, valid, p);
    CutShort(entries, v, alive, valid);
    if aborted {
      EffectOfParts(StandingOf(v, p), StandingOf(c, p), StandingOf(c, p), p, AliveHeard(entries, alive, valid), {});
    } else {
      var w := HearDead(entries, c, dead, valid);
      HearDeadBuries(entries, c, dead, valid, p);
      EffectOfParts(StandingOf(v, p), StandingOf(c, p), StandingOf(w, p), p, AliveHeard(entries, alive, valid),
                    DeadHeard(entries, dead, valid));
    }
  }

  lemma TellsHasEffect(a: Standing, b: Standing, p: PkiId, heard: set<SignedMessage>)
    requires Tells(a, b, p, heard)
    ensures HasEffect(a, b, p, heard, {})
  {
    EffectOfParts(a, b, b, p, heard, {});
  }

  /** The effect of every handler on every peer other than oneself. */
  lemma HandledHasEffect(v: View, entries: seq<Entry>, msg: Inbound, valid: Validator, now: int, p: PkiId)
    requires Consistent(v) && p != v.self
    ensures var w := Handled(v, entries, msg, valid, now).0;
            && Consistent(w)
            && HasEffect(StandingOf(v, p), StandingOf(w, p), p, HeardFrom(entries, msg, valid),
                         DeadFrom(entries, v, msg, valid))
  {
    NothingTold(v, p);
    match msg
    case Unrelated =>
      TellsHasEffect(StandingOf(v, p), StandingOf(v, p), p, {});
    case MemReq(selfInformation) =>
      if selfInformation.Some? {
        HearOneTells(entries, v, selfInformation.value, valid, p);
      }
      TellsHasEffect(StandingOf(v, p), StandingOf(Handled(v, entries, msg, valid, now).0, p), p,
                     HeardFrom(entries, msg, valid));
    case Alive(m) =>
      AddAgreesWithCheckValid(Comparator(0), entries, m, now);
      HearOneTells(entries, v, m, valid, p);
      TellsHasEffect(StandingOf(v, p), StandingOf(HearOne(entries, v, m, valid), p), p, HeardFrom(entries, msg, valid));
    case MemRes(alive, dead) =>
      ResponseHasEffect(v, entries, alive, dead, valid, p);
  }

  /** After a handler, whoever it was told of is known with a time no earlier than told, known before or not. */
  lemma ToldIsRecorded(v: View, entries: seq<Entry>, msg: Inbound, valid: Validator, now: int, m: AliveMessage)
    requires Consistent(v) && m in HeardFrom(entries, msg, valid) && PkiOf(m) != v.self
    ensures var w := Handled(v, entries, msg, valid, now).0;
            && Consistent(w) && w.self == v.self
            && Known(w, PkiOf(m)) && !Before(Recorded(w, PkiOf(m)), TimeOf(m))
  {
    HandledHasEffect(v, entries, msg, valid, now, PkiOf(m));
    HandledAdvances(v, entries, msg, valid, now, PkiOf(m));
  }

  /** And stays so over every run, until the peer is forgotten. */
  lemma ToldStaysRecorded(ttl: int, s: Service, msg: Inbound, valid: Validator, now: int, later: seq<DiscoveryRuns.Op>,
                          m: AliveMessage)
    requires Agrees(s) && m in HeardFrom(s.entries, msg, valid) && PkiOf(m) != s.view.self
    ensures var t := Step(ttl, s, HandleOp(msg, valid, now));
            && Agrees(t)
            && (!Forgets(ttl, t, later, PkiOf(m)) ==>
                  var w := Run(ttl, t, later).view;
                  Known(w, PkiOf(m)) && !Before(Recorded(w, PkiOf(m)), TimeOf(m)))
  {
    var t := Step(ttl, s, HandleOp(msg, valid, now));
    StepAgrees(ttl, s, HandleOp(msg, valid, now));
    ToldIsRecorded(s.view, s.entries, msg, valid, now, m);
    if !Forgets(ttl, t, later, PkiOf(m)) {
      RecordIsLatest(ttl, t, later, PkiOf(m));
    }
  }

  lemma AddedMembers(entries: seq<Entry>, m: SignedMessage, now: int)
    ensures var r := AddTo(Comparator(0), entries, m, now);
            && (forall e | e in r.messages :: e in entries || e == Entry(m, now, false))
            && (r.added ==> Entry(m, now, false) in r.messages)
  {
    var n := Reach(Comparator(0), entries, m);
    FilterMembers(Not(Superseded(Comparator(0), m)), entries[..n]);
  }

  /** The store of a service takes in the alive messages it is sent, and nothing from requests and responses. */
  lemma OnlyAliveIsStored(v: View, entries: seq<Entry>, msg: Inbound, valid: Validator, now: int)
    requires Consistent(v)
    ensures var after := Handled(v, entries, msg, valid, now).1;
            && (!msg.Alive? ==> after == entries)
            && (msg.Alive? ==> forall e | e in after :: e in entries || e == Entry(msg.message, now, false))
            && (msg.Alive? && Accepts(Comparator(0), entries, msg.message) ==> Entry(msg.message, now, false) in after)
  {
    if msg.Alive? {
      var m := msg.message;
      AddAgreesWithCheckValid(Comparator(0), entries, m, now);
      AddedMembers(entries, m, now);
    }
  }

  // ----- Presumed deaths -----

  lemma PresumedExactly(v: View, q: PkiId, p: PkiId)
    requires Consistent(v)
    ensures var w := Presumed(v, q);
            && Consistent(w) && w.self == v.self && w.peers == v.peers
            && StandingOf(w, p) == (if p == q && p in v.aliveTS then OnRecord(false, v.alive[p]) else StandingOf(v, p))
            && (p in w.aliveTS <==> p in v.aliveTS && p != q)
            && (p in w.aliveTS ==> w.alive[p] == v.alive[p])
  {
    PresumedIsConsistent(v, q);
  }

  /** The listed peers that are alive become dead, record and all; nothing else changes. */
  lemma {:induction false} PresumeAllExactly(v: View, dead: seq<PkiId>, p: PkiId)
    requires Consistent(v)
    ensures var w := PresumeAll(v, dead);
            && Consistent(w) && w.self == v.self && w.peers == v.peers
            && StandingOf(w, p) == if p in dead && p in v.aliveTS then OnRecord(false, v.alive[p]) else StandingOf(v, p)
    decreases |dead|
  {
    if dead == [] {
    } else {
      PresumedExactly(v, dead[0], p);
      PresumeAllExactly(Presumed(v, dead[0]), dead[1..], p);
      assert dead == [dead[0]] + dead[1..];
    }
  }

  lemma ClosingNext(v: View, first: PkiId, rest: seq<PkiId>, others: seq<Peer>)
    requires Consistent(v)
    requires forall q :: q in others <==> exists p | p in rest :: p in v.aliveTS && p != first && v.peers[p] == q
    ensures var all := (if first in v.aliveTS then [v.peers[first]] else []) + others;
            && (forall q :: q in all <==> exists p | p in [first] + rest :: p in v.aliveTS && v.peers[p] == q)
            && (first in v.aliveTS ==> v.peers[first] !in others)
  {
    var all := (if first in v.aliveTS then [v.peers[first]] else []) + others;
    forall q
      ensures q in all <==> exists p | p in [first] + rest :: p in v.aliveTS && v.peers[p] == q
    {
      if p :| p in rest && p in v.aliveTS && v.peers[p] == q {
        assert p in [first] + rest;
      }
      if first in v.aliveTS && q == v.peers[first] {
        assert first in [first] + rest;
      }
    }
  }

  /** The connections closed are those of the listed peers that were alive, each once. */
  lemma {:induction false} ClosingExactly(v: View, dead: seq<PkiId>)
    requires Consistent(v)
    ensures forall q :: q in Closing(v, dead) <==> exists p | p in dead :: p in v.aliveTS && v.peers[p] == q
    ensures forall i, j | 0 <= i < j < |Closing(v, dead)| :: Closing(v, dead)[i] != Closing(v, dead)[j]
    decreases |dead|
  {
    if dead == [] {
    } else {
      var w, rest := Presumed(v, dead[0]), dead[1..];
      assert dead == [dead[0]] + rest;
      forall p
        ensures p in w.aliveTS <==> p in v.aliveTS && p != dead[0]
      {
        PresumedExactly(v, dead[0], p);
      }
      PresumedExactly(v, dead[0], dead[0]);
      ClosingExactly(w, rest);
      ClosingNext(v, dead[0], rest, Closing(w, rest));
    }
  }
}
