/** What time the discovery service has on record for a peer, over whole runs: the latest it was told. */
module DiscoveryTimes {
  import opened Sequences
  import opened Messages
  import opened Policy
  import opened MessageStores
  import opened StoreConvergence
  import opened Membership
  import opened Discovery
  import opened DiscoveryRuns

  // ----- What the service is told -----

  /** The valid alive messages of a response that the store check lets through, up to where the handler
      stops. */
  function AliveHeard(entries: seq<Entry>, envelopes: Envelopes, valid: Validator): set<SignedMessage>
    decreases |envelopes|
  {
    if envelopes == [] || envelopes[0].None? || !envelopes[0].value.content.AliveMsg? then
      {}
    else
      var m := envelopes[0].value;
      (if Accepts(Comparator(0), entries, m) && valid(m) then {m} else {}) + AliveHeard(entries, envelopes[1..], valid)
  }

  /** The valid alive messages that a handler is given and that the store check lets through. */
  function HeardFrom(entries: seq<Entry>, msg: Inbound, valid: Validator): set<SignedMessage> {
    match msg
    case Unrelated => {}
    case MemReq(selfInformation) =>
      if selfInformation.Some? && Accepts(Comparator(0), entries, selfInformation.value) && valid(selfInformation.value)
      then {selfInformation.value} else {}
    case Alive(m) => if Accepts(Comparator(0), entries, m) && valid(m) then {m} else {}
    case MemRes(alive, _) => AliveHeard(entries, alive, valid)
  }

  ghost function HeardIn(ttl: int, s: Service, ops: seq<Op>): set<SignedMessage>
    requires Agrees(s)
  {
    if ops == [] then
      {}
    else
      var front, op := ops[..|ops| - 1], ops[|ops| - 1];
      HeardIn(ttl, s, front) + if op.HandleOp? then HeardFrom(Run(ttl, s, front).entries, op.msg, op.valid) else {}
  }

  // ----- The record is the latest -----

  predicate IsOf(m: SignedMessage, p: PkiId) {
    m.content.AliveMsg? && PkiOf(m) == p
  }

  /** From `v` to `w` the peer stays known; its recorded time in `w` is the one in `v` or that of a message
      about it among those heard, and none of these is later. */
  ghost predicate IsLatest(v: View, w: View, p: PkiId, heard: set<SignedMessage>) {
    && Consistent(v) && Consistent(w) && w.self == v.self
    && (Known(v, p) ==>
          && Known(w, p)
          && !Before(Recorded(w, p), Recorded(v, p))
          && (forall m | m in heard && IsOf(m, p) :: !Before(Recorded(w, p), TimeOf(m)))
          && (Recorded(w, p) == Recorded(v, p) || exists m | m in heard :: IsOf(m, p) && Recorded(w, p) == TimeOf(m)))
  }

  lemma LatestIsTransitive(u: View, v: View, w: View, p: PkiId, one: set<SignedMessage>, two: set<SignedMessage>)
    requires IsLatest(u, v, p, one) && IsLatest(v, w, p, two)
    ensures IsLatest(u, w, p, one + two)
  {
    if Known(u, p) && Recorded(w, p) != Recorded(u, p) {
      if Recorded(w, p) == Recorded(v, p) {
        var m :| m in one && IsOf(m, p) && Recorded(v, p) == TimeOf(m);
        assert m in one + two;
      } else {
        var m :| m in two && IsOf(m, p) && Recorded(w, p) == TimeOf(m);
        assert m in one + two;
      }
    }
  }

  lemma HeardIsLatest(v: View, m: SignedMessage, valid: bool, p: PkiId)
    requires Consistent(v) && m.content.AliveMsg?
    ensures IsLatest(v, Heard(v, m, valid), p, if valid then {m} else {})
  {
    HeardIsConsistent(v, m, valid);
    HeardAdvances(v, m, valid, p);
    if valid && PkiOf(m) != v.self {
      HeardRecordsMaximum(v, m);
      if PkiOf(m) == p && Known(v, p) && Before(Recorded(v, p), TimeOf(m)) {
        assert m in {m} && IsOf(m, p);
      }
    }
  }

  /** Nothing heard, and nothing recorded changed. */
  lemma SameIsLatest(v: View, w: View, p: PkiId)
    requires Consistent(v) && Consistent(w) && w.self == v.self
    requires Known(v, p) ==> Known(w, p) && Recorded(w, p) == Recorded(v, p)
    ensures IsLatest(v, w, p, {})
  {
  }

  lemma HearOneIsLatest(entries: seq<Entry>, v: View, m: AliveMessage, valid: Validator, p: PkiId)
    requires Consistent(v)
    ensures IsLatest(v, HearOne(entries, v, m, valid), p,
                     if Accepts(Comparator(0), entries, m) && valid(m) then {m} else {})
  {
    if Accepts(Comparator(0), entries, m) {
      HeardIsLatest(v, m, valid(m), p);
    }
  }

  lemma {:induction false} HearAliveIsLatest(entries: seq<Entry>, v: View, envelopes: Envelopes, valid: Validator,
                                             p: PkiId)
    requires Consistent(v)
    ensures IsLatest(v, HearAlive(entries, v, envelopes, valid).0, p, AliveHeard(entries, envelopes, valid))
    decreases |envelopes|
  {
    if envelopes == [] || envelopes[0].None? || !envelopes[0].value.content.AliveMsg? {
    } else {
      var m, rest := envelopes[0].value, envelopes[1..];
      HeardIsConsistent(v, m, valid(m));
      var w := HearOne(entries, v, m, valid);
      HearOneIsLatest(entries, v, m, valid, p);
      HearAliveIsLatest(entries, w, rest, valid, p);
      LatestIsTransitive(v, w, HearAlive(entries, w, rest, valid).0, p,
                         if Accepts(Comparator(0), entries, m) && valid(m) then {m} else {},
                         AliveHeard(entries, rest, valid));
    }
  }

  lemma HeardDeadIsLatest(v: View, m: AliveMessage, p: PkiId)
    requires Consistent(v)
    ensures IsLatest(v, HeardDead(v, m), p, {})
  {
    HeardDeadIsConsistent(v, m);
    HeardDeadAdvances(v, m, p);
    SameIsLatest(v, HeardDead(v, m), p);
  }

  lemma {:induction false} HearDeadIsLatest(entries: seq<Entry>, v: View, envelopes: Envelopes, valid: Validator,
                                            p: PkiId)
    requires Consistent(v)
    ensures IsLatest(v, HearDead(entries, v, envelopes, valid), p, {})
    decreases |envelopes|
  {
    if envelopes == [] || envelopes[0].None? {
    } else {
      var m, rest := envelopes[0].value, envelopes[1..];
      if !m.content.AliveMsg? || !valid(m) {
        HearDeadIsLatest(entries, v, rest, valid, p);
      } else if Accepts(Comparator(0), entries, m) {
        HeardDeadIsLatest(v, m, p);
        HearDeadIsLatest(entries, HeardDead(v, m), rest, valid, p);
        LatestIsTransitive(v, HeardDead(v, m), HearDead(entries, HeardDead(v, m), rest, valid), p, {}, {});
      }
    }
  }

  lemma {:induction false} PresumeAllIsLatest(v: View, dead: seq<PkiId>, p: PkiId)
    requires Consistent(v)
    ensures IsLatest(v, PresumeAll(v, dead), p, {})
    decreases |dead|
  {
    if dead == [] {
    } else {
      PresumedIsConsistent(v, dead[0]);
      PresumedAdvances(v, dead[0], p);
      SameIsLatest(v, Presumed(v, dead[0]), p);
      PresumeAllIsLatest(Presumed(v, dead[0]), dead[1..], p);
      LatestIsTransitive(v, Presumed(v, dead[0]), PresumeAll(v, dead), p, {}, {});
    }
  }

  lemma ResponseIsLatest(entries: seq<Entry>, v: View, alive: Envelopes, dead: Envelopes, valid: Validator, p: PkiId)
    requires Consistent(v)
    ensures IsLatest(v, Response(entries, v, alive, dead, valid), p, AliveHeard(entries, alive, valid))
  {
    var (w, aborted) := HearAlive(entries, v, alive, valid);
    HearAliveIsLatest(entries, v, alive, valid, p);
    if !aborted {
      HearDeadIsLatest(entries, w, dead, valid, p);
      var heard := AliveHeard(entries, alive, valid);
      LatestIsTransitive(v, w, HearDead(entries, w, dead, valid), p, heard, {});
      assert heard + {} == heard;
    }
  }

  lemma HandledIsLatest(v: View, entries: seq<Entry>, msg: Inbound, valid: Validator, now: int, p: PkiId)
    requires Consistent(v)
    ensures IsLatest(v, Handled(v, entries, msg, valid, now).0, p, HeardFrom(entries, msg, valid))
  {
    match msg
    case Unrelated =>
    case MemReq(selfInformation) =>
      if selfInformation.Some? {
        HearOneIsLatest(entries, v, selfInformation.value, valid, p);
      }
    case Alive(m) =>
      AddAgreesWithCheckValid(Comparator(0), entries, m, now);
      HeardIsLatest(v, m, valid(m), p);
    case MemRes(alive, dead) => ResponseIsLatest(entries, v, alive, dead, valid, p);
  }

  /** Until a peer is forgotten, its recorded time is the latest among its first record and the valid alive
      messages about it that the store check let through since. */
  lemma {:induction false} RecordIsLatest(ttl: int, s: Service, ops: seq<Op>, p: PkiId)
    requires Agrees(s) && !Forgets(ttl, s, ops, p)
    ensures IsLatest(s.view, Run(ttl, s, ops).view, p, HeardIn(ttl, s, ops))
  {
    if ops == [] {
      SameIsLatest(s.view, s.view, p);
    } else {
      var front, op := ops[..|ops| - 1], ops[|ops| - 1];
      var t := Run(ttl, s, front);
      RecordIsLatest(ttl, s, front, p);
      match op {
        case HandleOp(msg, valid, now) => HandledIsLatest(t.view, t.entries, msg, valid, now, p);
        case PresumeOp(dead) => PresumeAllIsLatest(t.view, dead, p);
        case ExpireOp(clock) => ForgetAllForgets(t.view, SweepOf(t.entries, ttl, clock).calledBack, p);
      }
      LatestIsTransitive(s.view, t.view, Run(ttl, s, ops).view, p, HeardIn(ttl, s, front),
                         if op.HandleOp? then HeardFrom(t.entries, op.msg, op.valid) else {});
    }
  }
}
