/** Whole runs of the discovery service: handlers, presumed deaths and expiry passes in any order. */
module DiscoveryRuns {
  import opened Sequences
  import opened Messages
  import opened Policy
  import opened MessageStores
  import opened StoreConvergence
  import StoreLifecycle
  import opened Membership
  import opened Discovery

  /** The service and its store. `vetted` are the stored messages that passed validation when they were
      handled after being stored. */
  datatype Service = Service(view: View, entries: seq<Entry>, vetted: set<SignedMessage>)

  datatype Op =
    | HandleOp(msg: Inbound, valid: Validator, now: int)
    | PresumeOp(dead: seq<PkiId>)
    | ExpireOp(clock: Clock)

  function Vetted(s: Service, msg: Inbound, valid: Validator): set<SignedMessage> {
    match msg
    case Alive(m) =>
      if !Accepts(Comparator(0), s.entries, m) then s.vetted
      else if valid(m) then s.vetted + {m} else s.vetted - {m}
    case _ => s.vetted
  }

  function Step(ttl: int, s: Service, op: Op): Service
    requires Consistent(s.view)
  {
    match op
    case HandleOp(msg, valid, now) =>
      var (view, entries) := Handled(s.view, s.entries, msg, valid, now);
      Service(view, entries, Vetted(s, msg, valid))
    case PresumeOp(dead) =>
      s.(view := PresumeAll(s.view, dead))
    case ExpireOp(clock) =>
      var r := SweepOf(s.entries, ttl, clock);
      s.(view := ForgetAll(s.view, r.calledBack), entries := r.messages)
  }

  /** Cross-layer agreement for one entry: as long as a vetted message about another peer is stored and
      not expired, that peer is known with a time at least as late. */
  ghost predicate Backed(s: Service, e: Entry)
    requires Consistent(s.view)
  {
    e.data.content.AliveMsg? && !e.expired && e.data in s.vetted && PkiOf(e.data) != s.view.self ==>
      Known(s.view, PkiOf(e.data)) && !Before(Recorded(s.view, PkiOf(e.data)), TimeOf(e.data))
  }

  ghost predicate Agrees(s: Service) {
    && Consistent(s.view)
    && Compatible(0, s.entries)
    && (forall e | e in s.entries :: e.data.content.AliveMsg?)
    && (forall e | e in s.entries :: Backed(s, e))
  }

  // ----- A whole handler advances every peer -----

  lemma {:induction false} HearAliveAdvances(entries: seq<Entry>, v: View, envelopes: Envelopes, valid: Validator,
                                             p: PkiId)
    requires Consistent(v)
    ensures Advances(v, HearAlive(entries, v, envelopes, valid).0, p)
    decreases |envelopes|
  {
    if envelopes == [] || envelopes[0].None? || !envelopes[0].value.content.AliveMsg? {
    } else {
      var m := envelopes[0].value;
      HeardAdvances(v, m, valid(m), p);
      var w := HearOne(entries, v, m, valid);
      HearAliveAdvances(entries, w, envelopes[1..], valid, p);
      AdvancesIsTransitive(v, w, HearAlive(entries, w, envelopes[1..], valid).0, p);
    }
  }

  lemma {:induction false} HearDeadAdvances(entries: seq<Entry>, v: View, envelopes: Envelopes, valid: Validator,
                                            p: PkiId)
    requires Consistent(v)
    ensures Advances(v, HearDead(entries, v, envelopes, valid), p)
    decreases |envelopes|
  {
    if envelopes == [] || envelopes[0].None? {
    } else {
      var m, rest := envelopes[0].value, envelopes[1..];
      if !m.content.AliveMsg? || !valid(m) {
        HearDeadAdvances(entries, v, rest, valid, p);
      } else if Accepts(Comparator(0), entries, m) {
        HeardDeadAdvances(v, m, p);
        HearDeadAdvances(entries, HeardDead(v, m), rest, valid, p);
        AdvancesIsTransitive(v, HeardDead(v, m), HearDead(entries, HeardDead(v, m), rest, valid), p);
      }
    }
  }

  lemma {:induction false} PresumeAllAdvances(v: View, dead: seq<PkiId>, p: PkiId)
    requires Consistent(v)
    ensures Advances(v, PresumeAll(v, dead), p)
    decreases |dead|
  {
    if dead == [] {
    } else {
      PresumedAdvances(v, dead[0], p);
      PresumeAllAdvances(Presumed(v, dead[0]), dead[1..], p);
      AdvancesIsTransitive(v, Presumed(v, dead[0]), PresumeAll(v, dead), p);
    }
  }

  lemma HandledAdvances(v: View, entries: seq<Entry>, msg: Inbound, valid: Validator, now: int, p: PkiId)
    requires Consistent(v)
    ensures Advances(v, Handled(v, entries, msg, valid, now).0, p)
  {
    match msg
    case Unrelated =>
    case MemReq(selfInformation) =>
      if selfInformation.Some? {
        HeardAdvances(v, selfInformation.value, valid(selfInformation.value), p);
      }
    case Alive(m) =>
      HeardAdvances(v, m, valid(m), p);
    case MemRes(alive, dead) =>
      var (w, aborted) := HearAlive(entries, v, alive, valid);
      HearAliveAdvances(entries, v, alive, valid, p);
      if !aborted {
        HearDeadAdvances(entries, w, dead, valid, p);
        AdvancesIsTransitive(v, w, HearDead(entries, w, dead, valid), p);
      }
  }

  // ----- Forgetting -----

  predicate Names(gone: seq<Entry>, p: PkiId) {
    exists e | e in gone :: e.data.content.AliveMsg? && PkiOf(e.data) == p
  }

  /** Nothing about `p` differs between `v` and `w`. */
  ghost predicate Keeps(v: View, w: View, p: PkiId)
    requires Consistent(v) && Consistent(w)
  {
    && w.self == v.self
    && (p in w.aliveTS <==> p in v.aliveTS) && (p in w.deadTS <==> p in v.deadTS)
    && (p in w.peers <==> p in v.peers)
    && (Known(v, p) ==> Latest(w, p) == Latest(v, p))
  }

  /** An expiry pass forgets exactly the peers it calls back, and leaves all others as they were. */
  lemma {:induction false} ForgetAllForgets(v: View, gone: seq<Entry>, p: PkiId)
    requires Consistent(v)
    ensures Names(gone, p) ==> !Known(ForgetAll(v, gone), p) && p !in ForgetAll(v, gone).peers
    ensures !Names(gone, p) ==> Keeps(v, ForgetAll(v, gone), p)
    decreases |gone|
  {
    if gone == [] {
    } else {
      assert gone == [gone[0]] + gone[1..];
      if !gone[0].data.content.AliveMsg? {
        ForgetAllForgets(v, gone[1..], p);
      } else {
        ForgottenIsConsistent(v, PkiOf(gone[0].data));
        ForgetAllForgets(Forgotten(v, PkiOf(gone[0].data)), gone[1..], p);
      }
    }
  }

  // ----- The invariant over whole runs -----

  /** Advancing a view keeps an entry backed. */
  lemma BackedAdvances(s: Service, t: Service, e: Entry)
    requires Consistent(s.view) && Backed(s, e) && t.view.self == s.view.self
    requires e.data.content.AliveMsg? ==> Advances(s.view, t.view, PkiOf(e.data))
    requires Consistent(t.view) && (e.data in t.vetted <==> e.data in s.vetted)
    ensures Backed(t, e)
  {
  }

  lemma AliveStepAgrees(s: Service, m: AliveMessage, valid: Validator, now: int)
    requires Agrees(s)
    ensures Agrees(Step(0, s, HandleOp(Inbound.Alive(m), valid, now)))
  {
    var t := Step(0, s, HandleOp(Inbound.Alive(m), valid, now));
    HeardIsConsistent(s.view, m, valid(m));
    AddKeepsCompatible(0, s.entries, m, now);
    if !Accepts(Comparator(0), s.entries, m) {
      RejectedAddChangesNothing(0, s.entries, m, now);
      assert t == s;
    } else {
      AcceptedAdd(Comparator(0), s.entries, m, now);
      FilterMembers(Not(Superseded(Comparator(0), m)), s.entries);
      forall e | e in t.entries
        ensures e.data.content.AliveMsg? && Backed(t, e)
      {
        if e in s.entries {
          PolicyIsOrder(0, m, e.data);
          assert e.data != m;
          HeardAdvances(s.view, m, valid(m), PkiOf(e.data));
          BackedAdvances(s, t, e);
        } else if valid(m) && PkiOf(m) != s.view.self {
          HeardRecordsMaximum(s.view, m);
        }
      }
    }
  }

  lemma ExpireStepAgrees(ttl: int, s: Service, clock: Clock)
    requires Agrees(s)
    ensures Agrees(Step(ttl, s, ExpireOp(clock)))
  {
    var r, t := SweepOf(s.entries, ttl, clock), Step(ttl, s, ExpireOp(clock));
    StoreLifecycle.SweepIsSubsequence(s.entries, ttl, clock, 0);
    StoreLifecycle.SweptFrom(s.entries, ttl, clock);
    forall e | e in t.entries
      ensures e.data.content.AliveMsg? && Backed(t, e)
    {
      var f :| f in s.entries && (e == f || e == f.(expired := true));
      if !e.expired {
        forall g | g in r.calledBack && g.data.content.AliveMsg?
          ensures PkiOf(g.data) != PkiOf(e.data)
        {
          StoreLifecycle.SweepSeparates(s.entries, ttl, clock, e, g);
          var i, j :| 0 <= i < |s.entries| && 0 <= j < |s.entries| && i != j && s.entries[i] == e && s.entries[j] == g;
          if i < j {
            OneEntryPerRegister(0, s.entries, i, j);
          } else {
            OneEntryPerRegister(0, s.entries, j, i);
          }
        }
        ForgetAllForgets(s.view, r.calledBack, PkiOf(e.data));
      }
    }
  }

  /** A step that leaves the store alone and advances every peer keeps the agreement. */
  lemma AdvancingAgrees(s: Service, t: Service)
    requires Agrees(s) && t.entries == s.entries && t.vetted == s.vetted && Consistent(t.view)
    requires t.view.self == s.view.self
    requires forall e | e in s.entries :: Advances(s.view, t.view, PkiOf(e.data))
    ensures Agrees(t)
  {
    forall e | e in s.entries
      ensures Backed(t, e)
    {
      BackedAdvances(s, t, e);
    }
  }

  /** Every step keeps the maps consistent, the store compatible, and the two layers in agreement. */
  lemma StepAgrees(ttl: int, s: Service, op: Op)
    requires Agrees(s)
    ensures Agrees(Step(ttl, s, op))
  {
    match op
    case HandleOp(msg, valid, now) =>
      if msg.Alive? {
        AliveStepAgrees(s, msg.message, valid, now);
      } else {
        forall e | e in s.entries
          ensures Advances(s.view, Step(ttl, s, op).view, PkiOf(e.data))
        {
          HandledAdvances(s.view, s.entries, msg, valid, now, PkiOf(e.data));
        }
        HandledAdvances(s.view, s.entries, msg, valid, now, "");
        AdvancingAgrees(s, Step(ttl, s, op));
      }
    case PresumeOp(dead) =>
      forall e | e in s.entries
        ensures Advances(s.view, Step(ttl, s, op).view, PkiOf(e.data))
      {
        PresumeAllAdvances(s.view, dead, PkiOf(e.data));
      }
      PresumeAllAdvances(s.view, dead, "");
      AdvancingAgrees(s, Step(ttl, s, op));
    case ExpireOp(clock) =>
      ExpireStepAgrees(ttl, s, clock);
  }

  function Start(self: PkiId): Service {
    Service(View(self, map[], map[], map[], map[], map[]), [], {})
  }

  ghost function Run(ttl: int, s: Service, ops: seq<Op>): (t: Service)
    requires Agrees(s)
    ensures Agrees(t)
  {
    if ops == [] then
      s
    else
      var t := Run(ttl, s, ops[..|ops| - 1]);
      StepAgrees(ttl, t, ops[|ops| - 1]);
      Step(ttl, t, ops[|ops| - 1])
  }

  lemma StartAgrees(self: PkiId)
    ensures Agrees(Start(self))
  {
  }

  /** Some expiry pass of the run calls back the store's message about `p`. */
  ghost predicate Forgets(ttl: int, s: Service, ops: seq<Op>, p: PkiId)
    requires Agrees(s)
  {
    ops != [] &&
    (|| Forgets(ttl, s, ops[..|ops| - 1], p)
     || (ops[|ops| - 1].ExpireOp? &&
         Names(SweepOf(Run(ttl, s, ops[..|ops| - 1]).entries, ttl, ops[|ops| - 1].clock).calledBack, p)))
  }

  /** From the moment a peer is known until it is forgotten, the message recorded about it is replaced
      only by strictly newer ones, and it comes back from the dead only through one. */
  lemma {:induction false} TimeAdvances(ttl: int, s: Service, ops: seq<Op>, p: PkiId)
    requires Agrees(s) && !Forgets(ttl, s, ops, p)
    ensures Advances(s.view, Run(ttl, s, ops).view, p)
  {
    if ops == [] {
    } else {
      var t, op := Run(ttl, s, ops[..|ops| - 1]), ops[|ops| - 1];
      TimeAdvances(ttl, s, ops[..|ops| - 1], p);
      match op {
        case HandleOp(msg, valid, now) => HandledAdvances(t.view, t.entries, msg, valid, now, p);
        case PresumeOp(dead) => PresumeAllAdvances(t.view, dead, p);
        case ExpireOp(clock) => ForgetAllForgets(t.view, SweepOf(t.entries, ttl, clock).calledBack, p);
      }
      AdvancesIsTransitive(s.view, t.view, Run(ttl, s, ops).view, p);
    }
  }

  /** Whatever happens to a service that starts knowing nobody, its maps and its store agree. */
  lemma EveryRunAgrees(self: PkiId, ttl: int, ops: seq<Op>)
    ensures Agrees(Start(self)) && Agrees(Run(ttl, Start(self), ops))
  {
    StartAgrees(self);
  }
}
