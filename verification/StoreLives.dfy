/** The life of every single entry of a message store. Entries are numbered in the order of their addition, so
    that two additions of the same message at the same time are told apart; the numbers do not influence what
    the store does. */
module StoreLives {
  import opened Sequences
  import opened Messages
  import opened Policy
  import opened MessageStores
  import opened StoreLifecycle

  datatype Tracked = Tracked(entry: Entry, id: nat)

  datatype Lives = Lives(
    next: nat, stored: seq<Tracked>, evicted: seq<Tracked>, calledBack: seq<Tracked>, removed: seq<Tracked>)

  function Entries(s: seq<Tracked>): (r: seq<Entry>)
    ensures |r| == |s| && forall i | 0 <= i < |s| :: r[i] == s[i].entry
  {
    seq(|s|, i requires 0 <= i < |s| => s[i].entry)
  }

  function Lift(p: Entry -> bool): Tracked -> bool {
    (t: Tracked) => p(t.entry)
  }

  function Added(policy: ReplacingPolicy, l: Lives, m: SignedMessage, now: int): Lives {
    var n := Reach(policy, Entries(l.stored), m);
    var superseded := Lift(Superseded(policy, m));
    var kept := Filter(Not(superseded), l.stored[..n]);
    var evicted := l.evicted + Filter(superseded, l.stored[..n]);
    if n < |l.stored| then l.(stored := kept + l.stored[n..], evicted := evicted)
    else l.(next := l.next + 1, stored := kept + [Tracked(Entry(m, now, false), l.next)], evicted := evicted)
  }

  function PurgedOf(l: Lives, p: SignedMessage -> bool): Lives {
    l.(stored := Filter(Not(Lift(Purged(p))), l.stored), evicted := l.evicted + Filter(Lift(Purged(p)), l.stored))
  }

  datatype Pass = Pass(stored: seq<Tracked>, calledBack: seq<Tracked>, removed: seq<Tracked>)

  function PassOver(s: seq<Tracked>, ttl: int, clock: Clock): Pass {
    if s == [] then
      Pass([], [], [])
    else
      var r, t := PassOver(s[..|s| - 1], ttl, clock), s[|s| - 1];
      var age := clock(|s| - 1) - t.entry.created;
      if !t.entry.expired && age > ttl then
        Pass(r.stored + [t.(entry := t.entry.(expired := true))], r.calledBack + [t], r.removed)
      else if t.entry.expired && age > 2 * ttl then
        Pass(r.stored, r.calledBack, r.removed + [t])
      else
        Pass(r.stored + [t], r.calledBack, r.removed)
  }

  function LiveStep(policy: ReplacingPolicy, ttl: int, l: Lives, op: Op): Lives {
    match op
    case AddOp(m, now) => Added(policy, l, m, now)
    case PurgeOp(p) => PurgedOf(l, p)
    case ExpireOp(clock) =>
      var r := PassOver(l.stored, ttl, clock);
      l.(stored := r.stored, calledBack := l.calledBack + r.calledBack, removed := l.removed + r.removed)
  }

  function LiveRun(policy: ReplacingPolicy, ttl: int, ops: seq<Op>): Lives {
    if ops == [] then Lives(0, [], [], [], [])
    else LiveStep(policy, ttl, LiveRun(policy, ttl, ops[..|ops| - 1]), ops[|ops| - 1])
  }

  // ----- The numbers change nothing -----

  lemma EntriesConcat(s: seq<Tracked>, t: seq<Tracked>)
    ensures Entries(s + t) == Entries(s) + Entries(t)
  {
  }

  lemma {:induction false} EntriesOfFilter(p: Entry -> bool, s: seq<Tracked>)
    ensures Entries(Filter(Lift(p), s)) == Filter(p, Entries(s))
    ensures Entries(Filter(Not(Lift(p)), s)) == Filter(Not(p), Entries(s))
  {
    if s == [] {
    } else {
      var n := |s| - 1;
      EntriesOfFilter(p, s[..n]);
      assert Entries(s)[..n] == Entries(s[..n]);
      EntriesConcat(Filter(Lift(p), s[..n]), [s[n]]);
      EntriesConcat(Filter(Not(Lift(p)), s[..n]), [s[n]]);
      assert Entries([s[n]]) == [s[n].entry];
    }
  }

  lemma {:induction false} EntriesOfPass(s: seq<Tracked>, ttl: int, clock: Clock)
    ensures var r, q := PassOver(s, ttl, clock), SweepOf(Entries(s), ttl, clock);
            Entries(r.stored) == q.messages && Entries(r.calledBack) == q.calledBack && Entries(r.removed) == q.removed
  {
    if s == [] {
    } else {
      var n := |s| - 1;
      EntriesOfPass(s[..n], ttl, clock);
      assert Entries(s)[..n] == Entries(s[..n]);
    }
  }

  lemma AddedErases(policy: ReplacingPolicy, l: Lives, m: SignedMessage, now: int)
    ensures var after, r := Added(policy, l, m, now), AddTo(policy, Entries(l.stored), m, now);
            Entries(after.stored) == r.messages && Entries(after.evicted) == Entries(l.evicted) + r.evicted
  {
    var n := Reach(policy, Entries(l.stored), m);
    assert Entries(l.stored)[..n] == Entries(l.stored[..n]);
    EntriesOfFilter(Superseded(policy, m), l.stored[..n]);
    EntriesConcat(l.evicted, Filter(Lift(Superseded(policy, m)), l.stored[..n]));
  }

  /** Forgetting the numbers, the entries stored, evicted, called back and removed are those of the store. */
  lemma {:induction false} NumbersAreGhosts(policy: ReplacingPolicy, ttl: int, ops: seq<Op>)
    ensures var l, h := LiveRun(policy, ttl, ops), Run(policy, ttl, ops);
            && Entries(l.stored) == h.messages && Entries(l.evicted) == h.evicted
            && Entries(l.calledBack) == h.calledBack && Entries(l.removed) == h.removed
  {
    if ops == [] {
    } else {
      var front := ops[..|ops| - 1];
      var l := LiveRun(policy, ttl, front);
      NumbersAreGhosts(policy, ttl, front);
      match ops[|ops| - 1]
      case AddOp(m, now) => AddedErases(policy, l, m, now);
      case PurgeOp(p) =>
        EntriesOfFilter(Purged(p), l.stored);
        EntriesConcat(l.evicted, Filter(Lift(Purged(p)), l.stored));
      case ExpireOp(clock) =>
        var r := PassOver(l.stored, ttl, clock);
        EntriesOfPass(l.stored, ttl, clock);
        EntriesConcat(l.calledBack, r.calledBack);
        EntriesConcat(l.removed, r.removed);
    }
  }

  // ----- One life each -----

  function Has(id: nat): Tracked -> bool {
    (t: Tracked) => t.id == id
  }

  function HasMarked(id: nat): Tracked -> bool {
    (t: Tracked) => t.entry.expired && t.id == id
  }

  /** Every entry added is in exactly one place. It has been called back once if it is marked where it is
      stored or was evicted, or was removed; otherwise not at all. */
  ghost predicate LivesOnce(l: Lives, id: nat) {
    && Count(Has(id), l.stored) + Count(Has(id), l.evicted) + Count(Has(id), l.removed)
       == (if id < l.next then 1 else 0)
    && Count(Has(id), l.calledBack)
       == Count(HasMarked(id), l.stored) + Count(HasMarked(id), l.evicted) + Count(Has(id), l.removed)
  }

  lemma {:induction false} PassMoves(s: seq<Tracked>, ttl: int, clock: Clock, id: nat)
    ensures var r := PassOver(s, ttl, clock);
            Count(Has(id), r.stored) + Count(Has(id), r.removed) == Count(Has(id), s)
  {
    if s == [] {
    } else {
      var r, t := PassOver(s[..|s| - 1], ttl, clock), s[|s| - 1];
      PassMoves(s[..|s| - 1], ttl, clock, id);
      CountAppend(Has(id), r.stored, t);
      CountAppend(Has(id), r.stored, t.(entry := t.entry.(expired := true)));
      CountAppend(Has(id), r.removed, t);
    }
  }

  lemma {:induction false} PassCallsBack(s: seq<Tracked>, ttl: int, clock: Clock, id: nat)
    ensures var r := PassOver(s, ttl, clock);
            Count(HasMarked(id), r.stored) + Count(Has(id), r.removed)
            == Count(HasMarked(id), s) + Count(Has(id), r.calledBack)
  {
    if s == [] {
    } else {
      var r, t := PassOver(s[..|s| - 1], ttl, clock), s[|s| - 1];
      PassCallsBack(s[..|s| - 1], ttl, clock, id);
      CountAppend(HasMarked(id), r.stored, t);
      CountAppend(HasMarked(id), r.stored, t.(entry := t.entry.(expired := true)));
      CountAppend(Has(id), r.calledBack, t);
      CountAppend(Has(id), r.removed, t);
    }
  }

  lemma AddedMoves(policy: ReplacingPolicy, l: Lives, m: SignedMessage, now: int, p: Tracked -> bool)
    ensures var after, t := Added(policy, l, m, now), Tracked(Entry(m, now, false), l.next);
            Count(p, after.stored) + Count(p, after.evicted)
            == Count(p, l.stored) + Count(p, l.evicted) + if after.next > l.next && p(t) then 1 else 0
  {
    var n := Reach(policy, Entries(l.stored), m);
    var superseded, t := Lift(Superseded(policy, m)), Tracked(Entry(m, now, false), l.next);
    var front, kept := l.stored[..n], Filter(Not(superseded), l.stored[..n]);
    CountSplit(p, superseded, front);
    CountConcat(p, front, l.stored[n..]);
    CountConcat(p, kept, l.stored[n..]);
    CountConcat(p, l.evicted, Filter(superseded, front));
    CountAppend(p, kept, t);
    assert front + l.stored[n..] == l.stored;
    assert Count(p, []) == 0;
  }

  lemma PurgedMoves(l: Lives, q: SignedMessage -> bool, p: Tracked -> bool)
    ensures var after := PurgedOf(l, q);
            Count(p, after.stored) + Count(p, after.evicted) == Count(p, l.stored) + Count(p, l.evicted)
  {
    CountSplit(p, Lift(Purged(q)), l.stored);
    CountConcat(p, l.evicted, Filter(Lift(Purged(q)), l.stored));
  }

  lemma StepLivesOnce(policy: ReplacingPolicy, ttl: int, l: Lives, op: Op, id: nat)
    requires LivesOnce(l, id)
    ensures LivesOnce(LiveStep(policy, ttl, l, op), id)
  {
    match op
    case AddOp(m, now) =>
      AddedMoves(policy, l, m, now, Has(id));
      AddedMoves(policy, l, m, now, HasMarked(id));
    case PurgeOp(q) =>
      PurgedMoves(l, q, Has(id));
      PurgedMoves(l, q, HasMarked(id));
    case ExpireOp(clock) =>
      var r := PassOver(l.stored, ttl, clock);
      PassMoves(l.stored, ttl, clock, id);
      PassCallsBack(l.stored, ttl, clock, id);
      CountConcat(Has(id), l.calledBack, r.calledBack);
      CountConcat(Has(id), l.removed, r.removed);
  }

  lemma {:induction false} EveryEntryLivesOnce(policy: ReplacingPolicy, ttl: int, ops: seq<Op>, id: nat)
    ensures LivesOnce(LiveRun(policy, ttl, ops), id)
  {
    if ops == [] {
    } else {
      var front := ops[..|ops| - 1];
      EveryEntryLivesOnce(policy, ttl, front, id);
      StepLivesOnce(policy, ttl, LiveRun(policy, ttl, front), ops[|ops| - 1], id);
    }
  }

  lemma {:induction false} MarkedAreSome(id: nat, s: seq<Tracked>)
    ensures Count(HasMarked(id), s) <= Count(Has(id), s)
  {
    if s == [] {
    } else {
      MarkedAreSome(id, s[..|s| - 1]);
    }
  }

  /** In every run each single entry is called back at most once, and if it has been removed then exactly
      once: the callback precedes the removal. */
  lemma CalledBackOncePerEntry(policy: ReplacingPolicy, ttl: int, ops: seq<Op>, id: nat)
    ensures var l := LiveRun(policy, ttl, ops);
            Count(Has(id), l.removed) <= Count(Has(id), l.calledBack) <= 1
  {
    var l := LiveRun(policy, ttl, ops);
    EveryEntryLivesOnce(policy, ttl, ops, id);
    MarkedAreSome(id, l.stored);
    MarkedAreSome(id, l.evicted);
  }
}
