/** Whole runs of a message store: every operation in any order, at any clock readings. */
module StoreLifecycle {
  import opened Sequences
  import opened Messages
  import opened Policy
  import opened MessageStores
  import opened StoreConvergence

  datatype Op =
    | AddOp(message: SignedMessage, now: int)
    | PurgeOp(shouldBePurged: SignedMessage -> bool)
    | ExpireOp(clock: Clock)

  /** A store together with the log of what happened to its entries. */
  datatype History = History(
    messages: seq<Entry>, expiredCount: int,
    added: seq<Entry>, evicted: seq<Entry>, calledBack: seq<Entry>, removed: seq<Entry>)
  {
    function Size(): int {
      |messages| - expiredCount
    }
  }

  const CREATED := History([], 0, [], [], [], [])

  function Step(policy: ReplacingPolicy, ttl: int, h: History, op: Op): History {
    match op
    case AddOp(m, now) =>
      var r := AddTo(policy, h.messages, m, now);
      h.(messages := r.messages, evicted := h.evicted + r.evicted,
         added := if r.added then h.added + [Entry(m, now, false)] else h.added)
    case PurgeOp(p) =>
      h.(messages := Filter(Not(Purged(p)), h.messages), evicted := h.evicted + Filter(Purged(p), h.messages))
    case ExpireOp(clock) =>
      var r := SweepOf(h.messages, ttl, clock);
      h.(messages := r.messages, calledBack := h.calledBack + r.calledBack, removed := h.removed + r.removed,
         expiredCount := h.expiredCount + |r.calledBack| - |r.removed|)
  }

  function Run(policy: ReplacingPolicy, ttl: int, ops: seq<Op>): History {
    if ops == [] then CREATED else Step(policy, ttl, Run(policy, ttl, ops[..|ops| - 1]), ops[|ops| - 1])
  }

  /** The entry added as `id`. An entry is followed through its life by its message and its creation
      time; only its expiry mark may change. */
  function Is(id: Entry): Entry -> bool {
    (e: Entry) => e.(expired := false) == id
  }

  function IsMarked(id: Entry): Entry -> bool {
    (e: Entry) => e.expired && e.(expired := false) == id
  }

  /** Nothing is lost and nothing duplicated: what was added is stored, was evicted, or was removed. */
  ghost predicate Conserved(h: History, id: Entry) {
    Count(Is(id), h.added) == Count(Is(id), h.messages) + Count(Is(id), h.evicted) + Count(Is(id), h.removed)
  }

  /** The expiry callback has seen exactly what is stored as expired, was evicted while expired, or
      was removed: so it sees an entry at most as often as it was added, and before it is removed. */
  ghost predicate CalledBackOnce(h: History, id: Entry) {
    Count(Is(id), h.calledBack) ==
    Count(IsMarked(id), h.messages) + Count(IsMarked(id), h.evicted) + Count(Is(id), h.removed)
  }

  ghost predicate Counted(h: History) {
    h.expiredCount == Count(EXPIRED, h.messages) + Count(EXPIRED, h.evicted)
  }

  lemma {:induction false} SweepConserves(s: seq<Entry>, ttl: int, clock: Clock, id: Entry)
    ensures var r := SweepOf(s, ttl, clock);
            Count(Is(id), s) == Count(Is(id), r.messages) + Count(Is(id), r.removed)
  {
    if s == [] {
    } else {
      SweepConserves(s[..|s| - 1], ttl, clock, id);
    }
  }

  lemma {:induction false} SweepCallsBack(s: seq<Entry>, ttl: int, clock: Clock, id: Entry)
    ensures var r := SweepOf(s, ttl, clock);
            Count(IsMarked(id), r.messages) + Count(Is(id), r.removed) ==
            Count(IsMarked(id), s) + Count(Is(id), r.calledBack)
  {
    if s == [] {
    } else {
      SweepCallsBack(s[..|s| - 1], ttl, clock, id);
      var r, e := SweepOf(s[..|s| - 1], ttl, clock), s[|s| - 1];
      CountAppend(IsMarked(id), r.messages, e);
      CountAppend(IsMarked(id), r.messages, e.(expired := true));
      CountAppend(Is(id), r.calledBack, e);
      CountAppend(Is(id), r.removed, e);
    }
  }

  lemma {:induction false} SweepCounts(s: seq<Entry>, ttl: int, clock: Clock)
    ensures var r := SweepOf(s, ttl, clock);
            Count(EXPIRED, r.messages) + |r.removed| == Count(EXPIRED, s) + |r.calledBack|
  {
    if s == [] {
    } else {
      SweepCounts(s[..|s| - 1], ttl, clock);
    }
  }

  lemma AddConserves(policy: ReplacingPolicy, s: seq<Entry>, m: SignedMessage, now: int, p: Entry -> bool)
    ensures var r := AddTo(policy, s, m, now);
            Count(p, r.messages) + Count(p, r.evicted) ==
            Count(p, s) + if r.added then Count(p, [Entry(m, now, false)]) else 0
  {
    var n := Reach(policy, s, m);
    var front, tail := s[..n], if n < |s| then s[n..] else [Entry(m, now, false)];
    CountSplit(p, Superseded(policy, m), front);
    CountConcat(p, Filter(Not(Superseded(policy, m)), front), tail);
    CountConcat(p, front, s[n..]);
    assert front + s[n..] == s;
  }

  lemma EvictionConserves(h: History, gone: seq<Entry>, id: Entry)
    ensures Count(Is(id), h.evicted + gone) == Count(Is(id), h.evicted) + Count(Is(id), gone)
    ensures Count(IsMarked(id), h.evicted + gone) == Count(IsMarked(id), h.evicted) + Count(IsMarked(id), gone)
    ensures Count(EXPIRED, h.evicted + gone) == Count(EXPIRED, h.evicted) + Count(EXPIRED, gone)
  {
    CountConcat(Is(id), h.evicted, gone);
    CountConcat(IsMarked(id), h.evicted, gone);
    CountConcat(EXPIRED, h.evicted, gone);
  }

  lemma StepConserves(policy: ReplacingPolicy, ttl: int, h: History, op: Op, id: Entry)
    requires Conserved(h, id) && CalledBackOnce(h, id) && Counted(h)
    ensures var after := Step(policy, ttl, h, op);
            Conserved(after, id) && CalledBackOnce(after, id) && Counted(after)
  {
    match op
    case AddOp(m, now) =>
      var r := AddTo(policy, h.messages, m, now);
      EvictionConserves(h, r.evicted, id);
      AddConserves(policy, h.messages, m, now, Is(id));
      AddConserves(policy, h.messages, m, now, IsMarked(id));
      AddConserves(policy, h.messages, m, now, EXPIRED);
      CountConcat(Is(id), h.added, [Entry(m, now, false)]);
    case PurgeOp(p) =>
      EvictionConserves(h, Filter(Purged(p), h.messages), id);
      CountSplit(Is(id), Purged(p), h.messages);
      CountSplit(IsMarked(id), Purged(p), h.messages);
      CountSplit(EXPIRED, Purged(p), h.messages);
    case ExpireOp(clock) =>
      var r := SweepOf(h.messages, ttl, clock);
      SweepConserves(h.messages, ttl, clock, id);
      SweepCallsBack(h.messages, ttl, clock, id);
      SweepCounts(h.messages, ttl, clock);
      CountConcat(Is(id), h.calledBack, r.calledBack);
      CountConcat(Is(id), h.removed, r.removed);
  }

  /** The life-cycle laws hold after every run, for every policy. */
  lemma {:induction false} LifecycleLaws(policy: ReplacingPolicy, ttl: int, ops: seq<Op>, id: Entry)
    ensures var h := Run(policy, ttl, ops);
            Conserved(h, id) && CalledBackOnce(h, id) && Counted(h)
  {
    if ops == [] {
    } else {
      var front := ops[..|ops| - 1];
      LifecycleLaws(policy, ttl, front, id);
      StepConserves(policy, ttl, Run(policy, ttl, front), ops[|ops| - 1], id);
    }
  }

  /** An entry is called back at most as often as it was added, and at least as often as removed. */
  lemma CallbackPrecedesRemoval(policy: ReplacingPolicy, ttl: int, ops: seq<Op>, id: Entry)
    ensures var h := Run(policy, ttl, ops);
            Count(Is(id), h.removed) <= Count(Is(id), h.calledBack) <= Count(Is(id), h.added)
  {
    var h := Run(policy, ttl, ops);
    LifecycleLaws(policy, ttl, ops, id);
    CountBounds(IsMarked(id), Is(id), h.messages);
    CountBounds(IsMarked(id), Is(id), h.evicted);
  }

  /** `Size` is the number of unexpired entries exactly when no entry was evicted while expired; it
      falls short by one for every such eviction. */
  lemma SizeIsUnexpiredCount(policy: ReplacingPolicy, ttl: int, ops: seq<Op>)
    ensures var h := Run(policy, ttl, ops);
            && h.Size() == Count(Not(EXPIRED), h.messages) - Count(EXPIRED, h.evicted)
            && (h.Size() == Count(Not(EXPIRED), h.messages) <==> forall e | e in h.evicted :: !e.expired)
  {
    var h := Run(policy, ttl, ops);
    LifecycleLaws(policy, ttl, ops, Entry(SignedMessage(OtherContent, "", Undefined, None), 0, false));
    CountBounds(EXPIRED, EXPIRED, h.messages);
    CountBounds(EXPIRED, EXPIRED, h.evicted);
  }

  /** Purging all messages after any run leaves `Size` at or below zero: below it exactly if some
      entry has ever been evicted, or is purged now, while marked as expired. */
  lemma SizeAfterPurgingAll(policy: ReplacingPolicy, ttl: int, ops: seq<Op>, all: SignedMessage -> bool)
    requires forall m :: all(m)
    ensures var h, after := Run(policy, ttl, ops), Run(policy, ttl, ops + [PurgeOp(all)]);
            && after.messages == []
            && (after.Size() < 0 <==> exists e | e in h.evicted + h.messages :: e.expired)
            && after.Size() <= 0
  {
    var h, after := Run(policy, ttl, ops), Run(policy, ttl, ops + [PurgeOp(all)]);
    assert (ops + [PurgeOp(all)])[..|ops|] == ops;
    assert after == Step(policy, ttl, h, PurgeOp(all));
    forall e | e in h.messages
      ensures Purged(all)(e)
    {
      assert all(e.data);
    }
    FilterNone(Not(Purged(all)), h.messages);
    FilterMembers(Purged(all), h.messages);
    SizeIsUnexpiredCount(policy, ttl, ops + [PurgeOp(all)]);
    CountBounds(EXPIRED, EXPIRED, after.evicted);
  }

  ghost predicate SizeIsExact(h: History) {
    h.Size() == Count(Not(EXPIRED), h.messages)
  }

  lemma CountOfComplement(s: seq<Entry>)
    ensures Count(Not(EXPIRED), s) == |s| - Count(EXPIRED, s)
    ensures Count(EXPIRED, s) == 0 <==> forall e | e in s :: !e.expired
  {
    CountBounds(EXPIRED, EXPIRED, s);
  }

  /** An `Add` keeps an exact `Size` exact precisely if it supersedes no entry that is marked as expired;
      each such entry makes `Size` one too small. */
  lemma AddKeepsSizeExact(policy: ReplacingPolicy, ttl: int, h: History, m: SignedMessage, now: int)
    requires SizeIsExact(h)
    ensures SizeIsExact(Step(policy, ttl, h, AddOp(m, now))) <==>
            forall e | e in h.messages[..Reach(policy, h.messages, m)] && e.expired :: policy(m, e.data) != Invalidates
  {
    var r := AddTo(policy, h.messages, m, now);
    AddConserves(policy, h.messages, m, now, EXPIRED);
    CountOfComplement(h.messages);
    CountOfComplement(r.messages);
    CountOfComplement(r.evicted);
    FilterMembers(Superseded(policy, m), h.messages[..Reach(policy, h.messages, m)]);
  }

  /** The same for `Purge`: precisely if it purges no entry that is marked as expired. */
  lemma PurgeKeepsSizeExact(policy: ReplacingPolicy, ttl: int, h: History, p: SignedMessage -> bool)
    requires SizeIsExact(h)
    ensures SizeIsExact(Step(policy, ttl, h, PurgeOp(p))) <==> forall e | e in h.messages && e.expired :: !p(e.data)
  {
    var gone := Filter(Purged(p), h.messages);
    CountSplit(EXPIRED, Purged(p), h.messages);
    CountOfComplement(h.messages);
    CountOfComplement(Filter(Not(Purged(p)), h.messages));
    CountOfComplement(gone);
    FilterMembers(Purged(p), h.messages);
  }

  /** An expiry pass keeps an exact `Size` exact. */
  lemma ExpiryKeepsSizeExact(policy: ReplacingPolicy, ttl: int, h: History, clock: Clock)
    requires SizeIsExact(h)
    ensures SizeIsExact(Step(policy, ttl, h, ExpireOp(clock)))
  {
    SweepCounts(h.messages, ttl, clock);
    CountOfComplement(h.messages);
    CountOfComplement(SweepOf(h.messages, ttl, clock).messages);
  }

  // ----- A negative `Size`, without any purge -----

  function Standing(now: int): Clock {
    (j: nat) => now
  }

  function BlockMessage(x: uint64): SignedMessage {
    SignedMessage(DataMsg(x, ""), "", ChanAndOrg, None)
  }

  /** A block is added, and the next pass comes just too late for it. */
  function AddThenExpire(ttl: int, x: uint64, at: int): seq<Op> {
    [AddOp(BlockMessage(x), at), ExpireOp(Standing(at + ttl + 1))]
  }

  lemma RunNext(policy: ReplacingPolicy, ttl: int, ops: seq<Op>, op: Op)
    ensures Run(policy, ttl, ops + [op]) == Step(policy, ttl, Run(policy, ttl, ops), op)
  {
    assert (ops + [op])[..|ops|] == ops;
  }

  /** One pass at `now` over a single entry. */
  lemma SweptOnce(ttl: int, e: Entry, now: int)
    ensures SweepOf([e], ttl, Standing(now)) ==
            if e.expired && now - e.created > 2 * ttl then Sweep([], [], [e])
            else if !e.expired && now - e.created > ttl then Sweep([e.(expired := true)], [e], [])
            else Sweep([e], [], [])
  {
    assert [e][..0] == [];
    assert SweepOf([], ttl, Standing(now)) == Sweep([], [], []);
  }

  /** With a window of 0 a block pushes out any expired one with a smaller number. */
  lemma BlockIsReplaced(s: seq<Entry>, x: uint64, at: int)
    requires |s| <= 1 && forall e | e in s :: e.data.content.DataMsg? && e.data.content.seqNum < x
    ensures AddTo(Comparator(0), s, BlockMessage(x), at).messages == [Entry(BlockMessage(x), at, false)]
  {
    AcceptedAdd(Comparator(0), s, BlockMessage(x), at);
    FilterNone(Not(Superseded(Comparator(0), BlockMessage(x))), s);
  }

  /** The store holds one block, numbered `x` and marked as expired, and has evicted all before it. */
  ghost predicate HoldsExpired(h: History, x: uint64) {
    && |h.messages| == 1 && h.messages[0].expired && h.expiredCount == x
    && h.messages[0].data.content.DataMsg? && h.messages[0].data.content.seqNum == x
  }

  lemma AddToExpired(ttl: int, h: History, x: uint64, at: int)
    requires x >= 1 && if x == 1 then h == CREATED else HoldsExpired(h, x - 1)
    ensures var added := Step(Comparator(0), ttl, h, AddOp(BlockMessage(x), at));
            added.messages == [Entry(BlockMessage(x), at, false)] && added.expiredCount == x - 1
  {
    BlockIsReplaced(h.messages, x, at);
  }

  lemma PassOverOne(ttl: int, h: History, x: uint64, at: int)
    requires ttl >= 0 && x >= 1 && h.messages == [Entry(BlockMessage(x), at, false)] && h.expiredCount == x - 1
    ensures HoldsExpired(Step(Comparator(0), ttl, h, ExpireOp(Standing(at + ttl + 1))), x)
  {
    SweptOnce(ttl, Entry(BlockMessage(x), at, false), at + ttl + 1);
  }

  lemma AddThenPass(ttl: int, h: History, x: uint64, at: int)
    requires ttl >= 0 && x >= 1 && if x == 1 then h == CREATED else HoldsExpired(h, x - 1)
    ensures var added := Step(Comparator(0), ttl, h, AddOp(BlockMessage(x), at));
            HoldsExpired(Step(Comparator(0), ttl, added, ExpireOp(Standing(at + ttl + 1))), x)
  {
    AddToExpired(ttl, h, x, at);
    PassOverOne(ttl, Step(Comparator(0), ttl, h, AddOp(BlockMessage(x), at)), x, at);
  }

  /** Adding the next block and running a pass after any run that left the store so. */
  lemma AddedThenExpired(ttl: int, ops: seq<Op>, x: uint64, at: int)
    requires ttl >= 0 && x >= 1
    requires var h := Run(Comparator(0), ttl, ops); if x == 1 then h == CREATED else HoldsExpired(h, x - 1)
    ensures HoldsExpired(Run(Comparator(0), ttl, ops + AddThenExpire(ttl, x, at)), x)
  {
    var policy, add, pass := Comparator(0), AddOp(BlockMessage(x), at), ExpireOp(Standing(at + ttl + 1));
    AddThenPass(ttl, Run(policy, ttl, ops), x, at);
    RunNext(policy, ttl, ops, add);
    RunNext(policy, ttl, ops + [add], pass);
    assert ops + AddThenExpire(ttl, x, at) == ops + [add] + [pass];
  }

  lemma AddAfterExpired(ttl: int, h: History, x: uint64, at: int)
    requires x >= 1 && HoldsExpired(h, x - 1)
    ensures var after := Step(Comparator(0), ttl, h, AddOp(BlockMessage(x), at));
            |after.messages| == 1 && after.Size() == 2 - x
  {
    BlockIsReplaced(h.messages, x, at);
  }

  /** Three blocks and two expiry passes are enough: one entry is stored, and `Size` is -1. */
  lemma SizeCanBeNegative(ttl: int)
    requires ttl >= 0
    ensures var ops := AddThenExpire(ttl, 1, 0) + AddThenExpire(ttl, 2, ttl + 1);
            var h := Run(Comparator(0), ttl, ops + [AddOp(BlockMessage(3), 2 * ttl + 2)]);
            |h.messages| == 1 && h.Size() == -1
  {
    var policy, at := Comparator(0), 2 * ttl + 2;
    var ops := AddThenExpire(ttl, 1, 0) + AddThenExpire(ttl, 2, ttl + 1);
    AddedThenExpired(ttl, [], 1, 0);
    assert [] + AddThenExpire(ttl, 1, 0) == AddThenExpire(ttl, 1, 0);
    AddedThenExpired(ttl, AddThenExpire(ttl, 1, 0), 2, ttl + 1);
    RunNext(policy, ttl, ops, AddOp(BlockMessage(3), at));
    AddAfterExpired(ttl, Run(policy, ttl, ops), 3, at);
  }

  // ----- Compatibility over whole runs -----

  /** Whatever a pass leaves was there before, up to its mark. */
  lemma {:induction false} SweptFrom(s: seq<Entry>, ttl: int, clock: Clock)
    ensures forall e | e in SweepOf(s, ttl, clock).messages :: exists f | f in s :: e == f || e == f.(expired := true)
  {
    if s == [] {
    } else {
      SweptFrom(s[..|s| - 1], ttl, clock);
    }
  }

  lemma {:induction false} SweepIsSubsequence(s: seq<Entry>, ttl: int, clock: Clock, storageSize: int)
    requires Compatible(storageSize, s)
    ensures Compatible(storageSize, SweepOf(s, ttl, clock).messages)
  {
    if s == [] {
    } else {
      var front, last := s[..|s| - 1], s[|s| - 1];
      SweepIsSubsequence(front, ttl, clock, storageSize);
      SweptFrom(front, ttl, clock);
      var left := SweepOf(front, ttl, clock).messages;
      forall i | 0 <= i < |left|
        ensures Harmless(storageSize)(left[i], last) && Harmless(storageSize)(left[i], last.(expired := true))
      {
        assert left[i] in left;
        var f :| f in front && (left[i] == f || left[i] == f.(expired := true));
        var k :| 0 <= k < |front| && front[k] == f;
        assert Harmless(storageSize)(s[k], last);
      }
    }
  }

  lemma {:induction false} CalledBackFrom(s: seq<Entry>, ttl: int, clock: Clock)
    ensures forall g | g in SweepOf(s, ttl, clock).calledBack :: g in s
  {
    if s == [] {
    } else {
      CalledBackFrom(s[..|s| - 1], ttl, clock);
      assert s == s[..|s| - 1] + [s[|s| - 1]];
    }
  }

  /** An entry that comes out of a pass unexpired is not one of those called back. */
  lemma {:induction false} SweepSeparates(s: seq<Entry>, ttl: int, clock: Clock, e: Entry, g: Entry)
    requires e in SweepOf(s, ttl, clock).messages && !e.expired
    requires g in SweepOf(s, ttl, clock).calledBack
    ensures exists i, j | 0 <= i < |s| && 0 <= j < |s| :: i != j && s[i] == e && s[j] == g
  {
    var front, last := s[..|s| - 1], s[|s| - 1];
    var r := SweepOf(front, ttl, clock);
    SweptFrom(front, ttl, clock);
    if e in r.messages && g in r.calledBack {
      SweepSeparates(front, ttl, clock, e, g);
      var i, j :| 0 <= i < |front| && 0 <= j < |front| && i != j && front[i] == e && front[j] == g;
      assert s[i] == e && s[j] == g;
    } else if e in r.messages {
      var i :| 0 <= i < |front| && front[i] == e;
      assert s[i] == e && s[|s| - 1] == g;
    } else {
      CalledBackFrom(front, ttl, clock);
      var j :| 0 <= j < |front| && front[j] == g;
      assert s[|s| - 1] == e && s[j] == g;
    }
  }

  /** In every run with the gossip comparator, all entries tolerate each other: one per peer and kind,
      one per identity, and blocks within one window. */
  lemma {:induction false} RunsAreCompatible(storageSize: int, ttl: int, ops: seq<Op>)
    ensures Compatible(storageSize, Run(Comparator(storageSize), ttl, ops).messages)
  {
    if ops == [] {
    } else {
      var front, policy := ops[..|ops| - 1], Comparator(storageSize);
      RunsAreCompatible(storageSize, ttl, front);
      var h := Run(policy, ttl, front);
      match ops[|ops| - 1]
      case AddOp(m, now) => AddKeepsCompatible(storageSize, h.messages, m, now);
      case PurgeOp(p) => FilterPairwise(Harmless(storageSize), Not(Purged(p)), h.messages);
      case ExpireOp(clock) => SweepIsSubsequence(h.messages, ttl, clock, storageSize);
    }
  }

  /** In every run of a block store with window k, at most k + 1 blocks are stored at any time. */
  lemma BlocksFitWindow(storageSize: int, ttl: int, ops: seq<Op>)
    ensures |Filter(IS_BLOCK, Run(Comparator(storageSize), ttl, ops).messages)| <= Window(storageSize) + 1
  {
    RunsAreCompatible(storageSize, ttl, ops);
    WindowBoundsBlocks(storageSize, Run(Comparator(storageSize), ttl, ops).messages);
  }

  // ----- What an expiry pass does to each entry -----

  /** The entry at position `j` has just outlived its time when the pass gets to it. */
  predicate IsOld(s: seq<Entry>, ttl: int, clock: Clock, j: nat)
    requires j < |s|
  {
    !s[j].expired && clock(j) - s[j].created > ttl
  }

  /** The entry at position `j` was marked by an earlier pass and is now more than twice as old as allowed. */
  predicate IsOver(s: seq<Entry>, ttl: int, clock: Clock, j: nat)
    requires j < |s|
  {
    s[j].expired && clock(j) - s[j].created > 2 * ttl
  }

  function Marked(s: seq<Entry>, ttl: int, clock: Clock, j: nat): Entry
    requires j < |s|
  {
    if IsOld(s, ttl, clock, j) then s[j].(expired := true) else s[j]
  }

  lemma SameInFront(s: seq<Entry>, ttl: int, clock: Clock)
    requires s != []
    ensures var front := s[..|s| - 1];
            forall j | 0 <= j < |front| ::
              && front[j] == s[j] && Marked(front, ttl, clock, j) == Marked(s, ttl, clock, j)
              && (IsOld(front, ttl, clock, j) <==> IsOld(s, ttl, clock, j))
              && (IsOver(front, ttl, clock, j) <==> IsOver(s, ttl, clock, j))
  {
  }

  lemma {:induction false} CalledBackExactly(s: seq<Entry>, ttl: int, clock: Clock, e: Entry)
    ensures e in SweepOf(s, ttl, clock).calledBack <==> exists j | 0 <= j < |s| :: s[j] == e && IsOld(s, ttl, clock, j)
  {
    if s == [] {
    } else {
      CalledBackExactly(s[..|s| - 1], ttl, clock, e);
      SameInFront(s, ttl, clock);
    }
  }

  lemma {:induction false} RemovedExactly(s: seq<Entry>, ttl: int, clock: Clock, e: Entry)
    ensures e in SweepOf(s, ttl, clock).removed <==> exists j | 0 <= j < |s| :: s[j] == e && IsOver(s, ttl, clock, j)
  {
    if s == [] {
    } else {
      RemovedExactly(s[..|s| - 1], ttl, clock, e);
      SameInFront(s, ttl, clock);
    }
  }

  lemma LeftLast(s: seq<Entry>, ttl: int, clock: Clock)
    requires s != []
    ensures var n := |s| - 1;
            SweepOf(s, ttl, clock).messages
            == SweepOf(s[..n], ttl, clock).messages
               + if IsOver(s, ttl, clock, n) then [] else [Marked(s, ttl, clock, n)]
  {
  }

  lemma {:induction false} LeftExactly(s: seq<Entry>, ttl: int, clock: Clock, e: Entry)
    ensures e in SweepOf(s, ttl, clock).messages <==>
            exists j | 0 <= j < |s| :: !IsOver(s, ttl, clock, j) && e == Marked(s, ttl, clock, j)
  {
    if s == [] {
    } else {
      var front := s[..|s| - 1];
      LeftExactly(front, ttl, clock, e);
      SameInFront(s, ttl, clock);
      LeftLast(s, ttl, clock);
      if j :| 0 <= j < |front| && !IsOver(front, ttl, clock, j) && e == Marked(front, ttl, clock, j) {
        assert front[j] == s[j] && !IsOver(s, ttl, clock, j) && e == Marked(s, ttl, clock, j);
      }
      if j :| 0 <= j < |s| && !IsOver(s, ttl, clock, j) && e == Marked(s, ttl, clock, j) {
        assert j < |front| ==> front[j] == s[j] && e == Marked(front, ttl, clock, j);
      }
    }
  }

  /** Exactly the old entries are called back, exactly those that are over are removed, and what is left are the
      old ones, marked, and the rest as they were. */
  lemma SweepExactly(s: seq<Entry>, ttl: int, clock: Clock, e: Entry)
    ensures var r := SweepOf(s, ttl, clock);
            && (e in r.calledBack <==> exists j | 0 <= j < |s| :: s[j] == e && IsOld(s, ttl, clock, j))
            && (e in r.removed <==> exists j | 0 <= j < |s| :: s[j] == e && IsOver(s, ttl, clock, j))
            && (e in r.messages <==>
                  exists j | 0 <= j < |s| :: !IsOver(s, ttl, clock, j) && e == Marked(s, ttl, clock, j))
  {
    CalledBackExactly(s, ttl, clock, e);
    RemovedExactly(s, ttl, clock, e);
    LeftExactly(s, ttl, clock, e);
  }

  /** The store's own `Size`, for a store in the state that a run has left: what it says of the unexpired entries. */
  lemma SizeOfStore(store: MessageStore, policy: ReplacingPolicy, ttl: int, ops: seq<Op>)
    requires store.messages == Run(policy, ttl, ops).messages
    requires store.expiredCount == Run(policy, ttl, ops).expiredCount
    ensures store.Size() == Run(policy, ttl, ops).Size()
    ensures store.Size() == Count(Not(EXPIRED), store.messages) - Count(EXPIRED, Run(policy, ttl, ops).evicted)
  {
    SizeIsUnexpiredCount(policy, ttl, ops);
  }
}
