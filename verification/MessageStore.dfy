/** The message store of gossip/msg.go: an ordered list of messages pruned by a replacement policy,
    by a caller's predicate, and by age. */
module MessageStores {
  import opened Sequences
  import opened Messages
  import opened Policy

  datatype Entry = Entry(data: SignedMessage, created: int, expired: bool)

  /** Readings of a clock: `clock(j)` is what the j-th reading of one pass returns. No order between
      the readings is assumed. */
  type Clock = nat -> int

  function Datas(s: seq<Entry>): (r: seq<SignedMessage>)
    ensures |r| == |s| && forall i | 0 <= i < |s| :: r[i] == s[i].data
  {
    seq(|s|, i requires 0 <= i < |s| => s[i].data)
  }

  predicate Accepts(policy: ReplacingPolicy, s: seq<Entry>, m: SignedMessage) {
    forall e | e in s :: policy(m, e.data) != Invalidated
  }

  lemma AcceptsNext(policy: ReplacingPolicy, s: seq<Entry>, m: SignedMessage, n: nat)
    requires n < |s| && Accepts(policy, s[..n], m)
    ensures Accepts(policy, s[..n + 1], m) <==> policy(m, s[n].data) != Invalidated
  {
    assert s[..n + 1] == s[..n] + [s[n]];
  }

  /** The number of entries in front of the first one that invalidates `m`. */
  function Reach(policy: ReplacingPolicy, s: seq<Entry>, m: SignedMessage): (n: nat)
    ensures n <= |s|
    ensures Accepts(policy, s[..n], m)
    ensures n < |s| ==> policy(m, s[n].data) == Invalidated
  {
    if s == [] || policy(m, s[0].data) == Invalidated then
      0
    else
      var n := Reach(policy, s[1..], m);
      assert s[..n + 1] == [s[0]] + s[1..][..n];
      n + 1
  }

  lemma ReachIs(policy: ReplacingPolicy, s: seq<Entry>, m: SignedMessage, n: nat)
    requires n <= |s| && Accepts(policy, s[..n], m)
    requires n < |s| ==> policy(m, s[n].data) == Invalidated
    ensures Reach(policy, s, m) == n
  {
  }

  function Superseded(policy: ReplacingPolicy, m: SignedMessage): Entry -> bool {
    (e: Entry) => policy(m, e.data) == Invalidates
  }

  datatype Addition = Addition(added: bool, messages: seq<Entry>, evicted: seq<Entry>)

  /** What `Add` does: entries are examined in order up to the first that invalidates the message,
      superseded ones among them leave, and the message is appended if none invalidated it. */
  function AddTo(policy: ReplacingPolicy, s: seq<Entry>, m: SignedMessage, now: int): Addition {
    var n := Reach(policy, s, m);
    var superseded := Superseded(policy, m);
    var kept := Filter(Not(superseded), s[..n]);
    var evicted := Filter(superseded, s[..n]);
    if n < |s| then
      Addition(false, kept + s[n..], evicted)
    else
      Addition(true, kept + [Entry(m, now, false)], evicted)
  }

  /** `Add` has examined the first `j` entries of `s` without meeting one that invalidates `m`. */
  ghost predicate Scanned(policy: ReplacingPolicy, m: SignedMessage, s: seq<Entry>, j: int,
                          left: seq<Entry>, i: int, evicted: seq<Entry>)
  {
    Deleting(Superseded(policy, m), s, j, left, i, evicted) && Accepts(policy, s[..j], m)
  }

  lemma ScanStep(policy: ReplacingPolicy, m: SignedMessage, s: seq<Entry>, j: int,
                 left: seq<Entry>, i: int, evicted: seq<Entry>)
    requires Scanned(policy, m, s, j, left, i, evicted) && j < |s|
    ensures i < |left| && left[i] == s[j]
    ensures policy(m, s[j].data) == NoAction ==> Scanned(policy, m, s, j + 1, left, i + 1, evicted)
    ensures policy(m, s[j].data) == Invalidates ==>
              Scanned(policy, m, s, j + 1, left[..i] + left[i + 1..], i, evicted + [s[j]])
  {
    DeletingStep(Superseded(policy, m), s, j, left, i, evicted);
    AcceptsNext(policy, s, m, j);
  }

  lemma ScanEnd(policy: ReplacingPolicy, m: SignedMessage, s: seq<Entry>, j: int,
                left: seq<Entry>, i: int, evicted: seq<Entry>, now: int)
    requires Scanned(policy, m, s, j, left, i, evicted)
    ensures j == |s| ==>
              AddTo(policy, s, m, now) == Addition(true, left + [Entry(m, now, false)], evicted)
    ensures j < |s| && policy(m, s[j].data) == Invalidated ==>
              AddTo(policy, s, m, now) == Addition(false, left, evicted)
  {
    if j == |s| || policy(m, s[j].data) == Invalidated {
      ReachIs(policy, s, m, j);
    }
  }

  function Purged(shouldBePurged: SignedMessage -> bool): Entry -> bool {
    (e: Entry) => shouldBePurged(e.data)
  }

  const EXPIRED: Entry -> bool := (e: Entry) => e.expired

  /** Outcome of an expiry pass: the entries left, the messages handed to the expiry callback, and
      the entries dropped, each in store order. */
  datatype Sweep = Sweep(messages: seq<Entry>, calledBack: seq<Entry>, removed: seq<Entry>)

  function SweepOf(s: seq<Entry>, ttl: int, clock: Clock): (r: Sweep)
    ensures |r.messages| + |r.removed| == |s|
  {
    if s == [] then
      Sweep([], [], [])
    else
      var r := SweepOf(s[..|s| - 1], ttl, clock);
      var e := s[|s| - 1];
      var age := clock(|s| - 1) - e.created;
      if !e.expired && age > ttl then
        Sweep(r.messages + [e.(expired := true)], r.calledBack + [e], r.removed)
      else if e.expired && age > 2 * ttl then
        Sweep(r.messages, r.calledBack, r.removed + [e])
      else
        Sweep(r.messages + [e], r.calledBack, r.removed)
  }

  /** The expiry pass has examined the first `j` entries of `s`. */
  ghost predicate Sweeping(s: seq<Entry>, ttl: int, clock: Clock, j: int,
                           left: seq<Entry>, i: int, calledBack: seq<Entry>, removed: seq<Entry>)
  {
    && 0 <= j <= |s|
    && var r := SweepOf(s[..j], ttl, clock);
    && left == r.messages + s[j..] && i == |r.messages|
    && calledBack == r.calledBack && removed == r.removed
  }

  lemma SweepingStep(s: seq<Entry>, ttl: int, clock: Clock, j: int,
                     left: seq<Entry>, i: int, calledBack: seq<Entry>, removed: seq<Entry>)
    requires Sweeping(s, ttl, clock, j, left, i, calledBack, removed) && j < |s|
    ensures i < |left| && left[i] == s[j]
    ensures var e, age := s[j], clock(j) - s[j].created;
            if !e.expired && age > ttl then
              Sweeping(s, ttl, clock, j + 1, left[i := e.(expired := true)], i + 1, calledBack + [e], removed)
            else if e.expired && age > 2 * ttl then
              Sweeping(s, ttl, clock, j + 1, left[..i] + left[i + 1..], i, calledBack, removed + [e])
            else
              Sweeping(s, ttl, clock, j + 1, left, i + 1, calledBack, removed)
  {
    assert s[..j + 1][..j] == s[..j];
    var kept := SweepOf(s[..j], ttl, clock).messages;
    assert left[..i] + left[i + 1..] == kept + s[j + 1..];
    assert left[i := s[j].(expired := true)] == kept + [s[j].(expired := true)] + s[j + 1..];
    assert left == kept + [s[j]] + s[j + 1..];
  }

  class MessageStore {
    const policy: ReplacingPolicy
    const msgTTL: int
    var messages: seq<Entry>
    var expiredCount: int

    constructor (policy: ReplacingPolicy, msgTTL: int)
      ensures this.policy == policy && this.msgTTL == msgTTL
      ensures messages == [] && expiredCount == 0
    {
      this.policy, this.msgTTL := policy, msgTTL;
      messages, expiredCount := [], 0;
    }

    /** The entries passed to the invalidation trigger are returned, in the order of the calls. */
    method Add(message: SignedMessage, now: int) returns (added: bool, evicted: seq<Entry>)
      modifies this`messages
      ensures Addition(added, messages, evicted) == AddTo(policy, old(messages), message, now)
    {
      ghost var before, j := messages, 0;
      var n, i := |messages|, 0;
      evicted := [];
      while i < n
        invariant i <= n == |messages| && n - i == |before| - j
        invariant Scanned(policy, message, before, j, messages, i, evicted)
        decreases n - i
      {
        var e := messages[i];
        ScanStep(policy, message, before, j, messages, i, evicted);
        match policy(message, e.data) {
          case Invalidated =>
            ScanEnd(policy, message, before, j, messages, i, evicted, now);
            return false, evicted;
          case Invalidates =>
            evicted := evicted + [e];
            messages := messages[..i] + messages[i + 1..];
            n := n - 1;
          case NoAction =>
            i := i + 1;
        }
        j := j + 1;
      }
      ScanEnd(policy, message, before, j, messages, i, evicted, now);
      messages := messages + [Entry(message, now, false)];
      added := true;
    }

    method CheckValid(message: SignedMessage) returns (valid: bool)
      ensures valid == Accepts(policy, messages, message)
    {
      for i := 0 to |messages|
        invariant Accepts(policy, messages[..i], message)
      {
        if policy(message, messages[i].data) == Invalidated {
          return false;
        }
      }
      assert messages[..|messages|] == messages;
      valid := true;
    }

    function Size(): int
      reads this
    {
      |messages| - expiredCount
    }

    method Get() returns (res: seq<SignedMessage>)
      ensures res == Datas(Filter(Not(EXPIRED), messages))
    {
      res := [];
      for i := 0 to |messages|
        invariant res == Datas(Filter(Not(EXPIRED), messages[..i]))
      {
        FilterStep(Not(EXPIRED), messages, i);
        if !messages[i].expired {
          res := res + [messages[i].data];
        }
      }
      assert messages[..|messages|] == messages;
    }

    method IsPurgeNeeded(shouldBePurged: Entry -> bool) returns (needed: bool)
      ensures needed == exists e | e in messages :: shouldBePurged(e)
    {
      for i := 0 to |messages|
        invariant forall e | e in messages[..i] :: !shouldBePurged(e)
      {
        if shouldBePurged(messages[i]) {
          return true;
        }
      }
      needed := false;
    }

    method Purge(shouldBePurged: SignedMessage -> bool) returns (evicted: seq<Entry>)
      modifies this`messages
      ensures messages == Filter(Not(Purged(shouldBePurged)), old(messages))
      ensures evicted == Filter(Purged(shouldBePurged), old(messages))
    {
      ghost var before, j := messages, 0;
      ghost var purged := Purged(shouldBePurged);
      var needed := IsPurgeNeeded(Purged(shouldBePurged));
      if !needed {
        FilterNone(purged, messages);
        return [];
      }
      var n, i := |messages|, 0;
      evicted := [];
      while i < n
        invariant i <= n == |messages| && n - i == |before| - j
        invariant Deleting(purged, before, j, messages, i, evicted)
        decreases n - i
      {
        DeletingStep(purged, before, j, messages, i, evicted);
        if shouldBePurged(messages[i].data) {
          evicted := evicted + [messages[i]];
          messages := messages[..i] + messages[i + 1..];
          n := n - 1;
        } else {
          i := i + 1;
        }
        j := j + 1;
      }
      DeletingEnd(purged, before, messages, i, evicted);
    }

    /** One pass of the expiry routine. The entries handed to the expiry callback are returned in
        the order of the calls; the clock is read once for every entry examined. */
    method ExpireMessages(clock: Clock) returns (calledBack: seq<Entry>, ghost removed: seq<Entry>)
      modifies this
      ensures Sweep(messages, calledBack, removed) == SweepOf(old(messages), msgTTL, clock)
      ensures expiredCount == old(expiredCount) + |calledBack| - |removed|
    {
      ghost var before := messages;
      var n, i, j := |messages|, 0, 0;
      calledBack, removed := [], [];
      while i < n
        invariant i <= n == |messages| && n - i == |before| - j
        invariant Sweeping(before, msgTTL, clock, j, messages, i, calledBack, removed)
        invariant expiredCount == old(expiredCount) + |calledBack| - |removed|
        decreases n - i
      {
        var m := messages[i];
        SweepingStep(before, msgTTL, clock, j, messages, i, calledBack, removed);
        if !m.expired {
          if clock(j) - m.created > msgTTL {
            messages := messages[i := m.(expired := true)];
            calledBack := calledBack + [m];
            expiredCount := expiredCount + 1;
          }
          i := i + 1;
        } else if clock(j) - m.created > 2 * msgTTL {
          messages := messages[..i] + messages[i + 1..];
          n := n - 1;
          expiredCount := expiredCount - 1;
          removed := removed + [m];
        } else {
          i := i + 1;
        }
        j := j + 1;
      }
      assert before[..j] == before;
    }
  }
}
