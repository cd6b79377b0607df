/** What the store holds after any sequence of deliveries: exactly the facts that nothing delivered
    supersedes, whatever the order and the duplication. */
module StoreConvergence {
  import opened Sequences
  import opened Messages
  import opened Policy
  import opened MessageStores

  function Facts(s: seq<Entry>): set<Fact> {
    set e | e in s && FactOf(e.data).Some? :: FactOf(e.data).value
  }

  function Window(storageSize: int): nat {
    ToUint64(storageSize)
  }

  /** Neither entry would have kept the other out of the store, nor pushed it out. */
  function Harmless(storageSize: int): (Entry, Entry) -> bool {
    (a: Entry, b: Entry) =>
      Compare(storageSize, a.data, b.data) == NoAction && Compare(storageSize, b.data, a.data) == NoAction
  }

  /** The store invariant: all entries tolerate each other. */
  ghost predicate Compatible(storageSize: int, s: seq<Entry>) {
    Pairwise(Harmless(storageSize), s)
  }

  /** For every policy: `Add` succeeds exactly when `CheckValid` would have said so beforehand. */
  lemma AddAgreesWithCheckValid(policy: ReplacingPolicy, s: seq<Entry>, m: SignedMessage, now: int)
    ensures AddTo(policy, s, m, now).added <==> Accepts(policy, s, m)
  {
    var n := Reach(policy, s, m);
    if n < |s| {
      assert s[n] in s;
    } else {
      assert s[..n] == s;
    }
  }

  lemma AcceptsIffUnsettled(storageSize: int, s: seq<Entry>, m: SignedMessage)
    ensures FactOf(m).None? ==> Accepts(Comparator(storageSize), s, m)
    ensures FactOf(m).Some? ==>
              (Accepts(Comparator(storageSize), s, m) <==> !Settled(Window(storageSize), Facts(s), FactOf(m).value))
  {
    forall e | e in s
      ensures Comparator(storageSize)(m, e.data) == Invalidated <==>
              FactOf(m).Some? && FactOf(e.data).Some? &&
              (FactOf(e.data).value == FactOf(m).value ||
               Beats(Window(storageSize), FactOf(e.data).value, FactOf(m).value))
    {
      PolicyIsOrder(storageSize, m, e.data);
    }
    if FactOf(m).Some? && Settled(Window(storageSize), Facts(s), FactOf(m).value) {
      var y :| y in Facts(s) && (y == FactOf(m).value || Beats(Window(storageSize), y, FactOf(m).value));
      var e :| e in s && FactOf(e.data) == Some(y);
    }
  }

  lemma NoCrossfire(storageSize: int, m: SignedMessage, a: SignedMessage, b: SignedMessage)
    requires Comparator(storageSize)(m, a) == Invalidated && Comparator(storageSize)(m, b) == Invalidates
    ensures Compare(storageSize, a, b) != NoAction
  {
    PolicyIsOrder(storageSize, m, a);
    PolicyIsOrder(storageSize, m, b);
    PolicyIsOrder(storageSize, a, b);
    BeatsIsTransitive(Window(storageSize), FactOf(a).value, FactOf(m).value, FactOf(b).value);
  }

  /** An entry that invalidates the message and one the message invalidates cannot tolerate each
      other, so a rejected `Add` on a compatible store has deleted nothing. */
  lemma RejectedAddChangesNothing(storageSize: int, s: seq<Entry>, m: SignedMessage, now: int)
    requires Compatible(storageSize, s)
    requires !Accepts(Comparator(storageSize), s, m)
    ensures AddTo(Comparator(storageSize), s, m, now) == Addition(false, s, [])
  {
    var policy := Comparator(storageSize);
    var n := Reach(policy, s, m);
    assert n < |s| by {
      AddAgreesWithCheckValid(policy, s, m, now);
    }
    forall e | e in s[..n]
      ensures !Superseded(policy, m)(e)
    {
      var i :| 0 <= i < n && s[i] == e;
      assert Harmless(storageSize)(s[i], s[n]);
      if Superseded(policy, m)(e) {
        NoCrossfire(storageSize, m, s[n].data, e.data);
        assert false;
      }
    }
    FilterNone(Superseded(policy, m), s[..n]);
    assert s[..n] + s[n..] == s;
  }

  lemma AcceptedAdd(policy: ReplacingPolicy, s: seq<Entry>, m: SignedMessage, now: int)
    requires Accepts(policy, s, m)
    ensures AddTo(policy, s, m, now) ==
            Addition(true, Filter(Not(Superseded(policy, m)), s) + [Entry(m, now, false)],
                     Filter(Superseded(policy, m), s))
  {
    assert s[..|s|] == s;
    ReachIs(policy, s, m, |s|);
  }

  lemma AddKeepsCompatible(storageSize: int, s: seq<Entry>, m: SignedMessage, now: int)
    requires Compatible(storageSize, s)
    ensures Compatible(storageSize, AddTo(Comparator(storageSize), s, m, now).messages)
  {
    var policy := Comparator(storageSize);
    if !Accepts(policy, s, m) {
      RejectedAddChangesNothing(storageSize, s, m, now);
    } else {
      AcceptedAdd(policy, s, m, now);
      var kept := Filter(Not(Superseded(policy, m)), s);
      FilterPairwise(Harmless(storageSize), Not(Superseded(policy, m)), s);
      FilterMembers(Not(Superseded(policy, m)), s);
      forall i | 0 <= i < |kept|
        ensures Harmless(storageSize)(kept[i], Entry(m, now, false))
      {
        assert kept[i] in s;
        PolicyIsOrder(storageSize, m, kept[i].data);
        PolicyIsOrder(storageSize, kept[i].data, m);
      }
    }
  }

  /** One `Add` refines `Absorb` on the facts of the store; a message without a fact adds none. */
  lemma AddAbsorbs(storageSize: int, s: seq<Entry>, m: SignedMessage, now: int)
    requires Compatible(storageSize, s)
    ensures var after := Facts(AddTo(Comparator(storageSize), s, m, now).messages);
            after == if FactOf(m).Some? then Absorb(Window(storageSize), Facts(s), FactOf(m).value) else Facts(s)
  {
    var policy := Comparator(storageSize);
    AcceptsIffUnsettled(storageSize, s, m);
    if !Accepts(policy, s, m) {
      RejectedAddChangesNothing(storageSize, s, m, now);
    } else {
      AcceptedAdd(policy, s, m, now);
      FilterMembers(Not(Superseded(policy, m)), s);
      forall e | e in s
        ensures Superseded(policy, m)(e) <==>
                FactOf(m).Some? && FactOf(e.data).Some? &&
                Beats(Window(storageSize), FactOf(m).value, FactOf(e.data).value)
      {
        PolicyIsOrder(storageSize, m, e.data);
        assert policy(m, e.data) != Invalidated;
      }
    }
  }

  datatype Arrival = Arrival(message: SignedMessage, at: int)

  /** The store after adding all arrivals, first to last, to an empty one. */
  function Delivered(storageSize: int, arrivals: seq<Arrival>): seq<Entry> {
    if arrivals == [] then
      []
    else
      var last := arrivals[|arrivals| - 1];
      AddTo(Comparator(storageSize), Delivered(storageSize, arrivals[..|arrivals| - 1]), last.message, last.at).messages
  }

  function Claims(arrivals: seq<Arrival>): set<Fact> {
    set a | a in arrivals && FactOf(a.message).Some? :: FactOf(a.message).value
  }

  lemma {:induction false} DeliveredIsCompatible(storageSize: int, arrivals: seq<Arrival>)
    ensures Compatible(storageSize, Delivered(storageSize, arrivals))
  {
    if arrivals == [] {
    } else {
      var front, last := arrivals[..|arrivals| - 1], arrivals[|arrivals| - 1];
      DeliveredIsCompatible(storageSize, front);
      AddKeepsCompatible(storageSize, Delivered(storageSize, front), last.message, last.at);
    }
  }

  /** Convergence: the facts left are the maxima of the facts delivered. */
  lemma {:induction false} DeliveryKeepsMaxima(storageSize: int, arrivals: seq<Arrival>)
    ensures Facts(Delivered(storageSize, arrivals)) == Maxima(Window(storageSize), Claims(arrivals))
  {
    if arrivals == [] {
    } else {
      var front, last := arrivals[..|arrivals| - 1], arrivals[|arrivals| - 1];
      assert arrivals == front + [last];
      DeliveryKeepsMaxima(storageSize, front);
      DeliveredIsCompatible(storageSize, front);
      AddAbsorbs(storageSize, Delivered(storageSize, front), last.message, last.at);
      match FactOf(last.message)
      case None =>
        assert Claims(arrivals) == Claims(front);
      case Some(x) =>
        assert Claims(arrivals) == Claims(front) + {x};
        MaximaAbsorb(Window(storageSize), Claims(front), x);
    }
  }

  function Sent(arrivals: seq<Arrival>): set<SignedMessage> {
    set a | a in arrivals :: a.message
  }

  lemma ClaimsOfSent(arrivals: seq<Arrival>)
    ensures Claims(arrivals) == set m | m in Sent(arrivals) && FactOf(m).Some? :: FactOf(m).value
  {
    forall a | a in arrivals
      ensures a.message in Sent(arrivals)
    {
    }
  }

  /** Two runs that deliver the same messages, in any order and any number of times, end with the
      same facts in store. */
  lemma OrderDoesNotMatter(storageSize: int, one: seq<Arrival>, other: seq<Arrival>)
    requires Sent(one) == Sent(other)
    ensures Facts(Delivered(storageSize, one)) == Facts(Delivered(storageSize, other))
  {
    ClaimsOfSent(one);
    ClaimsOfSent(other);
    DeliveryKeepsMaxima(storageSize, one);
    DeliveryKeepsMaxima(storageSize, other);
  }

  // ----- Blocks: a sliding window -----

  const IS_BLOCK: Entry -> bool := (e: Entry) => e.data.content.DataMsg?

  function Numbers(facts: set<Fact>): set<int> {
    set f | f in facts && f.Block? :: f.seqNum
  }

  lemma WindowOfMaxima(window: nat, d: set<Fact>)
    ensures Numbers(Maxima(window, d)) ==
            set x | x in Numbers(d) && forall y | y in Numbers(d) :: y <= x + window
  {
    forall f | f in d && f.Block?
      ensures f in Maxima(window, d) <==> forall y | y in Numbers(d) :: y <= f.seqNum + window
    {
      forall g | g in d && g.Block?
        ensures g.seqNum in Numbers(d)
      {
      }
    }
  }

  /** A block number survives exactly if no delivered number is more than the window above it. */
  lemma BlockWindow(storageSize: int, arrivals: seq<Arrival>)
    ensures Numbers(Facts(Delivered(storageSize, arrivals))) ==
            set x | x in Numbers(Claims(arrivals)) &&
                    forall y | y in Numbers(Claims(arrivals)) :: y <= x + Window(storageSize)
  {
    DeliveryKeepsMaxima(storageSize, arrivals);
    WindowOfMaxima(Window(storageSize), Claims(arrivals));
  }

  predicate Near(x: int, y: int, width: int) {
    x - y <= width && y - x <= width
  }

  function Lowest(numbers: seq<int>): (low: int)
    requires numbers != []
    ensures low in numbers && forall x | x in numbers :: low <= x
  {
    if |numbers| == 1 then
      numbers[0]
    else
      var low := Lowest(numbers[1..]);
      assert numbers == [numbers[0]] + numbers[1..];
      if numbers[0] < low then numbers[0] else low
  }

  lemma {:induction false} InRange(numbers: seq<int>, low: int, width: int)
    requires forall i, j | 0 <= i < j < |numbers| :: numbers[i] != numbers[j]
    requires forall x | x in numbers :: low <= x <= low + width
    requires width >= -1
    ensures |numbers| <= width + 1
    decreases width + 1
  {
    if numbers == [] {
    } else {
      assert numbers[0] in numbers;
      var top := low + width;
      if i :| 0 <= i < |numbers| && numbers[i] == top {
        var rest := numbers[..i] + numbers[i + 1..];
        forall x | x in rest
          ensures x in numbers && x != top
        {
          var j :| 0 <= j < |rest| && rest[j] == x;
          assert x == numbers[if j < i then j else j + 1];
        }
        InRange(rest, low, width - 1);
      } else {
        InRange(numbers, low, width - 1);
      }
    }
  }

  lemma NarrowDistinct(numbers: seq<int>, width: nat)
    requires forall i, j | 0 <= i < j < |numbers| ::
               numbers[i] != numbers[j] && Near(numbers[i], numbers[j], width)
    ensures |numbers| <= width + 1
  {
    if numbers != [] {
      var low := Lowest(numbers);
      InRange(numbers, low, width);
    }
  }

  /** Any compatible store has room for at most window + 1 blocks. */
  lemma WindowBoundsBlocks(storageSize: int, s: seq<Entry>)
    requires Compatible(storageSize, s)
    ensures |Filter(IS_BLOCK, s)| <= Window(storageSize) + 1
  {
    var blocks := Filter(IS_BLOCK, s);
    FilterPairwise(Harmless(storageSize), IS_BLOCK, s);
    FilterMembers(IS_BLOCK, s);
    if blocks != [] {
      var numbers := seq(|blocks|, i requires 0 <= i < |blocks| =>
        assert blocks[i] in blocks; blocks[i].data.content.seqNum as int);
      forall i, j | 0 <= i < j < |numbers|
        ensures numbers[i] != numbers[j] && Near(numbers[i], numbers[j], Window(storageSize))
      {
        assert blocks[i] in blocks && blocks[j] in blocks;
        assert Harmless(storageSize)(blocks[i], blocks[j]);
      }
      NarrowDistinct(numbers, Window(storageSize));
    }
  }

  // ----- Alive, state-info and leadership messages: the last writer wins -----

  /** The kind of a time-stamped message and the peer it is about. */
  function Register(m: SignedMessage): Option<(Kind, PkiId)> {
    match FactOf(m)
    case Some(Stamp(k, p, _)) => Some((k, p))
    case _ => None
  }

  function RegisterTime(m: SignedMessage): PeerTime
    requires Register(m).Some?
  {
    FactOf(m).value.time
  }

  lemma OneEntryPerRegister(storageSize: int, s: seq<Entry>, i: nat, j: nat)
    requires Compatible(storageSize, s) && i < j < |s|
    ensures Register(s[i].data) != None ==> Register(s[i].data) != Register(s[j].data)
  {
    assert Harmless(storageSize)(s[i], s[j]);
  }

  /** For every peer and kind heard of, the store holds an entry whose message was delivered and
      whose time is the latest delivered for that peer and kind. */
  lemma LastWriterWins(storageSize: int, arrivals: seq<Arrival>, a: Arrival) returns (e: Entry)
    requires a in arrivals && Register(a.message).Some?
    ensures e in Delivered(storageSize, arrivals) && Register(e.data) == Register(a.message)
    ensures FactOf(e.data).value in Claims(arrivals)
    ensures forall b | b in arrivals && Register(b.message) == Register(a.message) ::
              !Before(RegisterTime(e.data), RegisterTime(b.message))
  {
    var d, s := Claims(arrivals), Delivered(storageSize, arrivals);
    var x := FactOf(a.message).value;
    assert x in d;
    SettledByMaximum(Window(storageSize), d, x);
    DeliveryKeepsMaxima(storageSize, arrivals);
    var y :| y in Facts(s) && (y == x || Beats(Window(storageSize), y, x));
    e :| e in s && FactOf(e.data) == Some(y);
    forall b | b in arrivals && Register(b.message) == Register(a.message)
      ensures !Before(RegisterTime(e.data), RegisterTime(b.message))
    {
      assert FactOf(b.message).value in d;
    }
  }

  /** The window is the configured size, for every size the code can be given but a negative one. */
  lemma WindowIsSize(storageSize: int)
    requires 0 <= storageSize < TWO_63
    ensures Window(storageSize) == storageSize
  {
  }
}
