/** The replacement policies of gossip/msg.go, and the order on facts that they implement. */
module Policy {
  import opened Sequences
  import opened Messages

  datatype InvalidationResult = NoAction | Invalidates | Invalidated

  type ReplacingPolicy = (SignedMessage, SignedMessage) -> InvalidationResult

  function CompareTimestamps(incoming: PeerTime, stored: PeerTime): InvalidationResult {
    if incoming.incNum == stored.incNum then
      if incoming.seqNum > stored.seqNum then Invalidates else Invalidated
    else if incoming.incNum < stored.incNum then
      Invalidated
    else
      Invalidates
  }

  function Abs(a: uint64, b: uint64): uint64 {
    if a > b then a - b else b - a
  }

  function DataPolicy(storageSize: int, incoming: uint64, stored: uint64): InvalidationResult {
    if incoming == stored then
      Invalidated
    else if Abs(incoming, stored) <= ToUint64(storageSize) then
      NoAction
    else if incoming > stored then
      Invalidates
    else
      Invalidated
  }

  function Compare(storageSize: int, incoming: SignedMessage, stored: SignedMessage): InvalidationResult {
    match (incoming.content, stored.content)
    case (AliveMsg(m, t), AliveMsg(n, u)) =>
      if m.pkiId != n.pkiId then NoAction else CompareTimestamps(t, u)
    case (DataMsg(x, _), DataMsg(y, _)) =>
      DataPolicy(storageSize, x, y)
    case (StateInfo(p, t), StateInfo(q, u)) =>
      if p != q then NoAction else CompareTimestamps(t, u)
    case (PeerIdentity(p, _), PeerIdentity(q, _)) =>
      if p == q then Invalidated else NoAction
    case (LeadershipMsg(p, t), LeadershipMsg(q, u)) =>
      if p != q then NoAction else CompareTimestamps(t, u)
    case _ => NoAction
  }

  function Comparator(storageSize: int): ReplacingPolicy {
    (a, b) => Compare(storageSize, a, b)
  }

  /** Lexicographic order on logical times. */
  predicate Before(a: PeerTime, b: PeerTime) {
    a.incNum < b.incNum || (a.incNum == b.incNum && a.seqNum < b.seqNum)
  }

  /** What a message claims, as far as replacement is concerned: which block it carries, which
      logical time it gives a peer, or which identity it introduces. */
  datatype Kind = Alive | State | Leader

  datatype Fact =
    | Block(seqNum: uint64)
    | Stamp(kind: Kind, pkiId: PkiId, time: PeerTime)
    | Identity(pkiId: PkiId)

  function FactOf(m: SignedMessage): Option<Fact> {
    match m.content
    case AliveMsg(n, t) => Some(Stamp(Alive, n.pkiId, t))
    case DataMsg(x, _) => Some(Block(x))
    case StateInfo(p, t) => Some(Stamp(State, p, t))
    case PeerIdentity(p, _) => Some(Identity(p))
    case LeadershipMsg(p, t) => Some(Stamp(Leader, p, t))
    case _ => None
  }

  /** `a` supersedes `b`: a block more than a window ahead, or a later time of the same peer. */
  predicate Beats(window: nat, a: Fact, b: Fact) {
    match (a, b)
    case (Block(x), Block(y)) => x > y + window
    case (Stamp(k, p, t), Stamp(l, q, u)) => k == l && p == q && Before(u, t)
    case _ => false
  }

  lemma BeatsIsTransitive(window: nat, a: Fact, b: Fact, c: Fact)
    ensures Beats(window, a, b) && Beats(window, b, c) ==> Beats(window, a, c) && a != c
  {
  }

  /** The policy is exactly the order on facts: a message is invalidated by an equal or superseding
      fact, invalidates a superseded one, and leaves every other message alone. */
  lemma PolicyIsOrder(storageSize: int, m: SignedMessage, e: SignedMessage)
    ensures Comparator(storageSize)(m, e) ==
            var w := ToUint64(storageSize);
            match (FactOf(m), FactOf(e))
            case (Some(a), Some(b)) =>
              if a == b || Beats(w, b, a) then Invalidated
              else if Beats(w, a, b) then Invalidates
              else NoAction
            case _ => NoAction
  {
  }

  /** The facts of `d` that no fact of `d` supersedes. */
  function Maxima(window: nat, d: set<Fact>): set<Fact> {
    set x | x in d && forall y | y in d :: !Beats(window, y, x)
  }

  /** `s` already contains `x` or something that supersedes it. */
  predicate Settled(window: nat, s: set<Fact>, x: Fact) {
    x in s || exists y | y in s :: Beats(window, y, x)
  }

  /** Taking one more fact into a set that keeps only unsuperseded facts. */
  function Absorb(window: nat, s: set<Fact>, x: Fact): set<Fact> {
    if Settled(window, s, x) then s else (set y | y in s && !Beats(window, x, y)) + {x}
  }

  function Above(window: nat, d: set<Fact>, x: Fact): set<Fact> {
    set y | y in d && Beats(window, y, x)
  }

  lemma {:induction false} SettledByMaximum(window: nat, d: set<Fact>, x: Fact)
    requires Settled(window, d, x)
    ensures Settled(window, Maxima(window, d), x)
    decreases Above(window, d, x)
  {
    if x in Maxima(window, d) {
    } else {
      var y :| y in d && Beats(window, y, x);
      forall z | z in Above(window, d, y)
        ensures z in Above(window, d, x)
      {
        BeatsIsTransitive(window, z, y, x);
      }
      assert y in Above(window, d, x) && y !in Above(window, d, y);
      SettledByMaximum(window, d, y);
      if y !in Maxima(window, d) {
        var z :| z in Maxima(window, d) && Beats(window, z, y);
        BeatsIsTransitive(window, z, y, x);
      }
    }
  }

  /** Absorbing facts one at a time computes the maxima of everything absorbed. */
  lemma MaximaAbsorb(window: nat, d: set<Fact>, x: Fact)
    ensures Maxima(window, d + {x}) == Absorb(window, Maxima(window, d), x)
  {
    var s := Maxima(window, d);
    if !Settled(window, s, x) {
      if Settled(window, d, x) {
        SettledByMaximum(window, d, x);
      }
    } else if x !in s {
      var z :| z in s && Beats(window, z, x);
      forall y | y in s
        ensures !Beats(window, x, y)
      {
        BeatsIsTransitive(window, z, x, y);
      }
    }
  }

  /** Once a fact is settled it stays settled, whatever is absorbed later. */
  lemma AbsorbKeepsSettled(window: nat, s: set<Fact>, x: Fact, settled: Fact)
    requires Settled(window, s, settled)
    ensures Settled(window, Absorb(window, s, x), settled)
  {
    if !Settled(window, s, x) && settled !in s {
      var y :| y in s && Beats(window, y, settled);
      if Beats(window, x, y) {
        BeatsIsTransitive(window, x, y, settled);
      }
    }
  }

  /** What is settled after absorbing a fact is what is settled by that fact and the others together. */
  lemma AbsorbSettles(window: nat, s: set<Fact>, x: Fact, z: Fact)
    ensures Settled(window, Absorb(window, s, x), z) <==> Settled(window, s + {x}, z)
  {
    if Settled(window, s + {x}, z) && z != x {
      if z in s {
        AbsorbKeepsSettled(window, s, x, z);
      } else {
        var y :| y in s + {x} && Beats(window, y, z);
        if y != x {
          AbsorbKeepsSettled(window, s, x, z);
        } else if x !in s && Settled(window, s, x) {
          var w :| w in s && Beats(window, w, x);
          BeatsIsTransitive(window, w, x, z);
        }
      }
    }
  }
}
