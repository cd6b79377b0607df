/** The state-info cache of gossip/channel.go: a message store and an index by peer that must agree,
    and the channel configuration that prunes them. */
module StateInfoCaches {
  import opened Sequences
  import opened Messages
  import opened Policy
  import opened MessageStores
  import opened StoreConvergence

  type Org = string

  /** What the identity and crypto services answer: whether a peer's certificate is known, its
      organisation, and whether its state message is signed for the channel. */
  datatype Services = Services(selfPki: PkiId, known: PkiId -> bool, orgOf: PkiId -> Org, signed: SignedMessage -> bool)

  predicate Verify(services: Services, m: SignedMessage, orgs: seq<Org>)
    requires m.content.StateInfo?
  {
    var pki := m.content.statePki;
    services.selfPki == pki || (services.known(pki) && services.orgOf(pki) in orgs && services.signed(m))
  }

  /** A message that may be in a channel of these organisations: it is one's own, or it is signed, by a known peer,
      whose organisation is one of them. */
  ghost predicate MayStay(services: Services, m: SignedMessage, orgs: seq<Org>) {
    && m.content.StateInfo?
    && (m.content.statePki != services.selfPki ==>
          && services.signed(m) && services.known(m.content.statePki)
          && exists i | 0 <= i < |orgs| :: orgs[i] == services.orgOf(m.content.statePki))
  }

  function OfPeer(pki: PkiId): SignedMessage -> bool {
    (m: SignedMessage) => m.content.StateInfo? && m.content.statePki == pki
  }

  function Rejected(services: Services, orgs: seq<Org>): SignedMessage -> bool {
    (m: SignedMessage) => m.content.StateInfo? && !Verify(services, m, orgs)
  }

  function PkiOf(e: Entry): PkiId {
    match e.data.content case StateInfo(pki, _) => pki case _ => ""
  }

  /** One live state-info message per peer. */
  ghost predicate StateStore(entries: seq<Entry>) {
    && Compatible(0, entries)
    && (forall e | e in entries :: e.data.content.StateInfo? && !e.expired)
  }

  function IndexOf(entries: seq<Entry>): map<PkiId, SignedMessage> {
    if entries == [] then map[]
    else var last := entries[|entries| - 1];
         IndexOf(entries[..|entries| - 1])[PkiOf(last) := last.data]
  }

  lemma {:induction false} IndexKeys(entries: seq<Entry>)
    ensures forall pki :: pki in IndexOf(entries) <==> exists e | e in entries :: PkiOf(e) == pki
  {
    if entries == [] {
    } else {
      IndexKeys(entries[..|entries| - 1]);
      assert entries == entries[..|entries| - 1] + [entries[|entries| - 1]];
    }
  }

  lemma OnePerPeer(entries: seq<Entry>, i: nat, j: nat)
    requires StateStore(entries) && i < j < |entries|
    ensures PkiOf(entries[i]) != PkiOf(entries[j])
  {
    assert entries[i] in entries && entries[j] in entries;
    OneEntryPerRegister(0, entries, i, j);
  }

  lemma StateStorePrefix(entries: seq<Entry>)
    requires StateStore(entries) && entries != []
    ensures StateStore(entries[..|entries| - 1])
    ensures PkiOf(entries[|entries| - 1]) !in IndexOf(entries[..|entries| - 1])
  {
    var front, last := entries[..|entries| - 1], entries[|entries| - 1];
    forall i, j | 0 <= i < j < |front|
      ensures Harmless(0)(front[i], front[j])
    {
      assert Harmless(0)(entries[i], entries[j]);
    }
    forall e | e in front
      ensures PkiOf(e) != PkiOf(last)
    {
      var i :| 0 <= i < |front| && front[i] == e;
      OnePerPeer(entries, i, |entries| - 1);
    }
    IndexKeys(front);
  }

  /** The index built from a store maps every peer to its one message there, and nothing else. */
  lemma {:induction false} IndexIsExact(entries: seq<Entry>, e: Entry)
    requires StateStore(entries) && e in entries
    ensures PkiOf(e) in IndexOf(entries) && IndexOf(entries)[PkiOf(e)] == e.data
  {
    StateStorePrefix(entries);
    if e == entries[|entries| - 1] {
    } else {
      assert e in entries[..|entries| - 1];
      IndexIsExact(entries[..|entries| - 1], e);
    }
  }

  function Peers(gone: seq<Entry>): set<PkiId> {
    set e | e in gone :: PkiOf(e)
  }

  lemma UpdateThenRemove<K, V>(m: map<K, V>, key: K, value: V, gone: set<K>)
    ensures key !in gone ==> m[key := value] - gone == (m - gone)[key := value]
    ensures key !in m ==> m[key := value] - (gone + {key}) == m - gone
    ensures gone <= {key} ==> (m - gone)[key := value] == m[key := value]
  {
  }

  lemma DeletionKeepsStateStore(entries: seq<Entry>, drop: Entry -> bool)
    requires StateStore(entries)
    ensures StateStore(Filter(Not(drop), entries))
  {
    FilterPairwise(Harmless(0), Not(drop), entries);
    FilterMembers(Not(drop), entries);
  }

  /** Deleting entries by any predicate deletes exactly their peers from the index. */
  lemma {:induction false} DeletionUnindexes(entries: seq<Entry>, drop: Entry -> bool)
    requires StateStore(entries)
    ensures IndexOf(Filter(Not(drop), entries)) == IndexOf(entries) - Peers(Filter(drop, entries))
  {
    if entries == [] {
    } else {
      var front, last := entries[..|entries| - 1], entries[|entries| - 1];
      var gone := Peers(Filter(drop, front));
      StateStorePrefix(entries);
      DeletionUnindexes(front, drop);
      UpdateThenRemove(IndexOf(front), PkiOf(last), last.data, gone);
      if drop(last) {
        assert Peers(Filter(drop, front) + [last]) == gone + {PkiOf(last)};
      } else {
        FilterMembers(drop, front);
        IndexKeys(front);
      }
    }
  }

  lemma EvictedAreOfPeer(entries: seq<Entry>, m: SignedMessage, now: int)
    requires m.content.StateInfo? && Accepts(Comparator(0), entries, m)
    ensures forall e | e in AddTo(Comparator(0), entries, m, now).evicted ::
              e.data.content.StateInfo? && e.data.content.statePki == m.content.statePki
  {
    AcceptedAdd(Comparator(0), entries, m, now);
    FilterMembers(Superseded(Comparator(0), m), entries);
  }

  lemma AdditionKeepsStateStore(entries: seq<Entry>, m: SignedMessage, now: int)
    requires StateStore(entries) && m.content.StateInfo?
    requires Accepts(Comparator(0), entries, m)
    ensures StateStore(AddTo(Comparator(0), entries, m, now).messages)
  {
    AcceptedAdd(Comparator(0), entries, m, now);
    AddKeepsCompatible(0, entries, m, now);
    DeletionKeepsStateStore(entries, Superseded(Comparator(0), m));
  }

  lemma GoneIsOfPeer(entries: seq<Entry>, m: SignedMessage, now: int)
    requires m.content.StateInfo? && Accepts(Comparator(0), entries, m)
    ensures Peers(AddTo(Comparator(0), entries, m, now).evicted) <= {m.content.statePki}
  {
    EvictedAreOfPeer(entries, m, now);
  }

  lemma IndexOfAppended(entries: seq<Entry>, e: Entry)
    ensures IndexOf(entries + [e]) == IndexOf(entries)[PkiOf(e) := e.data]
  {
    assert (entries + [e])[..|entries|] == entries;
  }

  /** Accepting a message: the superseded one leaves the index, then the new one enters it. */
  lemma AdditionReindexes(entries: seq<Entry>, m: SignedMessage, now: int)
    requires StateStore(entries) && m.content.StateInfo?
    requires Accepts(Comparator(0), entries, m)
    ensures var r := AddTo(Comparator(0), entries, m, now);
            && r.added
            && IndexOf(r.messages) == (IndexOf(entries) - Peers(r.evicted))[m.content.statePki := m]
            && IndexOf(r.messages) == IndexOf(entries)[m.content.statePki := m]
  {
    var kept, gone := Filter(Not(Superseded(Comparator(0), m)), entries), Filter(Superseded(Comparator(0), m), entries);
    AcceptedAdd(Comparator(0), entries, m, now);
    DeletionUnindexes(entries, Superseded(Comparator(0), m));
    GoneIsOfPeer(entries, m, now);
    UpdateThenRemove(IndexOf(entries), m.content.statePki, m, Peers(gone));
    IndexOfAppended(kept, Entry(m, now, false));
  }

  // ----- Configuring the channel -----

  lemma FilterOut<T(!new)>(p: T -> bool, s: seq<T>, x: T, t: seq<T>)
    requires p(x) && (forall y | y in s :: !p(y)) && (forall y | y in t :: !p(y))
    ensures Filter(Not(p), s + [x] + t) == s + t
  {
    FilterConcat(Not(p), s + [x], t);
    FilterConcat(Not(p), s, [x]);
    FilterNone(p, s);
    FilterNone(p, t);
  }

  /** About a peer that is no longer a member. */
  function Departed(isMember: PkiId -> bool): SignedMessage -> bool {
    (m: SignedMessage) => m.content.StateInfo? && !isMember(m.content.statePki)
  }

  /** The store once the first `i` entries have been verified and the rejected ones purged. */
  function Pruned(services: Services, orgs: seq<Org>, before: seq<Entry>, i: nat): seq<Entry>
    requires i <= |before|
  {
    Filter(Not(Purged(Rejected(services, orgs))), before[..i]) + before[i..]
  }

  /** Purging the peer of an entry removes that entry alone. */
  lemma PurgeOne(before: seq<Entry>, i: nat, kept: seq<Entry>)
    requires StateStore(before) && i < |before| && forall e | e in kept :: e in before[..i]
    ensures Filter(Not(Purged(OfPeer(PkiOf(before[i])))), kept + before[i..]) == kept + before[i + 1..]
  {
    forall j | 0 <= j < |before| && j != i
      ensures PkiOf(before[j]) != PkiOf(before[i])
    {
      if i < j {
        OnePerPeer(before, i, j);
      } else {
        OnePerPeer(before, j, i);
      }
    }
    assert before[i] in before;
    assert kept + before[i..] == kept + [before[i]] + before[i + 1..];
    FilterOut(Purged(OfPeer(PkiOf(before[i]))), kept, before[i], before[i + 1..]);
  }

  lemma PrunedNext(services: Services, orgs: seq<Org>, before: seq<Entry>, i: nat)
    requires i < |before| && before[i].data.content.StateInfo?
    ensures var kept := Filter(Not(Purged(Rejected(services, orgs))), before[..i]);
            && (forall e | e in kept :: e in before[..i])
            && Pruned(services, orgs, before, i + 1)
               == if Verify(services, before[i].data, orgs) then kept + before[i..] else kept + before[i + 1..]
  {
    var rejected := Purged(Rejected(services, orgs));
    FilterStep(Not(rejected), before, i);
    FilterMembers(Not(rejected), before[..i]);
    assert before[i..] == [before[i]] + before[i + 1..];
    Associate(Filter(Not(rejected), before[..i]), [before[i]], before[i + 1..]);
  }

  lemma PruneStep(services: Services, orgs: seq<Org>, before: seq<Entry>, i: nat)
    requires StateStore(before) && i < |before|
    ensures before[i].data.content.StateInfo?
    ensures Pruned(services, orgs, before, i + 1) ==
            if Verify(services, before[i].data, orgs) then
              Pruned(services, orgs, before, i)
            else
              Filter(Not(Purged(OfPeer(before[i].data.content.statePki))), Pruned(services, orgs, before, i))
  {
    assert before[i] in before;
    PrunedNext(services, orgs, before, i);
    PurgeOne(before, i, Filter(Not(Purged(Rejected(services, orgs))), before[..i]));
  }

  lemma PruneEnd(services: Services, orgs: seq<Org>, before: seq<Entry>)
    ensures Pruned(services, orgs, before, |before|) == Filter(Not(Purged(Rejected(services, orgs))), before)
  {
    assert before[..|before|] == before;
  }

  /** What is left is exactly what may stay. */
  lemma PrunedMembers(services: Services, orgs: seq<Org>, before: seq<Entry>)
    requires StateStore(before)
    ensures forall e :: e in Filter(Not(Purged(Rejected(services, orgs))), before) <==>
                        e in before && MayStay(services, e.data, orgs)
  {
    FilterMembers(Not(Purged(Rejected(services, orgs))), before);
    forall e | e in before
      ensures Not(Purged(Rejected(services, orgs)))(e) <==> MayStay(services, e.data, orgs)
    {
      assert Verify(services, e.data, orgs) <==> MayStay(services, e.data, orgs);
    }
  }

  class StateInfoCache {
    const services: Services
    const store: MessageStore
    var index: map<PkiId, SignedMessage>

    constructor (services: Services)
      ensures this.services == services && fresh(store)
      ensures Valid() && store.messages == [] && index == map[]
    {
      this.services := services;
      store := new MessageStore(Comparator(0), 0);
      index := map[];
      new;
    }

    ghost predicate Valid()
      reads this, store
    {
      store.policy == Comparator(0) && StateStore(store.messages) && index == IndexOf(store.messages)
    }

    /** The invalidation trigger, called for every entry in turn. */
    method RemoveFromIndex(gone: seq<Entry>)
      modifies this`index
      ensures index == old(index) - Peers(gone)
    {
      for i := 0 to |gone|
        invariant index == old(index) - Peers(gone[..i])
      {
        assert gone[..i + 1] == gone[..i] + [gone[i]];
        index := index - {PkiOf(gone[i])};
      }
      assert gone[..|gone|] == gone;
    }

    method Add(m: SignedMessage, orgs: seq<Org>, now: int) returns (added: bool)
      requires Valid() && m.content.StateInfo?
      modifies this`index, store`messages
      ensures Valid()
      ensures added <==> Accepts(Comparator(0), old(store.messages), m) && MayStay(services, m, orgs)
      ensures store.messages == if added then AddTo(Comparator(0), old(store.messages), m, now).messages
                                else old(store.messages)
    {
      var valid := store.CheckValid(m);
      if !valid || !Verify(services, m, orgs) {
        return false;
      }
      AdditionReindexes(store.messages, m, now);
      AdditionKeepsStateStore(store.messages, m, now);
      var evicted: seq<Entry>;
      added, evicted := store.Add(m, now);
      if added {
        RemoveFromIndex(evicted);
        index := index[m.content.statePki := m];
      }
    }

    /** Purging, with the index following through the trigger. */
    method Purge(shouldBePurged: SignedMessage -> bool)
      requires Valid()
      modifies this`index, store`messages
      ensures Valid()
      ensures store.messages == Filter(Not(Purged(shouldBePurged)), old(store.messages))
    {
      DeletionUnindexes(store.messages, Purged(shouldBePurged));
      DeletionKeepsStateStore(store.messages, Purged(shouldBePurged));
      var evicted := store.Purge(shouldBePurged);
      RemoveFromIndex(evicted);
    }

    /** The body of the configuration loop: a message that no longer verifies is purged, and its peer
        is removed from the index once more. */
    method RemoveIfRejected(m: SignedMessage, orgs: seq<Org>)
      requires Valid() && m.content.StateInfo?
      modifies this`index, store`messages
      ensures Valid()
      ensures store.messages ==
              if Verify(services, m, orgs) then old(store.messages)
              else Filter(Not(Purged(OfPeer(m.content.statePki))), old(store.messages))
    {
      if !Verify(services, m, orgs) {
        FilterMembers(Not(Purged(OfPeer(m.content.statePki))), store.messages);
        Purge(OfPeer(m.content.statePki));
        IndexKeys(store.messages);
        index := index - {m.content.statePki};
      }
    }

    /** The configuration loop, over a snapshot of the cached messages. */
    method PruneLoop(orgs: seq<Org>)
      requires Valid()
      modifies this`index, store`messages
      ensures Valid()
      ensures store.messages == Filter(Not(Purged(Rejected(services, orgs))), old(store.messages))
    {
      ghost var before := store.messages;
      var msgs := store.Get();
      FilterNone(EXPIRED, before);
      for i := 0 to |msgs|
        invariant Valid()
        invariant store.messages == Pruned(services, orgs, before, i)
      {
        PruneStep(services, orgs, before, i);
        RemoveIfRejected(msgs[i], orgs);
      }
      PruneEnd(services, orgs, before);
    }

    /** What the loop of `ConfigureChannel` leaves, in order, is exactly what may stay. */
    method PruneRejected(orgs: seq<Org>)
      requires Valid()
      modifies this`index, store`messages
      ensures Valid()
      ensures store.messages == Filter(Not(Purged(Rejected(services, orgs))), old(store.messages))
      ensures forall e :: e in store.messages <==> e in old(store.messages) && MayStay(services, e.data, orgs)
    {
      PrunedMembers(services, orgs, store.messages);
      PruneLoop(orgs);
    }
  }

  class Channel {
    const cache: StateInfoCache
    var orgs: seq<Org>
    var joinMsg: Option<seq<Org>>

    constructor (services: Services)
      ensures fresh(cache) && fresh(cache.store) && cache.services == services
      ensures Valid() && orgs == [] && joinMsg == None
    {
      cache := new StateInfoCache(services);
      orgs, joinMsg := [], None;
    }

    /** The index agrees with the store, and every stored message passes verification against the
        organisations now in the channel. */
    ghost predicate Valid()
      reads this, cache, cache.store
    {
      && cache.Valid()
      && (forall e | e in cache.store.messages :: MayStay(cache.services, e.data, orgs))
    }

    method AddStateInfo(m: SignedMessage, now: int) returns (added: bool)
      requires Valid() && m.content.StateInfo?
      modifies cache`index, cache.store`messages
      ensures Valid()
      ensures added <==> Accepts(Comparator(0), old(cache.store.messages), m) && MayStay(cache.services, m, orgs)
      ensures cache.store.messages == if added then AddTo(Comparator(0), old(cache.store.messages), m, now).messages
                                      else old(cache.store.messages)
    {
      ghost var before := cache.store.messages;
      added := cache.Add(m, orgs, now);
      if added {
        AcceptedAdd(Comparator(0), before, m, now);
        FilterMembers(Not(Superseded(Comparator(0), m)), before);
      }
    }

    /** The periodic sweep: messages of peers that have left the membership go, and nothing else. */
    method SweepDeparted(isMember: PkiId -> bool)
      requires Valid()
      modifies cache`index, cache.store`messages
      ensures Valid()
      ensures cache.store.messages == Filter(Not(Purged(Departed(isMember))), old(cache.store.messages))
      ensures forall e :: e in cache.store.messages <==>
                          e in old(cache.store.messages) && isMember(e.data.content.statePki)
    {
      FilterMembers(Not(Purged(Departed(isMember))), cache.store.messages);
      cache.Purge(Departed(isMember));
    }

    /** `peers` are the organisations of the join message; `installedAt` and `receivedAt` are the two
        clock readings its sequence-number comparison makes, one for each join message. */
    method ConfigureChannel(peers: seq<Org>, installedAt: uint64, receivedAt: uint64)
      requires Valid()
      modifies this, cache`index, cache.store`messages
      ensures Valid()
      ensures peers != [] && installedAt <= receivedAt ==>
                && orgs == peers && joinMsg == Some(peers)
                && (forall e :: e in cache.store.messages <==>
                                e in old(cache.store.messages) && MayStay(cache.services, e.data, peers))
                && cache.store.messages == Filter(Not(Purged(Rejected(cache.services, peers))),
                                                  old(cache.store.messages))
      ensures peers == [] || installedAt > receivedAt ==>
                orgs == old(orgs) && cache.store.messages == old(cache.store.messages)
      ensures joinMsg == if peers != [] && (old(joinMsg) == None || installedAt <= receivedAt)
                         then Some(peers) else old(joinMsg)
    {
      if |peers| == 0 {
        return;
      }
      if joinMsg == None {
        joinMsg := Some(peers);
      }
      if installedAt > receivedAt {
        return;
      }
      orgs, joinMsg := peers, Some(peers);
      cache.PruneRejected(peers);
    }
  }
}
