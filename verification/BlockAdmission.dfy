/** How a channel of gossip/channel.go admits blocks: pushed ones, pulled ones and its own, all through
    one message store; which of them reach the channel's subscribers, and which it serves to others. */
module BlockAdmission {
  import opened Sequences
  import opened Messages
  import opened Policy
  import opened MessageStores
  import opened StoreConvergence
  import StoreLifecycle
  import opened PullEngines
  import opened Selection

  type Verifier = SignedMessage -> bool

  /** `delivered` is the log of block numbers handed to `DeMultiplex`, `own` the log of those that
      `AddToMsgStore` was the first to put in the store. */
  datatype Blocks = Blocks(entries: seq<Entry>, delivered: seq<int>, own: seq<int>)

  predicate VerifyBlock(verify: Verifier, m: SignedMessage) {
    m.content.DataMsg? && verify(m)
  }

  /** Put a block in the store and deliver it if the store took it. */
  function Deliver(storageSize: int, b: Blocks, m: SignedMessage, now: int): Blocks
    requires m.content.DataMsg?
  {
    var r := AddTo(Comparator(storageSize), b.entries, m, now);
    b.(entries := r.messages, delivered := if r.added then b.delivered + [m.content.seqNum] else b.delivered)
  }

  /** A pushed data message, with or without payload. */
  function Push(storageSize: int, b: Blocks, m: SignedMessage, verify: Verifier, now: int): Blocks {
    if VerifyBlock(verify, m) && Accepts(Comparator(storageSize), b.entries, m) then
      Deliver(storageSize, b, m, now)
    else
      b
  }

  datatype Intake = Intake(entries: seq<Entry>, kept: seq<SignedMessage>, evicted: seq<Entry>, aborted: bool)

  predicate IsBad(chainID: string, item: Option<SignedMessage>, verify: Verifier) {
    item.None? || item.value.channel != chainID || !VerifyBlock(verify, item.value)
  }

  /** One more item of a pulled update. An item that cannot be parsed (None), belongs to another channel
      or fails verification ends the whole update. */
  function TakeOne(storageSize: int, chainID: string, t: Intake, item: Option<SignedMessage>,
                   verify: Verifier, now: int): Intake
  {
    if t.aborted then
      t
    else if IsBad(chainID, item, verify) then
      t.(aborted := true)
    else
      var r := AddTo(Comparator(storageSize), t.entries, item.value, now);
      Intake(r.messages, if r.added then t.kept + [item.value] else t.kept, t.evicted + r.evicted, false)
  }

  function TakeIn(storageSize: int, chainID: string, entries: seq<Entry>, items: seq<Option<SignedMessage>>,
                  verify: Verifier, clock: Clock): Intake
  {
    if items == [] then
      Intake(entries, [], [], false)
    else
      var n := |items| - 1;
      TakeOne(storageSize, chainID, TakeIn(storageSize, chainID, entries, items[..n], verify, clock),
              items[n], verify, clock(n))
  }

  function NumbersOf(s: seq<SignedMessage>): seq<int> {
    if s == [] then [] else NumbersOf(s[..|s| - 1]) + match s[|s| - 1].content case DataMsg(x, _) => [x] case _ => []
  }

  /** A pulled update: what it put in the store is delivered, unless the update was aborted. */
  function Pull(storageSize: int, chainID: string, b: Blocks, items: seq<Option<SignedMessage>>,
                verify: Verifier, clock: Clock): Blocks
  {
    var t := TakeIn(storageSize, chainID, b.entries, items, verify, clock);
    b.(entries := t.entries, delivered := if t.aborted then b.delivered else b.delivered + NumbersOf(t.kept))
  }

  function AddOwn(storageSize: int, b: Blocks, m: SignedMessage, now: int): Blocks
    requires m.content.DataMsg?
  {
    var r := AddTo(Comparator(storageSize), b.entries, m, now);
    b.(entries := r.messages, own := if r.added then b.own + [m.content.seqNum] else b.own)
  }

  lemma {:induction false} AbortedStaysAborted(storageSize: int, chainID: string, entries: seq<Entry>,
      items: seq<Option<SignedMessage>>, n: nat, verify: Verifier, clock: Clock)
    requires n <= |items| && TakeIn(storageSize, chainID, entries, items[..n], verify, clock).aborted
    ensures TakeIn(storageSize, chainID, entries, items, verify, clock) ==
            TakeIn(storageSize, chainID, entries, items[..n], verify, clock)
  {
    if n == |items| {
      assert items[..n] == items;
    } else {
      var front := items[..|items| - 1];
      assert front[..n] == items[..n];
      AbortedStaysAborted(storageSize, chainID, entries, front, n, verify, clock);
    }
  }

  lemma TakeInNext(storageSize: int, chainID: string, entries: seq<Entry>,
      items: seq<Option<SignedMessage>>, i: nat, verify: Verifier, clock: Clock)
    requires i < |items|
    ensures TakeIn(storageSize, chainID, entries, items[..i + 1], verify, clock) ==
            TakeOne(storageSize, chainID, TakeIn(storageSize, chainID, entries, items[..i], verify, clock),
                    items[i], verify, clock(i))
    ensures TakeIn(storageSize, chainID, entries, items[..i + 1], verify, clock).aborted ==>
              TakeIn(storageSize, chainID, entries, items, verify, clock) ==
              TakeIn(storageSize, chainID, entries, items[..i + 1], verify, clock)
  {
    assert items[..i + 1][..i] == items[..i];
    if TakeIn(storageSize, chainID, entries, items[..i + 1], verify, clock).aborted {
      AbortedStaysAborted(storageSize, chainID, entries, items, i + 1, verify, clock);
    }
  }

  lemma {:induction false} TakenInAreBlocks(storageSize: int, chainID: string, entries: seq<Entry>,
      items: seq<Option<SignedMessage>>, verify: Verifier, clock: Clock)
    ensures forall m | m in TakeIn(storageSize, chainID, entries, items, verify, clock).kept :: m.content.DataMsg?
  {
    if items == [] {
    } else {
      TakenInAreBlocks(storageSize, chainID, entries, items[..|items| - 1], verify, clock);
    }
  }

  // ----- The blocks a channel serves -----

  const DIGITS := "0123456789"

  function Decimal(n: nat): string {
    if n < 10 then [DIGITS[n]] else Decimal(n / 10) + [DIGITS[n % 10]]
  }

  /** The item a block goes by in the pull protocol. */
  const BLOCK_ID: Extractor := (m: SignedMessage) => if m.content.DataMsg? then Decimal(m.content.seqNum) else ""

  function NamesOf(gone: seq<Entry>): set<Item> {
    set g | g in gone :: BLOCK_ID(g.data)
  }

  /** The invalidation trigger and the expiry callback both take the message from the puller. */
  function Dropped(e: Engine, gone: seq<Entry>): Engine {
    e.(itemID2Msg := e.itemID2Msg - NamesOf(gone))
  }

  lemma DroppedConcat(e: Engine, gone: seq<Entry>, more: seq<Entry>)
    ensures Dropped(Dropped(e, gone), more) == Dropped(e, gone + more)
  {
    assert NamesOf(gone + more) == NamesOf(gone) + NamesOf(more);
  }

  /** A channel with its block puller. `forwarded` is the log of messages passed on, `local` holds the
      numbers of all blocks given to `AddToMsgStore`. */
  datatype Node = Node(blocks: Blocks, puller: Engine, forwarded: seq<SignedMessage>, local: set<int>)

  /** A pushed block that is delivered is also forwarded and from then on served. */
  function Pushed(storageSize: int, n: Node, m: SignedMessage, verify: Verifier, now: int): Node {
    if VerifyBlock(verify, m) && Accepts(Comparator(storageSize), n.blocks.entries, m) then
      var r := AddTo(Comparator(storageSize), n.blocks.entries, m, now);
      n.(blocks := Push(storageSize, n.blocks, m, verify, now),
         puller := if r.added then Added(BLOCK_ID, Dropped(n.puller, r.evicted), m) else Dropped(n.puller, r.evicted),
         forwarded := if r.added then n.forwarded + [m] else n.forwarded)
    else
      n
  }

  /** A pulled update: unless it was aborted, the pull mediator is handed what the store took. */
  function Pulled(storageSize: int, chainID: string, n: Node, items: seq<Option<SignedMessage>>,
                  verify: Verifier, clock: Clock, nonce: Nonce): Node
  {
    var t := TakeIn(storageSize, chainID, n.blocks.entries, items, verify, clock);
    var dropped := Dropped(n.puller, t.evicted);
    n.(blocks := Pull(storageSize, chainID, n.blocks, items, verify, clock),
       puller := if t.aborted then dropped else OnRes(BLOCK_ID, dropped, t.kept, nonce))
  }

  /** The puller is given the channel's own block whether the store took it or not. */
  function GivenOwn(storageSize: int, n: Node, m: SignedMessage, now: int): Node
    requires m.content.DataMsg?
  {
    var r := AddTo(Comparator(storageSize), n.blocks.entries, m, now);
    n.(blocks := AddOwn(storageSize, n.blocks, m, now),
       puller := Added(BLOCK_ID, Dropped(n.puller, r.evicted), m), local := n.local + {m.content.seqNum})
  }

  function Swept(ttl: int, n: Node, clock: Clock): Node {
    var r := SweepOf(n.blocks.entries, ttl, clock);
    n.(blocks := n.blocks.(entries := r.messages), puller := Dropped(n.puller, r.calledBack))
  }

  class GossipChannel {
    const chainID: string
    const storageSize: int
    const blockMsgStore: MessageStore
    const blocksPuller: PullEngine
    ghost var delivered: seq<int>
    ghost var own: seq<int>
    ghost var forwarded: seq<SignedMessage>
    ghost var local: set<int>

    constructor (chainID: string, storageSize: int, blockTTL: int)
      ensures this.chainID == chainID && this.storageSize == storageSize && blockMsgStore.msgTTL == blockTTL
      ensures fresh(blockMsgStore) && fresh(blocksPuller)
      ensures Valid() && State() == Node(Blocks([], [], []), IDLE, [], {})
    {
      this.chainID, this.storageSize := chainID, storageSize;
      blockMsgStore := new MessageStore(Comparator(storageSize), blockTTL);
      blocksPuller := new PullEngine(BLOCK_ID);
      delivered, own, forwarded, local := [], [], [], {};
    }

    ghost predicate Valid() {
      blockMsgStore.policy == Comparator(storageSize) && blocksPuller.idOf == BLOCK_ID
    }

    ghost function State(): Node
      reads this, blockMsgStore, blocksPuller
    {
      Node(Blocks(blockMsgStore.messages, delivered, own), blocksPuller.State(), forwarded, local)
    }

    /** The invalidation trigger, called for every entry in turn. */
    method RemoveFromPuller(gone: seq<Entry>)
      modifies blocksPuller
      ensures blocksPuller.State() == Dropped(old(blocksPuller.State()), gone)
    {
      ghost var before := blocksPuller.State();
      for i := 0 to |gone|
        invariant blocksPuller.State() == Dropped(before, gone[..i])
      {
        assert gone[..i + 1] == gone[..i] + [gone[i]];
        DroppedConcat(before, gone[..i], [gone[i]]);
        blocksPuller.Remove(BLOCK_ID(gone[i].data));
      }
      assert gone[..|gone|] == gone;
    }

    /** The data-message branch of `HandleMessage`; `verify` is the block verification service. */
    method HandleDataMsg(m: SignedMessage, verify: Verifier, now: int)
      requires Valid() && (m.content.DataMsg? || m.content.EmptyDataMsg?)
      modifies this, blockMsgStore`messages, blocksPuller
      ensures State() == Pushed(storageSize, old(State()), m, verify, now)
    {
      if m.content.EmptyDataMsg? {
        return;
      }
      var valid := blockMsgStore.CheckValid(m);
      if !valid {
        return;
      }
      if !VerifyBlock(verify, m) {
        return;
      }
      var added, evicted := blockMsgStore.Add(m, now);
      RemoveFromPuller(evicted);
      if added {
        forwarded := forwarded + [m];
        delivered := delivered + [m.content.seqNum];
        blocksPuller.Add(m);
      }
    }

    /** The data-update part of the pull branch of `HandleMessage`. The validity check looks at the update
        itself, not at the item, and so never rejects anything. */
    method HandleDataUpdate(update: SignedMessage, items: seq<Option<SignedMessage>>, verify: Verifier,
                            clock: Clock, nonce: Nonce)
      requires Valid() && FactOf(update) == None
      modifies this, blockMsgStore`messages, blocksPuller
      ensures State() == Pulled(storageSize, chainID, old(State()), items, verify, clock, nonce)
    {
      ghost var before, puller := blockMsgStore.messages, blocksPuller.State();
      ghost var gone: seq<Entry> := [];
      var filtered: seq<SignedMessage> := [];
      for i := 0 to |items|
        invariant TakeIn(storageSize, chainID, before, items[..i], verify, clock) ==
                  Intake(blockMsgStore.messages, filtered, gone, false)
        invariant blocksPuller.State() == Dropped(puller, gone)
        invariant delivered == old(delivered) && own == old(own) && forwarded == old(forwarded) && local == old(local)
      {
        TakeInNext(storageSize, chainID, before, items, i, verify, clock);
        ghost var stopped := Intake(blockMsgStore.messages, filtered, gone, true);
        if items[i].None? || items[i].value.channel != chainID {
          assert TakeIn(storageSize, chainID, before, items, verify, clock) == stopped;
          return;
        }
        AcceptsIffUnsettled(storageSize, blockMsgStore.messages, update);
        var valid := blockMsgStore.CheckValid(update);
        assert valid;
        if !valid || !VerifyBlock(verify, items[i].value) {
          assert TakeIn(storageSize, chainID, before, items, verify, clock) == stopped;
          return;
        }
        var added, evicted := blockMsgStore.Add(items[i].value, clock(i));
        RemoveFromPuller(evicted);
        DroppedConcat(puller, gone, evicted);
        gone := gone + evicted;
        if !added {
          continue;
        }
        filtered := filtered + [items[i].value];
      }
      assert items[..|items|] == items;
      TakenInAreBlocks(storageSize, chainID, before, items, verify, clock);
      ParsedIntact(filtered);
      var consumed := blocksPuller.HandleUpdate(Intact(filtered), nonce);
      ConsumeItems(consumed);
    }

    /** The message consumer of the pull mediator, called for every item. */
    method ConsumeItems(items: seq<SignedMessage>)
      requires forall m | m in items :: m.content.DataMsg?
      modifies this`delivered
      ensures delivered == old(delivered) + NumbersOf(items)
    {
      for i := 0 to |items|
        invariant delivered == old(delivered) + NumbersOf(items[..i])
      {
        assert items[..i + 1][..i] == items[..i];
        assert items[i] in items;
        delivered := delivered + [items[i].content.seqNum];
      }
      assert items[..|items|] == items;
    }

    method AddToMsgStore(m: SignedMessage, now: int)
      requires Valid() && m.content.DataMsg?
      modifies this, blockMsgStore`messages, blocksPuller
      ensures State() == GivenOwn(storageSize, old(State()), m, now)
    {
      var added, evicted := blockMsgStore.Add(m, now);
      RemoveFromPuller(evicted);
      if added {
        own := own + [m.content.seqNum];
      }
      local := local + {m.content.seqNum};
      blocksPuller.Add(m);
    }

    /** One expiry pass of the block store, with its callbacks. */
    method ExpireBlocks(clock: Clock)
      requires Valid()
      modifies blockMsgStore, blocksPuller
      ensures State() == Swept(blockMsgStore.msgTTL, old(State()), clock)
    {
      var calledBack, _ := blockMsgStore.ExpireMessages(clock);
      RemoveFromPuller(calledBack);
    }
  }

  // ----- At-most-once delivery over whole runs -----

  datatype Op =
    | PushOp(m: SignedMessage, verify: Verifier, now: int)
    | PullOp(items: seq<Option<SignedMessage>>, verify: Verifier, clock: Clock)
    | OwnOp(m: SignedMessage, now: int)
    | SweepOp(clock: Clock)

  datatype Config = Config(storageSize: int, chainID: string, ttl: int)

  function Step(c: Config, b: Blocks, op: Op): Blocks {
    match op
    case PushOp(m, verify, now) => Push(c.storageSize, b, m, verify, now)
    case PullOp(items, verify, clock) => Pull(c.storageSize, c.chainID, b, items, verify, clock)
    case OwnOp(m, now) => if m.content.DataMsg? then AddOwn(c.storageSize, b, m, now) else b
    case SweepOp(clock) => b.(entries := SweepOf(b.entries, c.ttl, clock).messages)
  }

  function Run(c: Config, b: Blocks, ops: seq<Op>): Blocks {
    if ops == [] then b else Step(c, Run(c, b, ops[..|ops| - 1]), ops[|ops| - 1])
  }

  /** No expiry pass of the run physically removes an entry; it may mark entries. */
  predicate NothingRemoved(c: Config, b: Blocks, ops: seq<Op>) {
    ops == [] ||
    (&& NothingRemoved(c, b, ops[..|ops| - 1])
     && (ops[|ops| - 1].SweepOp? ==>
           SweepOf(Run(c, b, ops[..|ops| - 1]).entries, c.ttl, ops[|ops| - 1].clock).removed == []))
  }

  /** The store would turn away block number `x`. */
  predicate TurnedAway(storageSize: int, entries: seq<Entry>, x: int) {
    0 <= x < TWO_64 && Settled(Window(storageSize), Facts(entries), Block(x))
  }

  /** Everything delivered or added by the channel itself is turned away from now on, nothing was
      delivered twice, and nothing of the channel's own was delivered. */
  ghost predicate Once(storageSize: int, b: Blocks) {
    && Compatible(storageSize, b.entries)
    && (forall x | x in b.delivered || x in b.own :: TurnedAway(storageSize, b.entries, x))
    && (forall i, j | 0 <= i < j < |b.delivered| :: b.delivered[i] != b.delivered[j])
    && (forall x | x in b.delivered :: x !in b.own)
  }

  lemma AddTurnsAway(storageSize: int, entries: seq<Entry>, m: SignedMessage, now: int)
    requires Compatible(storageSize, entries) && m.content.DataMsg?
    ensures var r := AddTo(Comparator(storageSize), entries, m, now);
            && Compatible(storageSize, r.messages)
            && (r.added <==> !TurnedAway(storageSize, entries, m.content.seqNum))
            && TurnedAway(storageSize, r.messages, m.content.seqNum)
            && (forall x | TurnedAway(storageSize, entries, x) :: TurnedAway(storageSize, r.messages, x))
  {
    AddKeepsCompatible(storageSize, entries, m, now);
    AddAbsorbs(storageSize, entries, m, now);
    AddAgreesWithCheckValid(Comparator(storageSize), entries, m, now);
    AcceptsIffUnsettled(storageSize, entries, m);
    forall x | TurnedAway(storageSize, entries, x)
      ensures Settled(Window(storageSize), Absorb(Window(storageSize), Facts(entries), FactOf(m).value), Block(x))
    {
      AbsorbKeepsSettled(Window(storageSize), Facts(entries), FactOf(m).value, Block(x));
    }
  }

  lemma DeliverOnce(storageSize: int, b: Blocks, m: SignedMessage, now: int)
    requires Once(storageSize, b) && m.content.DataMsg?
    ensures var after := Deliver(storageSize, b, m, now);
            && Once(storageSize, after)
            && (forall x | x in after.delivered :: x in b.delivered || !TurnedAway(storageSize, b.entries, x))
            && (forall x | TurnedAway(storageSize, b.entries, x) :: TurnedAway(storageSize, after.entries, x))
  {
    AddTurnsAway(storageSize, b.entries, m, now);
  }

  /** The state if everything taken in so far were delivered at once. */
  function Delivering(b: Blocks, t: Intake): Blocks {
    b.(entries := t.entries, delivered := b.delivered + NumbersOf(t.kept))
  }

  lemma DeliveringNext(storageSize: int, chainID: string, b: Blocks, t: Intake, m: SignedMessage,
                       verify: Verifier, now: int)
    requires !t.aborted && m.channel == chainID && VerifyBlock(verify, m)
    ensures Delivering(b, TakeOne(storageSize, chainID, t, Some(m), verify, now)) ==
            Deliver(storageSize, Delivering(b, t), m, now)
  {
    assert (t.kept + [m])[..|t.kept|] == t.kept;
    Associate(b.delivered, NumbersOf(t.kept), [m.content.seqNum]);
  }

  /** A pushed block is delivered exactly if it verifies and the store does not turn its number away;
      so a number can be delivered again once a removal has taken away what turned it down. */
  lemma PushDelivers(storageSize: int, b: Blocks, m: SignedMessage, verify: Verifier, now: int)
    requires Compatible(storageSize, b.entries) && m.content.DataMsg?
    ensures Push(storageSize, b, m, verify, now).delivered ==
            if verify(m) && !TurnedAway(storageSize, b.entries, m.content.seqNum)
            then b.delivered + [m.content.seqNum] else b.delivered
  {
    AddTurnsAway(storageSize, b.entries, m, now);
    AcceptsIffUnsettled(storageSize, b.entries, m);
  }

  lemma {:induction false} TakeInOnce(storageSize: int, chainID: string, b: Blocks,
      items: seq<Option<SignedMessage>>, verify: Verifier, clock: Clock)
    requires Once(storageSize, b)
    ensures var after := Delivering(b, TakeIn(storageSize, chainID, b.entries, items, verify, clock));
            && Once(storageSize, after)
            && (forall x | x in after.delivered :: x in b.delivered || !TurnedAway(storageSize, b.entries, x))
            && (forall x | TurnedAway(storageSize, b.entries, x) :: TurnedAway(storageSize, after.entries, x))
  {
    if items == [] {
      assert Delivering(b, Intake(b.entries, [], [], false)) == b;
    } else {
      TakeInOnce(storageSize, chainID, b, items[..|items| - 1], verify, clock);
      var t := TakeIn(storageSize, chainID, b.entries, items[..|items| - 1], verify, clock);
      var item := items[|items| - 1];
      if !t.aborted && item.Some? && item.value.channel == chainID && VerifyBlock(verify, item.value) {
        var now := clock(|items| - 1);
        DeliverOnce(storageSize, Delivering(b, t), item.value, now);
        DeliveringNext(storageSize, chainID, b, t, item.value, verify, now);
      }
    }
  }

  // ----- Exactly which blocks an update delivers -----

  /** The first `j` items are good, and the next one, if there is one, is bad. */
  ghost predicate GoodUpTo(chainID: string, items: seq<Option<SignedMessage>>, verify: Verifier, j: nat) {
    && j <= |items|
    && (forall i | 0 <= i < j :: !IsBad(chainID, items[i], verify))
    && (j < |items| ==> IsBad(chainID, items[j], verify))
  }

  lemma {:induction false} GoodIsNotAborted(storageSize: int, chainID: string, entries: seq<Entry>,
      items: seq<Option<SignedMessage>>, verify: Verifier, clock: Clock)
    requires forall i | 0 <= i < |items| :: !IsBad(chainID, items[i], verify)
    ensures !TakeIn(storageSize, chainID, entries, items, verify, clock).aborted
  {
    if items == [] {
    } else {
      GoodIsNotAborted(storageSize, chainID, entries, items[..|items| - 1], verify, clock);
    }
  }

  /** An update is aborted exactly if one of its items is bad; what it took in is what the items in front
      of the first bad one bring. */
  lemma TakenUpTo(storageSize: int, chainID: string, entries: seq<Entry>, items: seq<Option<SignedMessage>>,
                  verify: Verifier, clock: Clock, j: nat)
    requires GoodUpTo(chainID, items, verify, j)
    ensures TakeIn(storageSize, chainID, entries, items, verify, clock) ==
            TakeIn(storageSize, chainID, entries, items[..j], verify, clock).(aborted := j < |items|)
  {
    GoodIsNotAborted(storageSize, chainID, entries, items[..j], verify, clock);
    if j == |items| {
      assert items[..j] == items;
    } else {
      TakeInNext(storageSize, chainID, entries, items, j, verify, clock);
    }
  }

  lemma {:induction false} FirstBad(chainID: string, items: seq<Option<SignedMessage>>,
                                    verify: Verifier) returns (j: nat)
    ensures GoodUpTo(chainID, items, verify, j)
  {
    if items == [] {
      j := 0;
    } else {
      j := FirstBad(chainID, items[..|items| - 1], verify);
      if j == |items| - 1 && !IsBad(chainID, items[j], verify) {
        j := j + 1;
      }
    }
  }

  lemma AbortedIffBad(storageSize: int, chainID: string, entries: seq<Entry>, items: seq<Option<SignedMessage>>,
                      verify: Verifier, clock: Clock)
    ensures TakeIn(storageSize, chainID, entries, items, verify, clock).aborted <==>
            !forall i | 0 <= i < |items| ::
               items[i].Some? && items[i].value.channel == chainID
               && items[i].value.content.DataMsg? && verify(items[i].value)
  {
    var j := FirstBad(chainID, items, verify);
    TakenUpTo(storageSize, chainID, entries, items, verify, clock, j);
    GoodIsNotAborted(storageSize, chainID, entries, items[..j], verify, clock);
  }

  function BlocksOf(items: seq<Option<SignedMessage>>): set<Fact> {
    set i | i in items && i.Some? && i.value.content.DataMsg? :: Block(i.value.content.seqNum)
  }

  /** The block numbers that are new when their turn comes: neither present in the store or among the
      items before, nor more than the window below one that is. */
  function Fresh(storageSize: int, known: set<Fact>, items: seq<Option<SignedMessage>>): seq<int> {
    if items == [] then
      []
    else
      var front, last := items[..|items| - 1], items[|items| - 1];
      Fresh(storageSize, known, front) +
      if last.None? || !last.value.content.DataMsg?
         || Settled(Window(storageSize), known + BlocksOf(front), Block(last.value.content.seqNum))
      then [] else [last.value.content.seqNum]
  }

  ghost predicate SameBlocksSettled(storageSize: int, s: set<Fact>, t: set<Fact>) {
    forall x: uint64 :: Settled(Window(storageSize), s, Block(x)) <==> Settled(Window(storageSize), t, Block(x))
  }

  lemma SettledByUnion(window: nat, s: set<Fact>, x: Fact, z: Fact)
    ensures Settled(window, s + {x}, z) <==> Settled(window, s, z) || Settled(window, {x}, z)
  {
  }

  lemma SameSettledAbsorb(storageSize: int, s: set<Fact>, t: set<Fact>, x: Fact)
    requires SameBlocksSettled(storageSize, s, t)
    ensures SameBlocksSettled(storageSize, Absorb(Window(storageSize), s, x), t + {x})
  {
    var window := Window(storageSize);
    forall z: uint64
      ensures Settled(window, Absorb(window, s, x), Block(z)) <==> Settled(window, t + {x}, Block(z))
    {
      AbsorbSettles(window, s, x, Block(z));
      SettledByUnion(window, s, x, Block(z));
      SettledByUnion(window, t, x, Block(z));
    }
  }

  lemma GoodItemTaken(storageSize: int, entries: seq<Entry>, known: set<Fact>, m: SignedMessage, now: int)
    requires Compatible(storageSize, entries) && m.content.DataMsg?
    requires SameBlocksSettled(storageSize, Facts(entries), known)
    ensures var r, x := AddTo(Comparator(storageSize), entries, m, now), Block(m.content.seqNum);
            && Compatible(storageSize, r.messages) && (r.added <==> !Settled(Window(storageSize), known, x))
            && SameBlocksSettled(storageSize, Facts(r.messages), known + {x})
  {
    AddTurnsAway(storageSize, entries, m, now);
    AddAbsorbs(storageSize, entries, m, now);
    SameSettledAbsorb(storageSize, Facts(entries), known, Block(m.content.seqNum));
  }

  lemma BlocksOfNext(known: set<Fact>, items: seq<Option<SignedMessage>>, n: nat)
    requires |items| == n + 1 && items[n].Some? && items[n].value.content.DataMsg?
    ensures known + BlocksOf(items) == known + BlocksOf(items[..n]) + {Block(items[n].value.content.seqNum)}
  {
    assert items == items[..n] + [items[n]];
  }

  /** After good items the store turns away what they and the store before them settle, and what it took
      from them are the fresh ones. */
  lemma {:induction false} GoodItemsTakenIn(storageSize: int, chainID: string, entries: seq<Entry>,
      items: seq<Option<SignedMessage>>, verify: Verifier, clock: Clock)
    requires Compatible(storageSize, entries)
    requires forall i | 0 <= i < |items| :: !IsBad(chainID, items[i], verify)
    ensures var t := TakeIn(storageSize, chainID, entries, items, verify, clock);
            && Compatible(storageSize, t.entries)
            && SameBlocksSettled(storageSize, Facts(t.entries), Facts(entries) + BlocksOf(items))
            && NumbersOf(t.kept) == Fresh(storageSize, Facts(entries), items)
  {
    if items == [] {
      assert Facts(entries) + BlocksOf(items) == Facts(entries);
    } else {
      var n := |items| - 1;
      var front, m := items[..n], items[n].value;
      GoodItemsTakenIn(storageSize, chainID, entries, front, verify, clock);
      GoodIsNotAborted(storageSize, chainID, entries, front, verify, clock);
      var t := TakeIn(storageSize, chainID, entries, front, verify, clock);
      GoodItemTaken(storageSize, t.entries, Facts(entries) + BlocksOf(front), m, clock(n));
      BlocksOfNext(Facts(entries), items, n);
      assert (t.kept + [m])[..|t.kept|] == t.kept;
    }
  }

  /** Exactly what a pulled update delivers: nothing if some item is bad, and otherwise the fresh block
      numbers among its items, in order. */
  lemma PullDelivers(storageSize: int, chainID: string, b: Blocks, items: seq<Option<SignedMessage>>,
                     verify: Verifier, clock: Clock)
    requires Compatible(storageSize, b.entries)
    ensures Pull(storageSize, chainID, b, items, verify, clock).delivered ==
            if forall i | 0 <= i < |items| ::
                 items[i].Some? && items[i].value.channel == chainID
                 && items[i].value.content.DataMsg? && verify(items[i].value)
            then b.delivered + Fresh(storageSize, Facts(b.entries), items)
            else b.delivered
  {
    AbortedIffBad(storageSize, chainID, b.entries, items, verify, clock);
    if forall i | 0 <= i < |items| :: !IsBad(chainID, items[i], verify) {
      GoodItemsTakenIn(storageSize, chainID, b.entries, items, verify, clock);
    }
  }

  lemma Undelivered(storageSize: int, b: Blocks, t: Intake)
    requires Once(storageSize, Delivering(b, t))
    ensures Once(storageSize, b.(entries := t.entries))
  {
    forall i | 0 <= i < |b.delivered|
      ensures Delivering(b, t).delivered[i] == b.delivered[i]
    {
    }
  }

  lemma DistinctParts(s: seq<int>, t: seq<int>)
    requires forall i, j | 0 <= i < j < |s + t| :: (s + t)[i] != (s + t)[j]
    ensures forall x | x in t :: x !in s
  {
    forall i, j | 0 <= i < |s| && 0 <= j < |t|
      ensures s[i] != t[j]
    {
      assert (s + t)[i] != (s + t)[|s| + j];
    }
  }

  lemma AddedMembers(storageSize: int, entries: seq<Entry>, m: SignedMessage, now: int)
    ensures var r := AddTo(Comparator(storageSize), entries, m, now);
            && (forall e | e in r.messages :: e in entries || e == Entry(m, now, false))
            && (r.added ==> Entry(m, now, false) in r.messages)
            && (forall e | e in r.evicted :: e in entries)
  {
    var policy := Comparator(storageSize);
    var n := Reach(policy, entries, m);
    FilterMembers(Not(Superseded(policy, m)), entries[..n]);
    FilterMembers(Superseded(policy, m), entries[..n]);
  }

  /** The message is an item of the update that was parsed, belongs to the channel, carries a block and was
      verified. */
  predicate IsSound(chainID: string, items: seq<Option<SignedMessage>>, verify: Verifier, m: SignedMessage) {
    Some(m) in items && m.channel == chainID && m.content.DataMsg? && verify(m)
  }

  lemma TakeOneIsSound(storageSize: int, chainID: string, t: Intake, item: Option<SignedMessage>, verify: Verifier,
                       now: int)
    ensures var r := TakeOne(storageSize, chainID, t, item, verify, now);
            && (forall e | e in r.entries :: e in t.entries || IsSound(chainID, [item], verify, e.data))
            && (forall m | m in r.kept :: m in t.kept || IsSound(chainID, [item], verify, m))
  {
    if !t.aborted && !IsBad(chainID, item, verify) {
      AddedMembers(storageSize, t.entries, item.value, now);
      assert Some(item.value) in [item];
    }
  }

  lemma SoundInMore(chainID: string, items: seq<Option<SignedMessage>>, n: nat, verify: Verifier)
    requires |items| == n + 1
    ensures forall m | IsSound(chainID, items[..n], verify, m) :: IsSound(chainID, items, verify, m)
    ensures forall m | IsSound(chainID, [items[n]], verify, m) :: IsSound(chainID, items, verify, m)
  {
    assert items == items[..n] + [items[n]];
  }

  /** Whatever an update puts in the store, or hands on, is a sound item of it. */
  lemma {:induction false} TakenInIsSound(storageSize: int, chainID: string, entries: seq<Entry>,
      items: seq<Option<SignedMessage>>, verify: Verifier, clock: Clock)
    ensures var t := TakeIn(storageSize, chainID, entries, items, verify, clock);
            && (forall e | e in t.entries :: e in entries || IsSound(chainID, items, verify, e.data))
            && (forall m | m in t.kept :: IsSound(chainID, items, verify, m))
  {
    if items == [] {
    } else {
      var n := |items| - 1;
      var t := TakeIn(storageSize, chainID, entries, items[..n], verify, clock);
      TakenInIsSound(storageSize, chainID, entries, items[..n], verify, clock);
      TakeOneIsSound(storageSize, chainID, t, items[n], verify, clock(n));
      SoundInMore(chainID, items, n, verify);
    }
  }

  lemma {:induction false} NumbersComeFrom(kept: seq<SignedMessage>, x: int) returns (m: SignedMessage)
    requires x in NumbersOf(kept)
    ensures m in kept && m.content.DataMsg? && m.content.seqNum == x
  {
    var n := |kept| - 1;
    if x in NumbersOf(kept[..n]) {
      m := NumbersComeFrom(kept[..n], x);
    } else {
      m := kept[n];
    }
  }

  /** Every number an update delivers is that of a parsed and verified block of the channel among its items. */
  lemma DeliveredWasVerified(storageSize: int, chainID: string, b: Blocks, items: seq<Option<SignedMessage>>,
                             verify: Verifier, clock: Clock, x: int)
    ensures x in Pull(storageSize, chainID, b, items, verify, clock).delivered ==>
              || x in b.delivered
              || exists m | Some(m) in items ::
                   m.channel == chainID && m.content.DataMsg? && m.content.seqNum == x && verify(m)
  {
    var kept := TakeIn(storageSize, chainID, b.entries, items, verify, clock).kept;
    TakenInIsSound(storageSize, chainID, b.entries, items, verify, clock);
    if x in NumbersOf(kept) {
      var m := NumbersComeFrom(kept, x);
      assert IsSound(chainID, items, verify, m);
    }
  }

  /** One's own block is taken in exactly if its number is not turned away, is not delivered, and is turned away
      from then on: nobody else's block of that number will be delivered. */
  lemma OwnIsTakenIn(storageSize: int, b: Blocks, m: SignedMessage, now: int)
    requires Compatible(storageSize, b.entries) && m.content.DataMsg?
    ensures var after, x := AddOwn(storageSize, b, m, now), m.content.seqNum;
            && after.delivered == b.delivered && TurnedAway(storageSize, after.entries, x)
            && after.own == (if TurnedAway(storageSize, b.entries, x) then b.own else b.own + [x])
            && (!TurnedAway(storageSize, b.entries, x) ==> Entry(m, now, false) in after.entries)
  {
    AddTurnsAway(storageSize, b.entries, m, now);
    AddedMembers(storageSize, b.entries, m, now);
  }

  /** What the store takes from an update reaches the subscribers exactly if no item of the update is bad;
      it takes the fresh numbers in front of the first bad item, and turns them away from then on. */
  lemma StoredIsDeliveredIffNoneIsBad(storageSize: int, chainID: string, b: Blocks, items: seq<Option<SignedMessage>>,
                                      verify: Verifier, clock: Clock, j: nat, x: int)
    requires Once(storageSize, b) && GoodUpTo(chainID, items, verify, j)
    requires x in Fresh(storageSize, Facts(b.entries), items[..j])
    ensures var after := Pull(storageSize, chainID, b, items, verify, clock);
            && Once(storageSize, after) && TurnedAway(storageSize, after.entries, x)
            && (x in after.delivered <==> forall i | 0 <= i < |items| :: !IsBad(chainID, items[i], verify))
  {
    var t := TakeIn(storageSize, chainID, b.entries, items, verify, clock);
    TakenUpTo(storageSize, chainID, b.entries, items, verify, clock, j);
    GoodItemsTakenIn(storageSize, chainID, b.entries, items[..j], verify, clock);
    GoodIsNotAborted(storageSize, chainID, b.entries, items[..j], verify, clock);
    TakeInOnce(storageSize, chainID, b, items, verify, clock);
    Undelivered(storageSize, b, t);
    DistinctParts(b.delivered, NumbersOf(t.kept));
    assert x in Delivering(b, t).delivered;
    assert j == |items| ==> items[..j] == items;
  }

  lemma SameDataSameFacts(s: seq<Entry>, t: seq<Entry>)
    requires Datas(s) == Datas(t)
    ensures Facts(s) == Facts(t)
  {
    forall i | 0 <= i < |s|
      ensures s[i].data == t[i].data
    {
      assert Datas(s)[i] == Datas(t)[i];
    }
    forall e | e in s
      ensures exists f | f in t :: f.data == e.data
    {
      var i :| 0 <= i < |s| && s[i] == e;
      assert t[i] in t;
    }
    forall f | f in t
      ensures exists e | e in s :: e.data == f.data
    {
      var i :| 0 <= i < |t| && t[i] == f;
      assert s[i] in s;
    }
  }

  lemma {:induction false} MarkingKeepsData(entries: seq<Entry>, ttl: int, clock: Clock)
    requires SweepOf(entries, ttl, clock).removed == []
    ensures Datas(SweepOf(entries, ttl, clock).messages) == Datas(entries)
  {
    if entries == [] {
    } else {
      MarkingKeepsData(entries[..|entries| - 1], ttl, clock);
    }
  }

  lemma MarkingKeepsFacts(entries: seq<Entry>, ttl: int, clock: Clock)
    requires SweepOf(entries, ttl, clock).removed == []
    ensures Facts(SweepOf(entries, ttl, clock).messages) == Facts(entries)
  {
    MarkingKeepsData(entries, ttl, clock);
    SameDataSameFacts(entries, SweepOf(entries, ttl, clock).messages);
  }

  /** One step without removal: it keeps the invariant, delivers only what the store did not turn away,
      and whatever the store turned away stays turned away. */
  lemma StepOnce(c: Config, b: Blocks, op: Op)
    requires Once(c.storageSize, b)
    requires op.SweepOp? ==> SweepOf(b.entries, c.ttl, op.clock).removed == []
    ensures var after := Step(c, b, op);
            && Once(c.storageSize, after)
            && (forall x | x in after.delivered :: x in b.delivered || !TurnedAway(c.storageSize, b.entries, x))
            && (forall x | TurnedAway(c.storageSize, b.entries, x) :: TurnedAway(c.storageSize, after.entries, x))
  {
    match op
    case PushOp(m, verify, now) =>
      if VerifyBlock(verify, m) {
        DeliverOnce(c.storageSize, b, m, now);
      }
    case PullOp(items, verify, clock) =>
      TakeInOnce(c.storageSize, c.chainID, b, items, verify, clock);
      Undelivered(c.storageSize, b, TakeIn(c.storageSize, c.chainID, b.entries, items, verify, clock));
    case OwnOp(m, now) =>
      if m.content.DataMsg? {
        AddTurnsAway(c.storageSize, b.entries, m, now);
      }
    case SweepOp(clock) =>
      MarkingKeepsFacts(b.entries, c.ttl, clock);
      StoreLifecycle.SweepIsSubsequence(b.entries, c.ttl, clock, c.storageSize);
  }

  /** In every run without removal, no block number is delivered twice, none first added by the channel
      itself is delivered, and none the store turned away at the start is delivered. */
  lemma {:induction false} AtMostOnce(c: Config, b: Blocks, ops: seq<Op>)
    requires Once(c.storageSize, b) && NothingRemoved(c, b, ops)
    ensures Once(c.storageSize, Run(c, b, ops))
    ensures forall x | x in Run(c, b, ops).delivered :: x in b.delivered || !TurnedAway(c.storageSize, b.entries, x)
    ensures forall x | TurnedAway(c.storageSize, b.entries, x) ::
              TurnedAway(c.storageSize, Run(c, b, ops).entries, x)
  {
    if ops == [] {
    } else {
      AtMostOnce(c, b, ops[..|ops| - 1]);
      StepOnce(c, Run(c, b, ops[..|ops| - 1]), ops[|ops| - 1]);
    }
  }

  /** From an empty channel on: until an entry is removed, the deliveries are distinct, and none of them is
      of a block first added by the channel itself. */
  lemma DeliveredOnceFromStart(c: Config, ops: seq<Op>)
    requires NothingRemoved(c, Blocks([], [], []), ops)
    ensures var b := Run(c, Blocks([], [], []), ops);
            Distinct(b.delivered) && forall x | x in b.delivered :: x !in b.own
  {
    AtMostOnce(c, Blocks([], [], []), ops);
  }

  /** An update with a bad item: the fresh blocks in front of it are in the store but never reach the
      subscribers, neither now nor in any later run without removal. */
  lemma AbortedUpdateIsLost(c: Config, b: Blocks, items: seq<Option<SignedMessage>>, verify: Verifier,
                            clock: Clock, later: seq<Op>, j: nat, x: int)
    requires Once(c.storageSize, b)
    requires GoodUpTo(c.chainID, items, verify, j) && j < |items|
    requires x in Fresh(c.storageSize, Facts(b.entries), items[..j])
    requires NothingRemoved(c, Pull(c.storageSize, c.chainID, b, items, verify, clock), later)
    ensures var after := Pull(c.storageSize, c.chainID, b, items, verify, clock);
            TurnedAway(c.storageSize, after.entries, x) && x !in Run(c, after, later).delivered
  {
    StoredIsDeliveredIffNoneIsBad(c.storageSize, c.chainID, b, items, verify, clock, j, x);
    AtMostOnce(c, Pull(c.storageSize, c.chainID, b, items, verify, clock), later);
  }

  /** The smallest case: a good block followed by an envelope that cannot be parsed, in an empty channel.
      Pushing the block again later does not deliver it either. */
  lemma BlockIsLost(c: Config, m: SignedMessage, verify: Verifier, clock: Clock, now: int)
    requires m.content.DataMsg? && verify(m) && m.channel == c.chainID
    ensures var x := m.content.seqNum;
            var after := Pull(c.storageSize, c.chainID, Blocks([], [], []), [Some(m), None], verify, clock);
            && TurnedAway(c.storageSize, after.entries, x)
            && Run(c, after, [PushOp(m, verify, now)]).delivered == []
  {
    var b, items, ops := Blocks([], [], []), [Some(m), None], [PushOp(m, verify, now)];
    assert items[..1] == [Some(m)] && items[..1][..0] == [] && ops[..0] == [];
    assert Fresh(c.storageSize, Facts(b.entries), items[..1]) == [m.content.seqNum];
    StoredIsDeliveredIffNoneIsBad(c.storageSize, c.chainID, b, items, verify, clock, 1, m.content.seqNum);
    AbortedIffBad(c.storageSize, c.chainID, b.entries, items, verify, clock);
    assert IsBad(c.chainID, items[1], verify);
    var after := Pull(c.storageSize, c.chainID, b, items, verify, clock);
    PushDelivers(c.storageSize, after, m, verify, now);
  }

  lemma SweptTwice(c: Config, b: Blocks, e: Entry, late: int)
    requires b.entries == [e] && !e.expired && late - e.created > 2 * c.ttl && c.ttl >= 0
    ensures var sweep := SweepOp(StoreLifecycle.Standing(late));
            Step(c, Step(c, b, sweep), sweep) == b.(entries := [])
  {
    StoreLifecycle.SweptOnce(c.ttl, e, late);
    StoreLifecycle.SweptOnce(c.ttl, e.(expired := true), late);
  }

  lemma FirstPush(c: Config, b: Blocks, m: SignedMessage, verify: Verifier, now: int)
    requires m.content.DataMsg? && verify(m) && b.entries == []
    ensures Push(c.storageSize, b, m, verify, now)
            == Blocks([Entry(m, now, false)], b.delivered + [m.content.seqNum], b.own)
  {
    assert Reach(Comparator(c.storageSize), [], m) == 0;
  }

  lemma RunNext(c: Config, b: Blocks, ops: seq<Op>, op: Op)
    ensures Run(c, b, ops + [op]) == Step(c, Run(c, b, ops), op)
  {
    assert (ops + [op])[..|ops|] == ops;
  }

  /** The bound on the run is needed: a block that is pushed again after two expiry passes, the second of
      which removes it, is delivered twice. */
  lemma RedeliveredAfterRemoval(c: Config, m: SignedMessage, verify: Verifier)
    requires m.content.DataMsg? && verify(m) && c.ttl >= 0
    ensures var x, late := m.content.seqNum, 2 * c.ttl + 1;
            var sweep := SweepOp(StoreLifecycle.Standing(late));
            Run(c, Blocks([], [], []), [PushOp(m, verify, 0)] + [sweep] + [sweep] + [PushOp(m, verify, late)]).delivered
            == [x, x]
  {
    var late, b := 2 * c.ttl + 1, Blocks([], [], []);
    var push, sweep := PushOp(m, verify, 0), SweepOp(StoreLifecycle.Standing(late));
    var stored := Blocks([Entry(m, 0, false)], [m.content.seqNum], []);
    RunNext(c, b, [], push);
    assert [] + [push] == [push];
    RunNext(c, b, [push], sweep);
    RunNext(c, b, [push] + [sweep], sweep);
    RunNext(c, b, [push] + [sweep] + [sweep], PushOp(m, verify, late));
    FirstPush(c, b, m, verify, 0);
    assert Step(c, b, push) == stored;
    SweptTwice(c, stored, Entry(m, 0, false), late);
    FirstPush(c, stored.(entries := []), m, verify, late);
    assert [m.content.seqNum] + [m.content.seqNum] == [m.content.seqNum, m.content.seqNum];
  }
}
