/** Which blocks a channel offers and serves to its peers: the pull engine of a channel against its block
    store and its deliveries. */
module BlockServing {
  import opened Sequences
  import opened Messages
  import opened Policy
  import opened MessageStores
  import opened StoreConvergence
  import StoreLifecycle
  import opened PullEngines
  import opened BlockAdmission
  import opened PullRound

  // ----- Block numbers and items -----

  lemma DigitsDiffer(a: nat, b: nat)
    requires a < 10 && b < 10
    ensures DIGITS[a] == DIGITS[b] ==> a == b
  {
    assert DIGITS[0] == '0' && DIGITS[1] == '1' && DIGITS[2] == '2' && DIGITS[3] == '3' && DIGITS[4] == '4';
    assert DIGITS[5] == '5' && DIGITS[6] == '6' && DIGITS[7] == '7' && DIGITS[8] == '8' && DIGITS[9] == '9';
  }

  lemma {:induction false} DecimalIsInjective(a: nat, b: nat)
    ensures Decimal(a) != ""
    ensures Decimal(a) == Decimal(b) ==> a == b
    decreases a + b
  {
    if a < 10 && b < 10 {
      DigitsDiffer(a, b);
    } else if a < 10 {
      DecimalIsInjective(b / 10, a);
      assert |Decimal(b)| >= 2;
    } else if b < 10 {
      DecimalIsInjective(a / 10, b);
      assert |Decimal(a)| >= 2;
    } else {
      DecimalIsInjective(a / 10, b / 10);
      var p, q := Decimal(a / 10), Decimal(b / 10);
      if Decimal(a) == Decimal(b) {
        assert Decimal(a)[|p|] == DIGITS[a % 10] && Decimal(b)[|q|] == DIGITS[b % 10];
        assert p == Decimal(a)[..|p|] && q == Decimal(b)[..|q|];
        DigitsDiffer(a % 10, b % 10);
      }
    }
  }

  // ----- Steps of a channel -----

  /** `RoundOp` is anything else the pull engine does: it changes its books, but neither the items nor the
      messages. */
  datatype Op =
    | PushOp(m: SignedMessage, verify: Verifier, now: int)
    | PullOp(items: seq<Option<SignedMessage>>, verify: Verifier, clock: Clock, nonce: Nonce)
    | OwnOp(m: SignedMessage, now: int)
    | SweepOp(clock: Clock)
    | RoundOp(books: Engine)

  function Step(c: Config, n: Node, op: Op): Node {
    match op
    case PushOp(m, verify, now) => Pushed(c.storageSize, n, m, verify, now)
    case PullOp(items, verify, clock, nonce) => Pulled(c.storageSize, c.chainID, n, items, verify, clock, nonce)
    case OwnOp(m, now) => if m.content.DataMsg? then GivenOwn(c.storageSize, n, m, now) else n
    case SweepOp(clock) => Swept(c.ttl, n, clock)
    case RoundOp(books) => n.(puller := books.(state := n.puller.state, itemID2Msg := n.puller.itemID2Msg))
  }

  const EMPTY := Node(Blocks([], [], []), IDLE, [], {})

  function Run(c: Config, ops: seq<Op>): Node {
    if ops == [] then EMPTY else Step(c, Run(c, ops[..|ops| - 1]), ops[|ops| - 1])
  }

  predicate Removes(c: Config, n: Node, op: Op) {
    op.SweepOp? && SweepOf(n.blocks.entries, c.ttl, op.clock).removed != []
  }

  /** No expiry pass of the run physically removes an entry. */
  predicate NothingGone(c: Config, ops: seq<Op>) {
    ops == [] ||
    (NothingGone(c, ops[..|ops| - 1]) && !Removes(c, Run(c, ops[..|ops| - 1]), ops[|ops| - 1]))
  }

  /** The block was delivered, or is the channel's own. */
  predicate IsAdmitted(n: Node, x: int) {
    x in n.blocks.delivered || x in n.local
  }

  ghost predicate IsNamed(n: Node, i: Item) {
    exists x: uint64 :: IsAdmitted(n, x) && Decimal(x) == i
  }

  /** Everything offered or at hand is an admitted block. */
  ghost predicate OffersAdmitted(n: Node) {
    forall i | i in n.puller.state || i in n.puller.itemID2Msg :: IsNamed(n, i)
  }

  predicate IsLive(e: Entry) {
    e.data.content.DataMsg? && !e.expired
  }

  /** Every live admitted block in the store is at hand. */
  ghost predicate ServesAdmitted(n: Node) {
    forall e | e in n.blocks.entries && IsLive(e) && IsAdmitted(n, e.data.content.seqNum) ::
      BLOCK_ID(e.data) in n.puller.itemID2Msg
  }

  ghost predicate OwnTurnedAway(c: Config, n: Node) {
    forall x | x in n.local :: TurnedAway(c.storageSize, n.blocks.entries, x)
  }

  ghost predicate Invariant(c: Config, n: Node) {
    && Once(c.storageSize, n.blocks) && OwnTurnedAway(c, n)
    && OffersAdmitted(n) && ServesAdmitted(n)
  }

  // ----- Names -----

  lemma IdsNext(data: seq<SignedMessage>, n: nat)
    requires |data| == n + 1
    ensures Ids(BLOCK_ID, data) == Ids(BLOCK_ID, data[..n]) + {BLOCK_ID(data[n])}
  {
    assert data == data[..n] + [data[n]];
  }

  lemma {:induction false} StoredKeys(m: map<Item, SignedMessage>, data: seq<SignedMessage>)
    ensures Stored(BLOCK_ID, m, data).Keys == m.Keys + Ids(BLOCK_ID, data)
  {
    if data == [] {
    } else {
      var n := |data| - 1;
      StoredKeys(m, data[..n]);
      IdsNext(data, n);
    }
  }

  lemma {:induction false} KeptIsNumbered(data: seq<SignedMessage>, m: SignedMessage)
    requires m in data && m.content.DataMsg?
    ensures m.content.seqNum in NumbersOf(data)
  {
    if m == data[|data| - 1] {
    } else {
      assert m in data[..|data| - 1];
      KeptIsNumbered(data[..|data| - 1], m);
    }
  }

  lemma {:induction false} NumberIsKept(data: seq<SignedMessage>, x: uint64)
    requires x in NumbersOf(data)
    ensures Decimal(x) in Ids(BLOCK_ID, data)
  {
    var n := |data| - 1;
    if x in NumbersOf(data[..n]) {
      NumberIsKept(data[..n], x);
      assert data == data[..n] + [data[n]];
    } else {
      assert BLOCK_ID(data[n]) == Decimal(x) && data[n] in data;
    }
  }

  lemma IdsAreNamed(n: Node, data: seq<SignedMessage>, i: Item)
    requires i in Ids(BLOCK_ID, data) && forall m | m in data :: m.content.DataMsg?
    requires forall x | x in NumbersOf(data) :: IsAdmitted(n, x)
    ensures IsNamed(n, i)
  {
    var m :| m in data && BLOCK_ID(m) == i;
    KeptIsNumbered(data, m);
    assert IsAdmitted(n, m.content.seqNum);
  }

  lemma NamedGrows(n: Node, after: Node, i: Item)
    requires IsNamed(n, i) && forall x | IsAdmitted(n, x) :: IsAdmitted(after, x)
    ensures IsNamed(after, i)
  {
    var x: uint64 :| IsAdmitted(n, x) && Decimal(x) == i;
    assert IsAdmitted(after, x);
  }

  lemma PullNames(c: Config, n: Node, items: seq<Option<SignedMessage>>, verify: Verifier, clock: Clock, nonce: Nonce,
                  i: Item)
    requires i !in n.puller.state && i !in n.puller.itemID2Msg
    ensures var after := Pulled(c.storageSize, c.chainID, n, items, verify, clock, nonce);
            i in after.puller.state || i in after.puller.itemID2Msg ==> IsNamed(after, i)
  {
    var after := Pulled(c.storageSize, c.chainID, n, items, verify, clock, nonce);
    var t := TakeIn(c.storageSize, c.chainID, n.blocks.entries, items, verify, clock);
    StoredKeys(Dropped(n.puller, t.evicted).itemID2Msg, t.kept);
    TakenInAreBlocks(c.storageSize, c.chainID, n.blocks.entries, items, verify, clock);
    if i in after.puller.state || i in after.puller.itemID2Msg {
      IdsAreNamed(after, t.kept, i);
    }
  }

  /** No step makes the channel offer a block it did not admit; an aborted update contributes nothing. */
  lemma StepOffersAdmitted(c: Config, n: Node, op: Op)
    requires OffersAdmitted(n)
    ensures OffersAdmitted(Step(c, n, op))
  {
    var after := Step(c, n, op);
    forall i | i in after.puller.state || i in after.puller.itemID2Msg
      ensures IsNamed(after, i)
    {
      if i in n.puller.state || i in n.puller.itemID2Msg {
        NamedGrows(n, after, i);
      } else if op.PullOp? {
        PullNames(c, n, op.items, op.verify, op.clock, op.nonce, i);
      } else {
        assert i == BLOCK_ID(op.m);
        AddAgreesWithCheckValid(Comparator(c.storageSize), n.blocks.entries, op.m, op.now);
        assert IsAdmitted(after, op.m.content.seqNum);
      }
    }
  }

  // ----- What is stored and admitted is served -----

  function BlockOp(op: Op): BlockAdmission.Op
    requires !op.RoundOp?
  {
    match op
    case PushOp(m, verify, now) => BlockAdmission.PushOp(m, verify, now)
    case PullOp(items, verify, clock, _) => BlockAdmission.PullOp(items, verify, clock)
    case OwnOp(m, now) => BlockAdmission.OwnOp(m, now)
    case SweepOp(clock) => BlockAdmission.SweepOp(clock)
  }

  /** Leaving the puller aside, a step is a step of block admission. */
  lemma StepKeepsOnce(c: Config, n: Node, op: Op)
    requires Once(c.storageSize, n.blocks) && OwnTurnedAway(c, n) && !Removes(c, n, op)
    ensures Once(c.storageSize, Step(c, n, op).blocks) && OwnTurnedAway(c, Step(c, n, op))
  {
    if !op.RoundOp? {
      StepOnce(c, n.blocks, BlockOp(op));
      assert Step(c, n, op).blocks == BlockAdmission.Step(c, n.blocks, BlockOp(op));
      if op.OwnOp? && op.m.content.DataMsg? {
        AddTurnsAway(c.storageSize, n.blocks.entries, op.m, op.now);
      }
    }
  }

  /** A block that stays when another is superseded does not share its name. */
  lemma SupersededIsOther(storageSize: int, m: SignedMessage, e: Entry, g: Entry)
    requires m.content.DataMsg? && IsLive(e)
    requires !Superseded(Comparator(storageSize), m)(e) && Superseded(Comparator(storageSize), m)(g)
    ensures BLOCK_ID(g.data) != BLOCK_ID(e.data)
  {
    DecimalIsInjective(e.data.content.seqNum, g.data.content.seqNum);
  }

  /** After an `Add` a live block is either the new one or an old one whose name was not dropped. */
  lemma AddSpares(storageSize: int, entries: seq<Entry>, m: SignedMessage, now: int, e: Entry)
    requires Compatible(storageSize, entries) && m.content.DataMsg?
    requires e in AddTo(Comparator(storageSize), entries, m, now).messages && IsLive(e)
    ensures var r := AddTo(Comparator(storageSize), entries, m, now);
            (r.added && e == Entry(m, now, false)) || (e in entries && BLOCK_ID(e.data) !in NamesOf(r.evicted))
  {
    var policy := Comparator(storageSize);
    if !Accepts(policy, entries, m) {
      RejectedAddChangesNothing(storageSize, entries, m, now);
    } else {
      AcceptedAdd(policy, entries, m, now);
      FilterMembers(Not(Superseded(policy, m)), entries);
      FilterMembers(Superseded(policy, m), entries);
      if e in Filter(Not(Superseded(policy, m)), entries) {
        forall g | g in Filter(Superseded(policy, m), entries)
          ensures BLOCK_ID(g.data) != BLOCK_ID(e.data)
        {
          SupersededIsOther(storageSize, m, e, g);
        }
      }
    }
  }

  lemma PushServes(c: Config, n: Node, m: SignedMessage, verify: Verifier, now: int)
    requires Invariant(c, n)
    ensures ServesAdmitted(Pushed(c.storageSize, n, m, verify, now))
  {
    var after := Pushed(c.storageSize, n, m, verify, now);
    if VerifyBlock(verify, m) && Accepts(Comparator(c.storageSize), n.blocks.entries, m) {
      AddAgreesWithCheckValid(Comparator(c.storageSize), n.blocks.entries, m, now);
      forall e | e in after.blocks.entries && IsLive(e) && IsAdmitted(after, e.data.content.seqNum)
        ensures BLOCK_ID(e.data) in after.puller.itemID2Msg
      {
        AddSpares(c.storageSize, n.blocks.entries, m, now, e);
      }
    }
  }

  lemma OwnServes(c: Config, n: Node, m: SignedMessage, now: int)
    requires Invariant(c, n) && m.content.DataMsg?
    ensures ServesAdmitted(GivenOwn(c.storageSize, n, m, now))
  {
    var after := GivenOwn(c.storageSize, n, m, now);
    forall e | e in after.blocks.entries && IsLive(e) && IsAdmitted(after, e.data.content.seqNum)
      ensures BLOCK_ID(e.data) in after.puller.itemID2Msg
    {
      AddSpares(c.storageSize, n.blocks.entries, m, now, e);
    }
  }

  /** After an update a live block is either taken from it or an old one whose name was not dropped. */
  lemma {:induction false} UpdateSpares(storageSize: int, chainID: string, b: Blocks, items: seq<Option<SignedMessage>>,
                                        verify: Verifier, clock: Clock, e: Entry)
    requires Once(storageSize, b) && IsLive(e)
    requires e in TakeIn(storageSize, chainID, b.entries, items, verify, clock).entries
    ensures var t := TakeIn(storageSize, chainID, b.entries, items, verify, clock);
            e.data.content.seqNum in NumbersOf(t.kept) || (e in b.entries && BLOCK_ID(e.data) !in NamesOf(t.evicted))
  {
    if items == [] {
    } else {
      var k := |items| - 1;
      var t := TakeIn(storageSize, chainID, b.entries, items[..k], verify, clock);
      if t.aborted || IsBad(chainID, items[k], verify) {
        UpdateSpares(storageSize, chainID, b, items[..k], verify, clock, e);
      } else {
        var m := items[k].value;
        var r := AddTo(Comparator(storageSize), t.entries, m, clock(k));
        TakeInOnce(storageSize, chainID, b, items[..k], verify, clock);
        AddSpares(storageSize, t.entries, m, clock(k), e);
        assert NamesOf(t.evicted + r.evicted) == NamesOf(t.evicted) + NamesOf(r.evicted);
        assert r.added ==> (t.kept + [m])[..|t.kept|] == t.kept;
        if e in t.entries {
          UpdateSpares(storageSize, chainID, b, items[..k], verify, clock, e);
        }
      }
    }
  }

  /** What an update brings had not been admitted before. */
  lemma KeptIsNew(c: Config, n: Node, items: seq<Option<SignedMessage>>, verify: Verifier, clock: Clock, x: int)
    requires Once(c.storageSize, n.blocks) && OwnTurnedAway(c, n)
    requires x in NumbersOf(TakeIn(c.storageSize, c.chainID, n.blocks.entries, items, verify, clock).kept)
    ensures !IsAdmitted(n, x)
  {
    var t := TakeIn(c.storageSize, c.chainID, n.blocks.entries, items, verify, clock);
    TakeInOnce(c.storageSize, c.chainID, n.blocks, items, verify, clock);
    DistinctParts(n.blocks.delivered, NumbersOf(t.kept));
    assert x in Delivering(n.blocks, t).delivered;
  }

  lemma PullServes(c: Config, n: Node, items: seq<Option<SignedMessage>>, verify: Verifier, clock: Clock, nonce: Nonce)
    requires Invariant(c, n)
    ensures ServesAdmitted(Pulled(c.storageSize, c.chainID, n, items, verify, clock, nonce))
  {
    var after := Pulled(c.storageSize, c.chainID, n, items, verify, clock, nonce);
    var t := TakeIn(c.storageSize, c.chainID, n.blocks.entries, items, verify, clock);
    forall e | e in after.blocks.entries && IsLive(e) && IsAdmitted(after, e.data.content.seqNum)
      ensures BLOCK_ID(e.data) in after.puller.itemID2Msg
    {
      var x := e.data.content.seqNum;
      UpdateSpares(c.storageSize, c.chainID, n.blocks, items, verify, clock, e);
      StoredKeys(Dropped(n.puller, t.evicted).itemID2Msg, t.kept);
      if x in NumbersOf(t.kept) {
        NumberIsKept(t.kept, x);
        KeptIsNew(c, n, items, verify, clock, x);
      }
    }
  }

  lemma NamesDiffer(storageSize: int, e: Entry, g: Entry)
    requires IsLive(e) && Compare(storageSize, e.data, g.data) == NoAction
    ensures BLOCK_ID(g.data) != BLOCK_ID(e.data)
  {
    if g.data.content.DataMsg? {
      DecimalIsInjective(e.data.content.seqNum, g.data.content.seqNum);
    } else {
      DecimalIsInjective(e.data.content.seqNum, 0);
    }
  }

  lemma SweepServes(c: Config, n: Node, clock: Clock)
    requires Invariant(c, n)
    ensures ServesAdmitted(Swept(c.ttl, n, clock))
  {
    var s, after := n.blocks.entries, Swept(c.ttl, n, clock);
    var r := SweepOf(s, c.ttl, clock);
    StoreLifecycle.SweptFrom(s, c.ttl, clock);
    forall e | e in r.messages && IsLive(e) && IsAdmitted(after, e.data.content.seqNum)
      ensures BLOCK_ID(e.data) in after.puller.itemID2Msg
    {
      forall g | g in r.calledBack
        ensures BLOCK_ID(g.data) != BLOCK_ID(e.data)
      {
        StoreLifecycle.SweepSeparates(s, c.ttl, clock, e, g);
        var i, j :| 0 <= i < |s| && 0 <= j < |s| && i != j && s[i] == e && s[j] == g;
        assert Harmless(c.storageSize)(s[if i < j then i else j], s[if i < j then j else i]);
        NamesDiffer(c.storageSize, e, g);
      }
    }
  }

  lemma StepKeepsInvariant(c: Config, n: Node, op: Op)
    requires Invariant(c, n) && !Removes(c, n, op)
    ensures Invariant(c, Step(c, n, op))
  {
    StepKeepsOnce(c, n, op);
    StepOffersAdmitted(c, n, op);
    match op
    case PushOp(m, verify, now) => PushServes(c, n, m, verify, now);
    case PullOp(items, verify, clock, nonce) => PullServes(c, n, items, verify, clock, nonce);
    case OwnOp(m, now) =>
      if m.content.DataMsg? {
        OwnServes(c, n, m, now);
      }
    case SweepOp(clock) => SweepServes(c, n, clock);
    case RoundOp(_) =>
  }

  lemma {:induction false} RunKeepsInvariant(c: Config, ops: seq<Op>)
    requires NothingGone(c, ops)
    ensures Invariant(c, Run(c, ops))
  {
    if ops == [] {
    } else {
      RunKeepsInvariant(c, ops[..|ops| - 1]);
      StepKeepsInvariant(c, Run(c, ops[..|ops| - 1]), ops[|ops| - 1]);
    }
  }

  /** In every run without removal, an unexpired block in the store can be served exactly if it was delivered
      or is the channel's own: not if it came with an aborted update. */
  lemma ServedIffAdmitted(c: Config, ops: seq<Op>, e: Entry)
    requires NothingGone(c, ops) && e in Run(c, ops).blocks.entries && IsLive(e)
    ensures BLOCK_ID(e.data) in Run(c, ops).puller.itemID2Msg <==> IsAdmitted(Run(c, ops), e.data.content.seqNum)
  {
    var n, i := Run(c, ops), BLOCK_ID(e.data);
    RunKeepsInvariant(c, ops);
    if i in n.puller.itemID2Msg {
      assert IsNamed(n, i);
      var x: uint64 :| IsAdmitted(n, x) && Decimal(x) == i;
      DecimalIsInjective(x, e.data.content.seqNum);
    }
  }

  /** In every run, with removals or without, whatever is offered to peers was delivered or is the channel's
      own. */
  lemma {:induction false} OnlyAdmittedIsOffered(c: Config, ops: seq<Op>)
    ensures OffersAdmitted(Run(c, ops))
  {
    if ops == [] {
    } else {
      OnlyAdmittedIsOffered(c, ops[..|ops| - 1]);
      StepOffersAdmitted(c, Run(c, ops[..|ops| - 1]), ops[|ops| - 1]);
    }
  }

  // ----- What each step changes -----

  /** The books of the pull engine, apart from its items and messages. */
  function Books(e: Engine): Engine {
    e.(state := {}, itemID2Msg := map[])
  }

  /** A pushed block that verifies and is not turned away is delivered, forwarded, offered and at hand; any other
      changes nothing. */
  lemma PushEffects(c: Config, n: Node, m: SignedMessage, verify: Verifier, now: int)
    requires Compatible(c.storageSize, n.blocks.entries) && m.content.DataMsg?
    ensures var after, x := Pushed(c.storageSize, n, m, verify, now), m.content.seqNum;
            if verify(m) && !TurnedAway(c.storageSize, n.blocks.entries, x) then
              && after.blocks.delivered == n.blocks.delivered + [x] && after.forwarded == n.forwarded + [m]
              && after.puller.state == n.puller.state + {Decimal(x)}
              && Decimal(x) in after.puller.itemID2Msg && after.puller.itemID2Msg[Decimal(x)] == m
              && after.blocks.own == n.blocks.own && after.local == n.local && Books(after.puller) == Books(n.puller)
            else
              after == n
  {
    AcceptsIffUnsettled(c.storageSize, n.blocks.entries, m);
    AddTurnsAway(c.storageSize, n.blocks.entries, m, now);
    PushDelivers(c.storageSize, n.blocks, m, verify, now);
  }

  /** One's own block is offered and at hand, and neither delivered nor forwarded. */
  lemma OwnEffects(c: Config, n: Node, m: SignedMessage, now: int)
    requires m.content.DataMsg?
    ensures var after, x := GivenOwn(c.storageSize, n, m, now), m.content.seqNum;
            && after.blocks.delivered == n.blocks.delivered && after.forwarded == n.forwarded
            && after.puller.state == n.puller.state + {Decimal(x)}
            && Decimal(x) in after.puller.itemID2Msg && after.puller.itemID2Msg[Decimal(x)] == m
            && after.local == n.local + {x} && Books(after.puller) == Books(n.puller)
  {
  }

  /** An update forwards nothing. The blocks it delivers are offered from then on exactly if it came under an
      outstanding nonce while responses were accepted; nothing else becomes offered. */
  lemma PullEffects(c: Config, n: Node, items: seq<Option<SignedMessage>>, verify: Verifier, clock: Clock, nonce: Nonce)
    requires Compatible(c.storageSize, n.blocks.entries)
    ensures var after := Pulled(c.storageSize, c.chainID, n, items, verify, clock, nonce);
            && after.forwarded == n.forwarded && after.local == n.local && Books(after.puller) == Books(n.puller)
            && after.blocks.own == n.blocks.own
            && forall i :: i in after.puller.state <==>
                 || i in n.puller.state
                 || (nonce in n.puller.outgoing && n.puller.acceptingResponses
                     && (forall k | 0 <= k < |items| ::
                           && items[k] != None && items[k].value.channel == c.chainID
                           && items[k].value.content.DataMsg? && verify(items[k].value))
                     && exists x: uint64 :: x in Fresh(c.storageSize, Facts(n.blocks.entries),
                                                       items) && Decimal(x) == i)
  {
    var t := TakeIn(c.storageSize, c.chainID, n.blocks.entries, items, verify, clock);
    var after := Pulled(c.storageSize, c.chainID, n, items, verify, clock, nonce);
    AbortedIffBad(c.storageSize, c.chainID, n.blocks.entries, items, verify, clock);
    if !t.aborted {
      GoodItemsTakenIn(c.storageSize, c.chainID, n.blocks.entries, items, verify, clock);
      TakenInAreBlocks(c.storageSize, c.chainID, n.blocks.entries, items, verify, clock);
      forall i
        ensures i in Ids(BLOCK_ID, t.kept) <==> exists x: uint64 :: x in NumbersOf(t.kept) && Decimal(x) == i
      {
        if i in Ids(BLOCK_ID, t.kept) {
          var m :| m in t.kept && BLOCK_ID(m) == i;
          KeptIsNumbered(t.kept, m);
        }
        if x: uint64 :| x in NumbersOf(t.kept) && Decimal(x) == i {
          NumberIsKept(t.kept, x);
        }
      }
    }
  }

  /** An expiry pass takes from what is at hand exactly what it calls back, and goes on offering it. */
  lemma SweepEffects(c: Config, n: Node, clock: Clock)
    ensures var after, r := Swept(c.ttl, n, clock), SweepOf(n.blocks.entries, c.ttl, clock);
            && after.blocks == n.blocks.(entries := r.messages) && after.forwarded == n.forwarded
            && after.local == n.local && after.puller.state == n.puller.state && Books(after.puller) == Books(n.puller)
            && forall i :: i in after.puller.itemID2Msg <==>
                 i in n.puller.itemID2Msg && forall g | g in r.calledBack :: BLOCK_ID(g.data) != i
  {
    var r := SweepOf(n.blocks.entries, c.ttl, clock);
    forall g | g in r.calledBack
      ensures BLOCK_ID(g.data) in NamesOf(r.calledBack)
    {
    }
  }

  // ----- What is offered but cannot be served -----

  lemma EvictedIsDropped(c: Config, n: Node, m: SignedMessage, verify: Verifier, now: int, g: Entry)
    requires VerifyBlock(verify, m) && Accepts(Comparator(c.storageSize), n.blocks.entries, m)
    requires g in n.blocks.entries && Superseded(Comparator(c.storageSize), m)(g)
    ensures var after := Pushed(c.storageSize, n, m, verify, now).puller;
            BLOCK_ID(g.data) !in after.itemID2Msg && after.state == n.puller.state + {BLOCK_ID(m)}
  {
    var policy := Comparator(c.storageSize);
    AcceptedAdd(policy, n.blocks.entries, m, now);
    FilterMember(Superseded(policy, m), n.blocks.entries, g);
    DecimalIsInjective(m.content.seqNum, g.data.content.seqNum);
  }

  /** A pushed block leaves everything offered at hand exactly if it does not push an offered block out of the
      window: the code takes the message of such a block away, and leaves the item in the state. */
  lemma PushKeepsCovered(c: Config, n: Node, m: SignedMessage, verify: Verifier, now: int)
    requires Covered(BLOCK_ID, n.puller) && VerifyBlock(verify, m)
    requires Accepts(Comparator(c.storageSize), n.blocks.entries, m)
    ensures Covered(BLOCK_ID, Pushed(c.storageSize, n, m, verify, now).puller) <==>
            forall e | e in n.blocks.entries && Superseded(Comparator(c.storageSize), m)(e) ::
              BLOCK_ID(e.data) !in n.puller.state
  {
    var policy, after := Comparator(c.storageSize), Pushed(c.storageSize, n, m, verify, now).puller;
    var gone := Filter(Superseded(policy, m), n.blocks.entries);
    AcceptedAdd(policy, n.blocks.entries, m, now);
    FilterMembers(Superseded(policy, m), n.blocks.entries);
    forall g | g in gone
      ensures BLOCK_ID(g.data) !in after.itemID2Msg
    {
      EvictedIsDropped(c, n, m, verify, now, g);
    }
  }

  /** An expiry pass leaves everything offered at hand exactly if it calls back no offered block. */
  lemma ExpiryKeepsCovered(ttl: int, n: Node, clock: Clock)
    requires Covered(BLOCK_ID, n.puller)
    ensures Covered(BLOCK_ID, Swept(ttl, n, clock).puller) <==>
            forall g | g in SweepOf(n.blocks.entries, ttl, clock).calledBack :: BLOCK_ID(g.data) !in n.puller.state
  {
    var gone := SweepOf(n.blocks.entries, ttl, clock).calledBack;
    forall g | g in gone
      ensures BLOCK_ID(g.data) in NamesOf(gone)
    {
    }
  }

  /** What a block pushes out goes by another name than the block. */
  lemma EvictedIsOther(storageSize: int, entries: seq<Entry>, m: SignedMessage, now: int, g: Entry)
    requires m.content.DataMsg? && g in AddTo(Comparator(storageSize), entries, m, now).evicted
    ensures BLOCK_ID(g.data) != BLOCK_ID(m)
  {
    var policy := Comparator(storageSize);
    FilterMember(Superseded(policy, m), entries[..Reach(policy, entries, m)], g);
    DecimalIsInjective(m.content.seqNum, g.data.content.seqNum);
  }

  /** One of the channel's own blocks leaves everything offered at hand exactly if it pushes no offered block
      out of the window. */
  lemma OwnKeepsCovered(storageSize: int, n: Node, m: SignedMessage, now: int)
    requires Covered(BLOCK_ID, n.puller) && m.content.DataMsg?
    ensures Covered(BLOCK_ID, GivenOwn(storageSize, n, m, now).puller) <==>
            forall g | g in AddTo(Comparator(storageSize), n.blocks.entries, m, now).evicted ::
              BLOCK_ID(g.data) !in n.puller.state
  {
    var gone := AddTo(Comparator(storageSize), n.blocks.entries, m, now).evicted;
    var after := GivenOwn(storageSize, n, m, now);
    forall g | g in gone
      ensures BLOCK_ID(g.data) !in after.puller.itemID2Msg
    {
      EvictedIsOther(storageSize, n.blocks.entries, m, now, g);
    }
  }

  lemma {:induction false} StoredIsNamed(m: map<Item, SignedMessage>, data: seq<SignedMessage>, i: Item)
    requires i in Stored(BLOCK_ID, m, data)
    ensures i in Ids(BLOCK_ID, data) ==> BLOCK_ID(Stored(BLOCK_ID, m, data)[i]) == i
    ensures i !in Ids(BLOCK_ID, data) ==> i in m && Stored(BLOCK_ID, m, data)[i] == m[i]
  {
    if data == [] {
    } else {
      var n := |data| - 1;
      IdsNext(data, n);
      if i != BLOCK_ID(data[n]) {
        StoredIsNamed(m, data[..n], i);
      }
    }
  }

  lemma AtHandAfter(e: Engine, gone: seq<Entry>, kept: seq<SignedMessage>, i: Item)
    ensures var after := Stored(BLOCK_ID, Dropped(e, gone).itemID2Msg, kept);
            && (i in after <==> i in Ids(BLOCK_ID, kept) || (i in e.itemID2Msg && i !in NamesOf(gone)))
            && (i in Ids(BLOCK_ID, kept) ==> BLOCK_ID(after[i]) == i)
            && (i in after && i !in Ids(BLOCK_ID, kept) ==> after[i] == e.itemID2Msg[i])
  {
    var dropped := Dropped(e, gone);
    StoredKeys(dropped.itemID2Msg, kept);
    if i in Stored(BLOCK_ID, dropped.itemID2Msg, kept) {
      StoredIsNamed(dropped.itemID2Msg, kept, i);
    }
  }

  ghost predicate IsAtHand(e: Engine, i: Item) {
    i in e.itemID2Msg && BLOCK_ID(e.itemID2Msg[i]) == i
  }

  /** Dropping some blocks and taking in others. */
  lemma DroppedThenStored(e: Engine, gone: seq<Entry>, kept: seq<SignedMessage>, nonce: Nonce)
    requires Covered(BLOCK_ID, e)
    ensures Covered(BLOCK_ID, OnRes(BLOCK_ID, Dropped(e, gone), kept, nonce)) <==>
            forall g | g in gone && BLOCK_ID(g.data) in e.state :: BLOCK_ID(g.data) in Ids(BLOCK_ID, kept)
  {
    var after := OnRes(BLOCK_ID, Dropped(e, gone), kept, nonce);
    forall i | i in after.state
      ensures IsAtHand(after, i) <==> i in Ids(BLOCK_ID, kept) || i !in NamesOf(gone)
    {
      AtHandAfter(e, gone, kept, i);
    }
    forall g | g in gone
      ensures BLOCK_ID(g.data) in NamesOf(gone)
    {
    }
    assert Covered(BLOCK_ID, after) <==> forall i | i in after.state :: IsAtHand(after, i);
  }

  /** A pulled update leaves everything offered at hand exactly if every offered block that it pushes out is one
      that it brought itself, and it is not aborted: such a block is put back at hand, stored or not. */
  lemma PullKeepsCovered(c: Config, n: Node, items: seq<Option<SignedMessage>>, verify: Verifier, clock: Clock,
                         nonce: Nonce)
    requires Covered(BLOCK_ID, n.puller)
    ensures var t := TakeIn(c.storageSize, c.chainID, n.blocks.entries, items, verify, clock);
            Covered(BLOCK_ID, Pulled(c.storageSize, c.chainID, n, items, verify, clock, nonce).puller) <==>
            forall g | g in t.evicted && BLOCK_ID(g.data) in n.puller.state ::
              !t.aborted && BLOCK_ID(g.data) in Ids(BLOCK_ID, t.kept)
  {
    var t := TakeIn(c.storageSize, c.chainID, n.blocks.entries, items, verify, clock);
    var after := Pulled(c.storageSize, c.chainID, n, items, verify, clock, nonce).puller;
    DroppedThenStored(n.puller, t.evicted, t.kept, nonce);
    if t.aborted {
      forall g | g in t.evicted
        ensures BLOCK_ID(g.data) in NamesOf(t.evicted)
      {
      }
    }
  }

  /** The names a step takes from what is at hand and does not give back. */
  function Lost(c: Config, n: Node, op: Op): set<Item> {
    match op
    case PushOp(m, verify, now) =>
      if VerifyBlock(verify, m) && Accepts(Comparator(c.storageSize), n.blocks.entries, m)
      then NamesOf(AddTo(Comparator(c.storageSize), n.blocks.entries, m, now).evicted) else {}
    case PullOp(items, verify, clock, _) =>
      var t := TakeIn(c.storageSize, c.chainID, n.blocks.entries, items, verify, clock);
      NamesOf(t.evicted) - if t.aborted then {} else Ids(BLOCK_ID, t.kept)
    case OwnOp(m, now) =>
      if m.content.DataMsg? then NamesOf(AddTo(Comparator(c.storageSize), n.blocks.entries, m, now).evicted) else {}
    case SweepOp(clock) => NamesOf(SweepOf(n.blocks.entries, c.ttl, clock).calledBack)
    case RoundOp(_) => {}
  }

  /** Any step leaves everything offered at hand exactly if it loses no offered block. */
  lemma StepKeepsCovered(c: Config, n: Node, op: Op)
    requires Covered(BLOCK_ID, n.puller)
    ensures Covered(BLOCK_ID, Step(c, n, op).puller) <==> Lost(c, n, op) !! n.puller.state
  {
    match op
    case PushOp(m, verify, now) =>
      if VerifyBlock(verify, m) && Accepts(Comparator(c.storageSize), n.blocks.entries, m) {
        PushKeepsCovered(c, n, m, verify, now);
        AcceptedAdd(Comparator(c.storageSize), n.blocks.entries, m, now);
        FilterMembers(Superseded(Comparator(c.storageSize), m), n.blocks.entries);
      }
    case PullOp(items, verify, clock, nonce) => PullKeepsCovered(c, n, items, verify, clock, nonce);
    case OwnOp(m, now) =>
      if m.content.DataMsg? {
        OwnKeepsCovered(c.storageSize, n, m, now);
      }
    case SweepOp(clock) => ExpiryKeepsCovered(c.ttl, n, clock);
    case RoundOp(_) =>
  }

  ghost predicate NeverLoses(c: Config, ops: seq<Op>) {
    ops == [] ||
    (&& NeverLoses(c, ops[..|ops| - 1])
     && Lost(c, Run(c, ops[..|ops| - 1]), ops[|ops| - 1]) !! Run(c, ops[..|ops| - 1]).puller.state)
  }

  ghost predicate AlwaysCovered(c: Config, ops: seq<Op>) {
    Covered(BLOCK_ID, Run(c, ops).puller) && (ops != [] ==> AlwaysCovered(c, ops[..|ops| - 1]))
  }

  /** A channel can serve all it offers throughout a run exactly if no step of the run loses an offered block. */
  lemma {:induction false} AlwaysCoveredIffNeverLoses(c: Config, ops: seq<Op>)
    ensures AlwaysCovered(c, ops) <==> NeverLoses(c, ops)
  {
    if ops == [] {
    } else {
      var front := ops[..|ops| - 1];
      AlwaysCoveredIffNeverLoses(c, front);
      if AlwaysCovered(c, front) {
        StepKeepsCovered(c, Run(c, front), ops[|ops| - 1]);
      }
    }
  }

  lemma RunNext(c: Config, ops: seq<Op>, op: Op)
    ensures Run(c, ops + [op]) == Step(c, Run(c, ops), op)
  {
    assert (ops + [op])[..|ops|] == ops;
  }

  lemma PushIntoEmpty(c: Config, m: SignedMessage, verify: Verifier)
    requires m.content.DataMsg? && verify(m)
    ensures var n := Run(c, [Op.PushOp(m, verify, 0)]);
            && n.blocks.entries == [Entry(m, 0, false)]
            && n.puller.state == {BLOCK_ID(m)} && n.puller.itemID2Msg == map[BLOCK_ID(m) := m]
  {
    RunNext(c, [], Op.PushOp(m, verify, 0));
    assert [] + [Op.PushOp(m, verify, 0)] == [Op.PushOp(m, verify, 0)];
    AcceptedAdd(Comparator(c.storageSize), [], m, 0);
    assert map[][BLOCK_ID(m) := m] == map[BLOCK_ID(m) := m];
  }

  lemma NothingToSend(e: Engine, i: Item)
    requires i !in e.itemID2Msg
    ensures SendRes(e, [i]) == []
  {
    assert [i][..0] == [];
  }

  /** Two pushes with a window of 0: the first block is still offered, and a request for it is answered with
      an empty update. */
  lemma EvictedIsStillOffered(c: Config, m: SignedMessage, next: SignedMessage, verify: Verifier)
    requires c.storageSize == 0 && m.content.DataMsg? && next.content.DataMsg? && verify(m) && verify(next)
    requires m.content.seqNum < next.content.seqNum
    ensures var puller := Run(c, [Op.PushOp(m, verify, 0)] + [Op.PushOp(next, verify, 0)]).puller;
            BLOCK_ID(m) in puller.state && SendRes(puller, [BLOCK_ID(m)]) == []
  {
    var first, second := Op.PushOp(m, verify, 0), Op.PushOp(next, verify, 0);
    PushIntoEmpty(c, m, verify);
    EvictedIsDropped(c, Run(c, [first]), next, verify, 0, Entry(m, 0, false));
    RunNext(c, [first], second);
    NothingToSend(Run(c, [first] + [second]).puller, BLOCK_ID(m));
  }

  /** One push and one expiry pass, whatever the window: the block is in the store and is still offered, and a
      request for it is answered with an empty update. */
  lemma ExpiredIsStillOffered(c: Config, m: SignedMessage, verify: Verifier)
    requires c.ttl >= 0 && m.content.DataMsg? && verify(m)
    ensures var n := Run(c, [Op.PushOp(m, verify, 0)] + [Op.SweepOp(StoreLifecycle.Standing(c.ttl + 1))]);
            && n.blocks.entries == [Entry(m, 0, true)]
            && BLOCK_ID(m) in n.puller.state && SendRes(n.puller, [BLOCK_ID(m)]) == []
  {
    var push, sweep := Op.PushOp(m, verify, 0), Op.SweepOp(StoreLifecycle.Standing(c.ttl + 1));
    PushIntoEmpty(c, m, verify);
    StoreLifecycle.SweptOnce(c.ttl, Entry(m, 0, false), c.ttl + 1);
    RunNext(c, [push], sweep);
    assert Entry(m, 0, false) in [Entry(m, 0, false)];
    NothingToSend(Run(c, [push] + [sweep]).puller, BLOCK_ID(m));
  }
}
