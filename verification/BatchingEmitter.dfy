/** The batching emitter of gossip/channel.go: every message is forwarded a fixed number of times,
    in batches that go out when the buffer is full or a timer fires. */
module BatchingEmitters {
  import opened Sequences
  import opened Messages

  datatype Batched = Batched(data: SignedMessage, iterationsLeft: int)

  function DataOf(buff: seq<Batched>): (r: seq<SignedMessage>)
    ensures |r| == |buff| && forall i | 0 <= i < |buff| :: r[i] == buff[i].data
  {
    seq(|buff|, i requires 0 <= i < |buff| => buff[i].data)
  }

  /** The buffer after one emission has gone through it. */
  function Aged(buff: seq<Batched>): (r: seq<Batched>)
    ensures |r| <= |buff|
  {
    if buff == [] then
      []
    else
      var rest, last := Aged(buff[..|buff| - 1]), buff[|buff| - 1];
      if last.iterationsLeft == 1 then rest else rest + [last.(iterationsLeft := last.iterationsLeft - 1)]
  }

  /** Some of the buffer has been aged by the loop in `Emit`, some has not. */
  ghost predicate Aging(before: seq<Batched>, j: int, buff: seq<Batched>, i: int) {
    && 0 <= j <= |before|
    && buff == Aged(before[..j]) + before[j..]
    && i == |Aged(before[..j])|
  }

  lemma AgingStep(before: seq<Batched>, j: int, buff: seq<Batched>, i: int)
    requires Aging(before, j, buff, i) && j < |before|
    ensures i < |buff| && buff[i] == before[j]
    ensures var x := buff[i].(iterationsLeft := buff[i].iterationsLeft - 1);
            if x.iterationsLeft == 0 then Aging(before, j + 1, buff[..i] + buff[i + 1..], i)
            else Aging(before, j + 1, buff[i := x], i + 1)
  {
    assert before[..j + 1][..j] == before[..j];
    var kept, x := Aged(before[..j]), buff[i].(iterationsLeft := buff[i].iterationsLeft - 1);
    assert buff[..i] + buff[i + 1..] == kept + before[j + 1..];
    assert buff[i := x] == kept + [x] + before[j + 1..];
  }

  lemma AgingEnd(before: seq<Batched>, buff: seq<Batched>, i: int)
    requires Aging(before, |before|, buff, i)
    ensures buff == Aged(before)
  {
    assert before[..|before|] == before;
  }

  datatype Emitter = Emitter(buff: seq<Batched>, stopped: bool, callbacks: seq<seq<SignedMessage>>)

  function EmitSpec(e: Emitter): Emitter {
    if e.stopped || e.buff == [] then e
    else e.(buff := Aged(e.buff), callbacks := e.callbacks + [DataOf(e.buff)])
  }

  function AddSpec(iterations: int, burstSize: int, e: Emitter, m: SignedMessage): Emitter {
    if iterations == 0 then
      e
    else
      var longer := e.(buff := e.buff + [Batched(m, iterations)]);
      if |longer.buff| >= burstSize then EmitSpec(longer) else longer
  }

  class BatchingEmitter {
    const iterations: int
    const burstSize: int
    var buff: seq<Batched>
    var stopFlag: bool
    ghost var callbacks: seq<seq<SignedMessage>> // what the callback was given, call by call

    constructor (iterations: int, burstSize: int)
      ensures this.iterations == iterations && this.burstSize == burstSize
      ensures buff == [] && callbacks == [] && !stopFlag
    {
      this.iterations, this.burstSize := iterations, burstSize;
      buff, callbacks, stopFlag := [], [], false;
    }

    ghost function State(): Emitter
      reads this
    {
      Emitter(buff, stopFlag, callbacks)
    }

    method Add(message: SignedMessage)
      modifies this`buff, this`callbacks
      ensures State() == AddSpec(iterations, burstSize, old(State()), message)
    {
      if iterations == 0 {
        return;
      }
      buff := buff + [Batched(message, iterations)];
      if |buff| >= burstSize {
        Emit();
      }
    }

    method Emit()
      modifies this`buff, this`callbacks
      ensures State() == EmitSpec(old(State()))
    {
      if stopFlag || |buff| == 0 {
        return;
      }
      var msgs2beEmitted: seq<SignedMessage> := [];
      for k := 0 to |buff|
        invariant msgs2beEmitted == DataOf(buff[..k])
      {
        msgs2beEmitted := msgs2beEmitted + [buff[k].data];
      }
      assert buff[..|buff|] == buff;
      callbacks := callbacks + [msgs2beEmitted];
      AgeBuffer();
    }

    /** The second half of `Emit`: decrement every counter and delete what has run out. */
    method AgeBuffer()
      modifies this`buff
      ensures buff == Aged(old(buff))
    {
      ghost var before, j := buff, 0;
      var n, i := |buff|, 0;
      while i < n
        invariant i <= n == |buff| && n - i == |before| - j
        invariant Aging(before, j, buff, i)
        decreases n - i
      {
        AgingStep(before, j, buff, i);
        var msg := buff[i].(iterationsLeft := buff[i].iterationsLeft - 1);
        if msg.iterationsLeft == 0 {
          buff := buff[..i] + buff[i + 1..];
          n := n - 1;
        } else {
          buff := buff[i := msg];
          i := i + 1;
        }
        j := j + 1;
      }
      AgingEnd(before, buff, i);
    }

    method Stop()
      modifies this`stopFlag
      ensures State() == old(State()).(stopped := true)
    {
      stopFlag := true;
    }
  }

  // ----- The emitter as a state machine -----

  datatype Op = AddOp(message: SignedMessage) | TickOp | StopOp

  function Step(iterations: int, burstSize: int, e: Emitter, op: Op): Emitter {
    match op
    case AddOp(m) => AddSpec(iterations, burstSize, e, m)
    case TickOp => EmitSpec(e)
    case StopOp => e.(stopped := true)
  }

  function Run(iterations: int, burstSize: int, ops: seq<Op>): Emitter {
    if ops == [] then Emitter([], false, [])
    else Step(iterations, burstSize, Run(iterations, burstSize, ops[..|ops| - 1]), ops[|ops| - 1])
  }

  /** Counters never decrease towards the back, and are between 1 and T. */
  ghost predicate Ordered(iterations: int, buff: seq<Batched>) {
    && (forall i | 0 <= i < |buff| :: 1 <= buff[i].iterationsLeft <= iterations)
    && (forall i, j | 0 <= i < j < |buff| :: buff[i].iterationsLeft <= buff[j].iterationsLeft)
  }

  /** From position B - 1 on, an entry with n - 1 entries behind it has been emitted n times. */
  ghost predicate Drained(iterations: int, burstSize: int, buff: seq<Batched>) {
    forall i | burstSize - 1 <= i < |buff| && 0 <= i :: buff[i].iterationsLeft <= iterations - (|buff| - i)
  }

  function Gone(buff: seq<Batched>): nat {
    |buff| - |Aged(buff)|
  }

  lemma {:induction false} AllRunOut(buff: seq<Batched>)
    requires forall i | 0 <= i < |buff| :: buff[i].iterationsLeft == 1
    ensures Aged(buff) == []
  {
    if buff == [] {
    } else {
      AllRunOut(buff[..|buff| - 1]);
    }
  }

  function Next(b: Batched): Batched {
    b.(iterationsLeft := b.iterationsLeft - 1)
  }

  /** On an ordered buffer an emission drops the prefix that has run out and decrements the rest. */
  lemma {:induction false} AgedAt(iterations: int, buff: seq<Batched>, i: int)
    requires Ordered(iterations, buff) && 0 <= i < |buff|
    ensures buff[i].iterationsLeft == 1 <==> i < Gone(buff)
    ensures i >= Gone(buff) ==> Aged(buff)[i - Gone(buff)] == Next(buff[i])
  {
    var front, last := buff[..|buff| - 1], buff[|buff| - 1];
    if last.iterationsLeft == 1 {
      AllRunOut(buff);
    } else if i < |front| {
      AgedAt(iterations, front, i);
    }
  }

  lemma AgedDropsPrefix(iterations: int, buff: seq<Batched>)
    requires Ordered(iterations, buff)
    ensures forall i {:trigger buff[i]} | 0 <= i < |buff| ::
              && (buff[i].iterationsLeft == 1 <==> i < Gone(buff))
              && (i >= Gone(buff) ==> Aged(buff)[i - Gone(buff)] == Next(buff[i]))
    ensures forall i {:trigger Aged(buff)[i]} | 0 <= i < |Aged(buff)| :: Aged(buff)[i] == Next(buff[i + Gone(buff)])
  {
    forall i | 0 <= i < |buff|
      ensures buff[i].iterationsLeft == 1 <==> i < Gone(buff)
      ensures i >= Gone(buff) ==> Aged(buff)[i - Gone(buff)] == Next(buff[i])
    {
      AgedAt(iterations, buff, i);
    }
    forall i | 0 <= i < |Aged(buff)|
      ensures Aged(buff)[i] == Next(buff[i + Gone(buff)])
    {
      AgedAt(iterations, buff, i + Gone(buff));
    }
  }

  /** What every step keeps, as long as the emitter is not stopped. */
  ghost predicate Invariant(iterations: int, burstSize: int, e: Emitter) {
    Ordered(iterations, e.buff) && Drained(iterations, burstSize, e.buff)
  }

  lemma EmitKeepsInvariant(iterations: int, burstSize: int, e: Emitter)
    requires Ordered(iterations, e.buff) && !e.stopped
    requires forall i | burstSize - 1 <= i < |e.buff| && 0 <= i ::
               e.buff[i].iterationsLeft <= iterations - (|e.buff| - i) + 1
    ensures Invariant(iterations, burstSize, EmitSpec(e))
  {
    AgedDropsPrefix(iterations, e.buff);
  }

  lemma StepKeepsInvariant(iterations: int, burstSize: int, e: Emitter, op: Op)
    requires iterations >= 1 && burstSize >= 1 && !e.stopped && op != StopOp
    requires Invariant(iterations, burstSize, e)
    ensures Invariant(iterations, burstSize, Step(iterations, burstSize, e, op))
  {
    match op
    case AddOp(m) =>
      var longer := e.(buff := e.buff + [Batched(m, iterations)]);
      if |longer.buff| >= burstSize {
        EmitKeepsInvariant(iterations, burstSize, longer);
      }
    case TickOp =>
      EmitKeepsInvariant(iterations, burstSize, e);
  }

  lemma {:induction false} RunKeepsInvariant(iterations: int, burstSize: int, ops: seq<Op>)
    requires iterations >= 1 && burstSize >= 1 && StopOp !in ops
    ensures Invariant(iterations, burstSize, Run(iterations, burstSize, ops))
    ensures !Run(iterations, burstSize, ops).stopped
  {
    if ops == [] {
    } else {
      RunKeepsInvariant(iterations, burstSize, ops[..|ops| - 1]);
      StepKeepsInvariant(iterations, burstSize, Run(iterations, burstSize, ops[..|ops| - 1]), ops[|ops| - 1]);
    }
  }

  /** The buffer never holds more than B + T - 2 messages after any run without a stop. */
  lemma BufferBound(iterations: int, burstSize: int, ops: seq<Op>)
    requires iterations >= 1 && burstSize >= 1 && StopOp !in ops
    ensures |Run(iterations, burstSize, ops).buff| <= burstSize + iterations - 2
  {
    RunKeepsInvariant(iterations, burstSize, ops);
    var buff := Run(iterations, burstSize, ops).buff;
    if |buff| >= burstSize {
      assert buff[burstSize - 1].iterationsLeft <= iterations - (|buff| - (burstSize - 1));
    }
  }

  /** When an addition calls back: only once the buffer is full, then exactly once, with everything in it and the new
      message last; if messages are to be forwarded no times at all, nothing happens. */
  lemma AddCallsWhenFull(iterations: int, burstSize: int, e: Emitter, m: SignedMessage)
    requires !e.stopped
    ensures var after := AddSpec(iterations, burstSize, e, m);
            && (iterations == 0 ==> after == e)
            && (iterations != 0 && |e.buff| + 1 < burstSize ==>
                  after.callbacks == e.callbacks && after.buff == e.buff + [Batched(m, iterations)])
            && (iterations != 0 && |e.buff| + 1 >= burstSize ==>
                  after.callbacks == e.callbacks + [DataOf(e.buff) + [m]])
  {
    assert DataOf(e.buff + [Batched(m, iterations)]) == DataOf(e.buff) + [m];
  }

  /** A tick calls back exactly if there is anything to forward. */
  lemma TickCallsUnlessEmpty(iterations: int, burstSize: int, e: Emitter)
    requires !e.stopped
    ensures Step(iterations, burstSize, e, TickOp).callbacks
            == e.callbacks + if e.buff == [] then [] else [DataOf(e.buff)]
  {
  }

  const IS_ADD: Op -> bool := (op: Op) => op.AddOp?

  /** A stopped emitter calls nobody and keeps whatever is added, ticks and further stops notwithstanding: the
      bound holds only until then. */
  lemma {:induction false} StoppedBufferGrows(iterations: int, burstSize: int, ops: seq<Op>, more: seq<Op>)
    requires iterations != 0
    ensures var before, after := Run(iterations, burstSize, ops), Run(iterations, burstSize, ops + [StopOp] + more);
            && |after.buff| == |before.buff| + Count(IS_ADD, more)
            && after.callbacks == before.callbacks && after.stopped
  {
    var all := ops + [StopOp] + more;
    if more == [] {
      assert all[..|all| - 1] == ops;
    } else {
      StoppedBufferGrows(iterations, burstSize, ops, more[..|more| - 1]);
      assert all[..|all| - 1] == ops + [StopOp] + more[..|more| - 1];
    }
  }

  // ----- Every message is forwarded exactly T times -----

  /** The emitter with its bookkeeping: the messages accepted so far, how many of them have left the
      buffer, and for every callback the range of accepted messages it was given. */
  datatype Ledger = Ledger(emitter: Emitter, accepted: seq<SignedMessage>, departed: int, ranges: seq<(int, int)>)

  function Emitting(l: Ledger): Ledger {
    if l.emitter.stopped || l.emitter.buff == [] then
      l
    else
      Ledger(EmitSpec(l.emitter), l.accepted, l.departed + Gone(l.emitter.buff),
             l.ranges + [(l.departed, |l.accepted|)])
  }

  function Accepting(iterations: int, l: Ledger, m: SignedMessage): Ledger {
    l.(emitter := l.emitter.(buff := l.emitter.buff + [Batched(m, iterations)]), accepted := l.accepted + [m])
  }

  function Follow(iterations: int, burstSize: int, l: Ledger, op: Op): (r: Ledger)
    ensures r.emitter == Step(iterations, burstSize, l.emitter, op)
  {
    match op
    case AddOp(m) =>
      if iterations == 0 then
        l
      else
        var longer := Accepting(iterations, l, m);
        if |longer.emitter.buff| >= burstSize then Emitting(longer) else longer
    case TickOp => Emitting(l)
    case StopOp => l.(emitter := l.emitter.(stopped := true))
  }

  function History(iterations: int, burstSize: int, ops: seq<Op>): (r: Ledger)
    ensures r.emitter == Run(iterations, burstSize, ops)
  {
    if ops == [] then Ledger(Emitter([], false, []), [], 0, [])
    else Follow(iterations, burstSize, History(iterations, burstSize, ops[..|ops| - 1]), ops[|ops| - 1])
  }

  /** How many callbacks were given the message accepted at position `a`. */
  function Times(ranges: seq<(int, int)>, a: int): nat {
    if ranges == [] then
      0
    else
      var last := ranges[|ranges| - 1];
      Times(ranges[..|ranges| - 1], a) + if last.0 <= a < last.1 then 1 else 0
  }

  /** The buffer is a queue: what has left is a prefix of what was accepted. */
  ghost predicate Queued(iterations: int, l: Ledger) {
    && Ordered(iterations, l.emitter.buff)
    && 0 <= l.departed == |l.accepted| - |l.emitter.buff|
    && DataOf(l.emitter.buff) == l.accepted[l.departed..]
  }

  /** The emissions still due to the message accepted at position `a`. */
  function Due(l: Ledger, a: int): int
    requires l.departed == |l.accepted| - |l.emitter.buff| && 0 <= a < |l.accepted|
  {
    if a < l.departed then 0 else l.emitter.buff[a - l.departed].iterationsLeft
  }

  /** Emissions seen plus emissions due make T; nobody is emitted before being accepted. */
  ghost predicate Balanced(iterations: int, l: Ledger, a: int)
    requires l.departed == |l.accepted| - |l.emitter.buff|
  {
    && (0 <= a < |l.accepted| ==> Times(l.ranges, a) + Due(l, a) == iterations)
    && (|l.accepted| <= a ==> Times(l.ranges, a) == 0)
  }

  /** The k-th callback was given a stretch of the accepted messages, in order. */
  ghost predicate InOrder(l: Ledger, k: int) {
    && |l.ranges| == |l.emitter.callbacks|
    && (0 <= k < |l.ranges| ==>
          && 0 <= l.ranges[k].0 <= l.ranges[k].1 <= |l.accepted|
          && l.emitter.callbacks[k] == l.accepted[l.ranges[k].0..l.ranges[k].1])
  }

  ghost predicate Lawful(iterations: int, l: Ledger, a: int, k: int) {
    Queued(iterations, l) && Balanced(iterations, l, a) && InOrder(l, k)
  }

  lemma AgedIsOrdered(iterations: int, buff: seq<Batched>)
    requires Ordered(iterations, buff)
    ensures Ordered(iterations, Aged(buff)) && DataOf(Aged(buff)) == DataOf(buff)[Gone(buff)..]
  {
    AgedDropsPrefix(iterations, buff);
  }

  lemma EmittingQueues(iterations: int, l: Ledger)
    requires Queued(iterations, l)
    ensures Queued(iterations, Emitting(l))
  {
    AgedIsOrdered(iterations, l.emitter.buff);
    if Emitting(l) != l {
      assert l.accepted[l.departed..][Gone(l.emitter.buff)..] == l.accepted[l.departed + Gone(l.emitter.buff)..];
    }
  }

  lemma EmittingBalances(iterations: int, l: Ledger, a: int)
    requires Queued(iterations, l) && Balanced(iterations, l, a)
    ensures Balanced(iterations, Emitting(l), a)
  {
    var buff, after := l.emitter.buff, Emitting(l);
    if after != l {
      assert after.ranges[..|l.ranges|] == l.ranges;
      if l.departed <= a < |l.accepted| {
        AgedAt(iterations, buff, a - l.departed);
      }
    }
  }

  lemma EmittingIsInOrder(iterations: int, l: Ledger, k: int)
    requires Queued(iterations, l) && InOrder(l, k)
    ensures InOrder(Emitting(l), k)
  {
    assert l.accepted[l.departed..|l.accepted|] == l.accepted[l.departed..];
  }

  lemma EmittingIsLawful(iterations: int, l: Ledger, a: int, k: int)
    requires Lawful(iterations, l, a, k)
    ensures Lawful(iterations, Emitting(l), a, k)
  {
    EmittingQueues(iterations, l);
    EmittingBalances(iterations, l, a);
    EmittingIsInOrder(iterations, l, k);
  }

  lemma AcceptingIsLawful(iterations: int, l: Ledger, m: SignedMessage, a: int, k: int)
    requires iterations >= 1 && Lawful(iterations, l, a, k)
    ensures Lawful(iterations, Accepting(iterations, l, m), a, k)
  {
    var after := Accepting(iterations, l, m);
    assert DataOf(after.emitter.buff) == DataOf(l.emitter.buff) + [m];
    assert after.accepted[l.departed..] == l.accepted[l.departed..] + [m];
    if 0 <= k < |l.ranges| {
      assert after.accepted[l.ranges[k].0..l.ranges[k].1] == l.accepted[l.ranges[k].0..l.ranges[k].1];
    }
  }

  /** Conservation, in every run, stopped or not: messages leave in order of acceptance, and each has
      been forwarded exactly T times when it does. */
  lemma {:induction false} ForwardedExactly(iterations: int, burstSize: int, ops: seq<Op>, a: int, k: int)
    requires iterations >= 1
    ensures Lawful(iterations, History(iterations, burstSize, ops), a, k)
  {
    if ops == [] {
    } else {
      var front, op := ops[..|ops| - 1], ops[|ops| - 1];
      ForwardedExactly(iterations, burstSize, front, a, k);
      var l := History(iterations, burstSize, front);
      match op
      case AddOp(m) =>
        AcceptingIsLawful(iterations, l, m, a, k);
        EmittingIsLawful(iterations, Accepting(iterations, l, m), a, k);
      case TickOp =>
        EmittingIsLawful(iterations, l, a, k);
      case StopOp =>
    }
  }

  function Ticked(e: Emitter, ticks: nat): Emitter
    decreases ticks
  {
    if ticks == 0 then e else Ticked(EmitSpec(e), ticks - 1)
  }

  lemma {:induction false} AgedWithin(ticks: int, buff: seq<Batched>)
    requires forall i | 0 <= i < |buff| :: 1 <= buff[i].iterationsLeft <= ticks
    ensures forall i | 0 <= i < |Aged(buff)| :: 1 <= Aged(buff)[i].iterationsLeft <= ticks - 1
  {
    if buff == [] {
    } else {
      AgedWithin(ticks, buff[..|buff| - 1]);
    }
  }

  /** Whatever is in the buffer has left it after T timer ticks. */
  lemma {:induction false} TicksDrain(e: Emitter, ticks: nat)
    requires !e.stopped && forall i | 0 <= i < |e.buff| :: 1 <= e.buff[i].iterationsLeft <= ticks
    ensures Ticked(e, ticks).buff == []
    decreases ticks
  {
    if ticks == 0 {
      if e.buff != [] {
        assert false;
      }
    } else {
      AgedWithin(ticks, e.buff);
      TicksDrain(EmitSpec(e), ticks - 1);
    }
  }
}
