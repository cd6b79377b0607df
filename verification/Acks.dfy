/** Sending to some peers and collecting their acknowledgements: gossip/communicate.go's ack operation and
    the verdict of `SendByCriteria` in gossip/gossip.go. */
module Acks {
  import opened Sequences
  import opened Messages
  import opened Membership
  import opened Selection

  datatype SendResult = SendResult(error: Option<string>, peer: RemotePeer)

  const IS_ACK: SendResult -> bool := (r: SendResult) => r.error == None

  function Until(arrivals: seq<SendResult>, minAck: int, n: nat): seq<SendResult>
    decreases |arrivals| - n
  {
    if n >= |arrivals| then arrivals
    else if Count(IS_ACK, arrivals[..n]) == minAck then arrivals[..n]
    else Until(arrivals, minAck, n + 1)
  }

  /** The results collected when they arrive in the given order: up to the first point where as many have
      succeeded as were asked for, or all of them. */
  function Collected(arrivals: seq<SendResult>, minAck: int): seq<SendResult> {
    Until(arrivals, minAck, 1)
  }

  lemma CountNext(arrivals: seq<SendResult>, n: nat)
    requires n < |arrivals|
    ensures arrivals[..n] + [arrivals[n]] == arrivals[..n + 1]
    ensures Count(IS_ACK, arrivals[..n + 1]) == Count(IS_ACK, arrivals[..n]) + if IS_ACK(arrivals[n]) then 1 else 0
  {
    assert arrivals[..n + 1][..n] == arrivals[..n];
  }

  /** `ackSendOperation.send`; every peer answers exactly once, with an acknowledgement or an error, and
      `arrivals` is the order of the answers. No more answers are awaited than there are peers. */
  method Send(arrivals: seq<SendResult>, minAckNum: int) returns (results: seq<SendResult>)
    requires arrivals != []
    ensures results == Collected(arrivals, minAckNum)
  {
    var successAcks := 0;
    results := [];
    while true
      invariant |results| < |arrivals|
      invariant results == arrivals[..|results|]
      invariant successAcks == Count(IS_ACK, results)
      invariant Until(arrivals, minAckNum, |results| + 1) == Collected(arrivals, minAckNum)
      decreases |arrivals| - |results|
    {
      var ack := arrivals[|results|];
      ghost var n := |results|;
      results := results + [ack];
      CountNext(arrivals, n);
      if ack.error == None {
        successAcks := successAcks + 1;
      }
      if successAcks == minAckNum || |results| == |arrivals| {
        assert arrivals[..|arrivals|] == arrivals;
        break;
      }
    }
  }

  method AckCount(results: seq<SendResult>) returns (c: int)
    ensures c == Count(IS_ACK, results)
  {
    c := 0;
    for i := 0 to |results|
      invariant c == Count(IS_ACK, results[..i])
    {
      assert results[..i + 1][..i] == results[..i];
      if results[i].error == None {
        c := c + 1;
      }
    }
    assert results[..|results|] == results;
  }

  lemma {:induction false} UntilCount(arrivals: seq<SendResult>, minAck: int, n: nat)
    requires 1 <= n <= |arrivals| && 1 <= minAck && Count(IS_ACK, arrivals[..n - 1]) < minAck
    ensures var all := Count(IS_ACK, arrivals);
            Count(IS_ACK, Until(arrivals, minAck, n)) == if all < minAck then all else minAck
    decreases |arrivals| - n
  {
    assert arrivals[..n][..n - 1] == arrivals[..n - 1];
    if n == |arrivals| {
      assert arrivals[..n] == arrivals;
    } else if Count(IS_ACK, arrivals[..n]) == minAck {
      assert arrivals == arrivals[..n] + arrivals[n..];
      CountConcat(IS_ACK, arrivals[..n], arrivals[n..]);
    } else {
      UntilCount(arrivals, minAck, n + 1);
    }
  }

  /** In any arrival order, min(minAck, successes) acknowledgements are collected. */
  lemma AcksCollected(arrivals: seq<SendResult>, minAck: int)
    requires arrivals != [] && 1 <= minAck
    ensures var all := Count(IS_ACK, arrivals);
            Count(IS_ACK, Collected(arrivals, minAck)) == if all < minAck then all else minAck
  {
    assert arrivals[..0] == [];
    UntilCount(arrivals, minAck, 1);
  }

  lemma {:induction false} UntilAll(arrivals: seq<SendResult>, minAck: int, n: nat)
    requires 1 <= n <= |arrivals| && minAck <= 0
    requires minAck == 0 ==> Count(IS_ACK, arrivals[..n]) > 0
    ensures Until(arrivals, minAck, n) == arrivals
    decreases |arrivals| - n
  {
    if n == |arrivals| {
    } else {
      assert arrivals[..n + 1][..n] == arrivals[..n];
      UntilAll(arrivals, minAck, n + 1);
    }
  }

  /** Asking for no acknowledgement does not end the wait at once: the first answer ends it only if it is
      an error, and otherwise every answer is awaited. */
  lemma NoAcksAskedFor(arrivals: seq<SendResult>)
    requires arrivals != []
    ensures Collected(arrivals, 0) == if arrivals[0].error != None then arrivals[..1] else arrivals
  {
    assert arrivals[..1][..0] == [] && arrivals[..1][0] == arrivals[0];
    if arrivals[0].error != None {
      assert Count(IS_ACK, arrivals[..1]) == 0;
      assert |arrivals| == 1 ==> arrivals[..1] == arrivals;
    } else {
      UntilAll(arrivals, 0, 1);
    }
  }

  /** The ack-count check passes exactly if enough peers succeed, whatever number was asked for and in
      whatever order the answers came. */
  lemma EnoughIffEnoughSucceed(arrivals: seq<SendResult>, minAck: int)
    requires arrivals != []
    ensures Count(IS_ACK, Collected(arrivals, minAck)) >= minAck <==> Count(IS_ACK, arrivals) >= minAck
  {
    if minAck >= 1 {
      AcksCollected(arrivals, minAck);
    }
  }

  lemma VerdictIgnoresOrder(arrivals: seq<SendResult>, others: seq<SendResult>, minAck: int)
    requires arrivals != [] && multiset(arrivals) == multiset(others)
    ensures others != []
    ensures Count(IS_ACK, Collected(arrivals, minAck)) >= minAck <==> Count(IS_ACK, Collected(others, minAck)) >= minAck
    ensures minAck >= 1 ==> Count(IS_ACK, Collected(arrivals, minAck)) == Count(IS_ACK, Collected(others, minAck))
  {
    assert arrivals[0] in multiset(others);
    CountOfMultiset(IS_ACK, arrivals, others);
    EnoughIffEnoughSucceed(arrivals, minAck);
    EnoughIffEnoughSucceed(others, minAck);
    if minAck >= 1 {
      AcksCollected(arrivals, minAck);
      AcksCollected(others, minAck);
    }
  }

  // ----- SendByCriteria -----

  datatype Verdict = Delivered | TimeoutMissing | ChannelMissing | TooFewPeers | TooFewAcks

  /** `members` is the membership of the channel asked for, or of the whole network if none is; None if
      the channel does not exist. */
  datatype Criteria = Criteria(maxPeers: int, timeout: int, minAck: int, members: Option<seq<Peer>>,
                               isEligible: RoutingFilter)

  /** How the selected peers answer, in order of arrival: once each. */
  type Answers = seq<RemotePeer> -> seq<SendResult>

  /** The answers of a communication layer that is shutting down. */
  function Refused(peers: seq<RemotePeer>): (r: seq<SendResult>)
    ensures |r| == |peers| && forall i | 0 <= i < |peers| :: r[i] == SendResult(Some("comm is stopping"), peers[i])
  {
    seq(|peers|, i requires 0 <= i < |peers| => SendResult(Some("comm is stopping"), peers[i]))
  }

  method SendWithAck(peers: seq<RemotePeer>, arrivals: seq<SendResult>, minAck: int, stopping: bool)
    returns (results: seq<SendResult>)
    requires |arrivals| == |peers|
    ensures results == if peers == [] then [] else if stopping then Refused(peers) else Collected(arrivals, minAck)
    ensures Count(IS_ACK, results) >= minAck <==> (if stopping then 0 else Count(IS_ACK, arrivals)) >= minAck
  {
    if |peers| == 0 {
      return [];
    }
    if stopping {
      results := [];
      for i := 0 to |peers|
        invariant results == Refused(peers)[..i] && Count(IS_ACK, results) == 0
      {
        CountAppend(IS_ACK, results, SendResult(Some("comm is stopping"), peers[i]));
        results := results + [SendResult(Some("comm is stopping"), peers[i])];
      }
      return;
    }
    EnoughIffEnoughSucceed(arrivals, minAck);
    results := Send(arrivals, minAck);
  }

  /** `shuffle` puts the members in the order of the random permutation; `stopping` says whether the
      communication layer is shutting down, in which case every peer fails. */
  method SendByCriteria(criteria: Criteria, shuffle: seq<Peer> -> seq<Peer>, answers: Answers, stopping: bool)
    returns (verdict: Verdict)
    requires forall ps :: |answers(ps)| == |ps|
    requires criteria.members.Some? ==> multiset(shuffle(criteria.members.value)) == multiset(criteria.members.value)
    ensures verdict ==
            if criteria.maxPeers == 0 then Delivered
            else if criteria.timeout == 0 then TimeoutMissing
            else if criteria.members == None then ChannelMissing
            else
              var eligible := Count(criteria.isEligible, criteria.members.value);
              var selected := if 0 <= criteria.maxPeers < eligible then criteria.maxPeers else eligible;
              var peers := Remotes(Take(criteria.maxPeers,
                                        Filter(criteria.isEligible, shuffle(criteria.members.value))));
              if selected < criteria.minAck then TooFewPeers
              else if (if stopping then 0 else Count(IS_ACK, answers(peers))) < criteria.minAck then TooFewAcks
              else Delivered
  {
    if criteria.maxPeers == 0 {
      return Delivered;
    }
    if criteria.timeout == 0 {
      return TimeoutMissing;
    }
    if criteria.members == None {
      return ChannelMissing;
    }
    SelectionCount(criteria.maxPeers, criteria.members.value, shuffle(criteria.members.value), criteria.isEligible);
    var peers2send := SelectPeers(criteria.maxPeers, shuffle(criteria.members.value), criteria.isEligible);
    if |peers2send| < criteria.minAck {
      return TooFewPeers;
    }
    var results := SendWithAck(peers2send, answers(peers2send), criteria.minAck, stopping);
    var acks := AckCount(results);
    verdict := if acks < criteria.minAck then TooFewAcks else Delivered;
  }

  lemma {:induction false} UntilIsShortest(arrivals: seq<SendResult>, minAck: int, n: nat)
    requires 1 <= n <= |arrivals| && 1 <= minAck
    requires forall k | 0 <= k < n :: Count(IS_ACK, arrivals[..k]) < minAck
    ensures var r := Until(arrivals, minAck, n);
            && n <= |r| <= |arrivals| && r == arrivals[..|r|]
            && (Count(IS_ACK, r) == minAck || r == arrivals)
            && (forall k | 0 <= k < |r| :: Count(IS_ACK, arrivals[..k]) < minAck)
    decreases |arrivals| - n
  {
    if n == |arrivals| {
      assert arrivals[..n] == arrivals;
    } else if Count(IS_ACK, arrivals[..n]) != minAck {
      CountNext(arrivals, n - 1);
      UntilIsShortest(arrivals, minAck, n + 1);
    }
  }

  /** Exactly when the wait ends: with the first answer that makes the successes enough, or with the last. */
  lemma CollectedIsShortest(arrivals: seq<SendResult>, minAck: int)
    requires arrivals != [] && 1 <= minAck
    ensures var r := Collected(arrivals, minAck);
            && 1 <= |r| <= |arrivals| && r == arrivals[..|r|]
            && (Count(IS_ACK, r) == minAck || r == arrivals)
            && (forall k | 0 <= k < |r| :: Count(IS_ACK, arrivals[..k]) < minAck)
  {
    assert arrivals[..0] == [];
    UntilIsShortest(arrivals, minAck, 1);
  }
}
