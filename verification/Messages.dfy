/** The gossip messages the model distinguishes, and the fixed-width integers they carry. */
module Messages {
  import opened Sequences

  const TWO_63: int := 0x8000_0000_0000_0000
  const TWO_64: int := 0x1_0000_0000_0000_0000

  type uint64 = x: int | 0 <= x < TWO_64
  type int64 = x: int | -TWO_63 <= x < TWO_63

  /** Go's conversions between int64 and uint64: the same 64 bits, read the other way. */
  function ToUint64(x: int): uint64 {
    x % TWO_64
  }

  function ToInt64(x: uint64): int64 {
    if x < TWO_63 then x else x - TWO_64
  }

  type PkiId = string

  datatype PeerTime = PeerTime(incNum: uint64, seqNum: uint64)

  datatype Member = Member(endpoint: string, metadata: string, pkiId: PkiId)

  /** One constructor per alternative of a gossip message that the modelled code tells apart.
      `EmptyDataMsg` is a data message whose payload is missing; `OtherContent` stands for all
      remaining alternatives. */
  datatype Content =
    | AliveMsg(membership: Member, aliveTime: PeerTime)
    | DataMsg(seqNum: uint64, block: string)
    | EmptyDataMsg
    | StateInfo(statePki: PkiId, stateTime: PeerTime)
    | PeerIdentity(idPki: PkiId, cert: string)
    | LeadershipMsg(leaderPki: PkiId, leaderTime: PeerTime)
    | OtherContent

  datatype Tag = Undefined | Empty | OrgOnly | ChanOnly | ChanAndOrg | ChanOrOrg

  /** A message with its envelope; `secret` is the internal endpoint of the secret envelope. */
  datatype SignedMessage = SignedMessage(content: Content, channel: string, tag: Tag, secret: Option<string>)
}
