/**
 * The protobuf messages as values. A hash is the hashed event itself under a constructor, so hashing is injective
 * (collision-free) and a block's hash fixes everything in its header.
 */
module Messages {
  import opened Wrappers
  import opened ByteStrings

  datatype StreamKind =
    Space | Channel | DmChannel | GdmChannel | User | UserSettings | UserDeviceKey | UserInbox | Media

  datatype Hash = NoHash | HashOf(event: Event)

  datatype Event = Event(creator: Bytes, salt: Bytes, prevHash: Hash, payload: Payload)
  {
    function Hash(): Hash { HashOf(this) }

    predicate IsHeader() { payload.BlockHeader? }

    predicate IsInception() { payload.StreamPayload? && payload.content.Inception? }

    /** The payload type belongs to a stream of this kind; member payloads belong to every stream. */
    predicate Fits(kind: StreamKind) {
      match payload
      case StreamPayload(k, _) => k == kind
      case MemberPayload(_) => true
      case _ => false
    }
  }

  datatype Payload =
    | StreamPayload(kind: StreamKind, content: Content)
    | MemberPayload(member: MemberContent)
    | BlockHeader(header: Header)
    | UnknownPayload

  /** The contents the nine stream payloads can carry; which content is legal depends on the kind. */
  datatype Content =
    | Inception(inception: InceptionInfo)
    | ChannelUpdate(channel: ChannelInfo)
    | Message
    | ChannelProperties(data: Bytes)
    | UserMembership(membership: MembershipInfo)
    | UserMembershipAction
    | FullyReadMarkers(marker: ReadMarker)
    | UserBlock(userId: Bytes, block: BlockEntry)
    | EncryptionDevice(device: Device)
    | GroupEncryptionSessions(deviceKeys: set<Bytes>)
    | Ack(deviceKey: Bytes, ackedBlock: int)
    | OtherContent

  datatype InceptionInfo = InceptionInfo(streamId: Bytes, firstParty: Bytes, secondParty: Bytes)
  datatype ChannelInfo = ChannelInfo(channelId: Bytes, op: int, origin: Bytes)
  datatype MembershipOp = Unspecified | Invite | Join | Leave | OtherOp(n: int)
  datatype MembershipInfo = MembershipInfo(streamId: Bytes, op: MembershipOp)
  datatype ReadMarker = ReadMarker(streamId: Bytes, content: Bytes)
  datatype BlockEntry = BlockEntry(isBlocked: bool, eventNum: int)
  datatype UserBlocks = UserBlocks(userId: Bytes, blocks: seq<BlockEntry>)
  datatype Device = Device(deviceKey: Bytes, fallbackKey: Bytes)
  datatype Solicitation = Solicitation(deviceKey: Bytes, fallbackKey: Bytes, isNewDevice: bool, sessionIds: seq<Bytes>)

  datatype MemberContent =
    | Membership(op: MembershipOp, userAddress: Bytes)
    | KeySolicitation(solicitation: Solicitation)
    | KeyFulfillment(user: Bytes, deviceKey: Bytes, sessionIds: seq<Bytes>)
    | DisplayName(data: Bytes)
    | Username(data: Bytes)
    | EnsAddress(address: Bytes)
    | Nft(token: Bytes)
    | OtherMemberContent

  datatype Wrapped = Wrapped(data: Bytes, eventNum: int, eventHash: Hash)

  datatype Member = Member(
    userAddress: Bytes, miniblockNum: int, eventNum: int, solicitations: seq<Solicitation>,
    username: Option<Wrapped>, displayName: Option<Wrapped>, ensAddress: Bytes, nft: Bytes)

  datatype Summary = Summary(lower: int, upper: int)

  datatype SnapshotContent =
    | SpaceContent(inception: InceptionInfo, channels: seq<ChannelInfo>)
    | ChannelContent(inception: InceptionInfo)
    | DmChannelContent(inception: InceptionInfo)
    | GdmChannelContent(inception: InceptionInfo, properties: Option<Wrapped>)
    | UserContent(inception: InceptionInfo, memberships: seq<MembershipInfo>)
    | UserSettingsContent(inception: InceptionInfo, markers: seq<ReadMarker>, userBlocks: seq<UserBlocks>)
    | UserDeviceKeyContent(inception: InceptionInfo, devices: seq<Device>)
    | UserInboxContent(inception: InceptionInfo, summaries: map<Bytes, Summary>)
    | MediaContent(inception: InceptionInfo)
  {
    function Kind(): StreamKind {
      match this
      case SpaceContent(_, _) => Space
      case ChannelContent(_) => Channel
      case DmChannelContent(_) => DmChannel
      case GdmChannelContent(_, _) => GdmChannel
      case UserContent(_, _) => User
      case UserSettingsContent(_, _, _) => UserSettings
      case UserDeviceKeyContent(_, _) => UserDeviceKey
      case UserInboxContent(_, _) => UserInbox
      case MediaContent(_) => Media
    }
  }

  datatype Snapshot = Snapshot(content: SnapshotContent, joined: seq<Member>)

  datatype Timestamp = Timestamp(seconds: int, nanos: int)
  {
    predicate Before(t: Timestamp) { seconds < t.seconds || (seconds == t.seconds && nanos < t.nanos) }
    function Nanoseconds(): int { seconds * 1_000_000_000 + nanos }
  }

  datatype Header = Header(
    num: int, timestamp: Timestamp, eventHashes: seq<Hash>, prevHash: Hash,
    snapshot: Option<Snapshot>, eventNumOffset: int, prevSnapshotNum: int)

  /** A miniblock: the node that signed it, the header, and the events in order. */
  datatype Block = Block(signer: Bytes, header: Header, events: seq<Event>)
  {
    function HeaderEvent(): Event { Event(signer, [], header.prevHash, BlockHeader(header)) }
    function Hash(): Hash { HeaderEvent().Hash() }
  }

  function Hashes(es: seq<Event>): (r: seq<Hash>)
    ensures |r| == |es|
    ensures forall i :: 0 <= i < |es| ==> r[i] == es[i].Hash()
  {
    seq(|es|, i requires 0 <= i < |es| => es[i].Hash())
  }
}
