/**
 * What a snapshot says, in terms of the events alone: every field is what the last event that sets it says, with that
 * event's own numbers. `Update` is not consulted on the right-hand sides.
 */
module StreamContents {
  import opened Wrappers
  import opened ByteStrings
  import opened SortedLists
  import opened RecentLists
  import opened Messages
  import opened Snapshots
  import opened Chains
  import opened Queries
  import opened Histories
  import opened MemberRecords

  // ---------- contents by key ----------

  function SetsChannel(id: Bytes): Numbered -> Option<Option<ChannelInfo>> {
    (n: Numbered) => match n.e.payload
      case StreamPayload(Space, ChannelUpdate(x)) => if x.channelId == id then Some(Some(x)) else None
      case _ => None
  }

  lemma ChannelStep(id: Bytes, s: Snapshot, n: Numbered)
    requires WellFormed(s) && s.content.SpaceContent?
    ensures
      var t := Apply(s, n.e, n.block, n.num);
      && t.content.SpaceContent?
      && Find(t.content.channels, ChannelKey, id) ==
           Given(SetsChannel(id)(n), Find(s.content.channels, ChannelKey, id))
  {
    hide Index, Insert, Find, UpdateMembers;
    if n.e.payload.StreamPayload? && n.e.payload.content.ChannelUpdate? {
      InsertSorted(s.content.channels, ChannelKey, n.e.payload.content.channel);
    }
  }

  /** Each channel of a space is what its last update says. */
  lemma {:induction false} ChannelLatest(id: Bytes, s: Snapshot, ns: seq<Numbered>)
    requires WellFormed(s) && s.content.SpaceContent?
    ensures
      var t := ApplyAll(s, ns);
      && t.content.SpaceContent?
      && Find(t.content.channels, ChannelKey, id) ==
           Latest(ns, SetsChannel(id), Find(s.content.channels, ChannelKey, id))
  {
    hide Apply, WellFormed, Find, SetsChannel;
    if ns != [] {
      var t := ApplyAll(s, Init(ns));
      ChannelLatest(id, s, Init(ns));
      ApplyAllKeeps(s, Init(ns));
      KeepsIsWellFormed(s, t);
      ChannelStep(id, t, Last(ns));
    }
  }

  function SetsMembership(id: Bytes): Numbered -> Option<Option<MembershipInfo>> {
    (n: Numbered) => match n.e.payload
      case StreamPayload(User, UserMembership(x)) => if x.streamId == id then Some(Some(x)) else None
      case _ => None
  }

  lemma MembershipStep(id: Bytes, s: Snapshot, n: Numbered)
    requires WellFormed(s) && s.content.UserContent?
    ensures
      var t := Apply(s, n.e, n.block, n.num);
      && t.content.UserContent?
      && Find(t.content.memberships, MembershipKey, id) ==
           Given(SetsMembership(id)(n), Find(s.content.memberships, MembershipKey, id))
  {
    hide Index, Insert, Find, UpdateMembers;
    if n.e.payload.StreamPayload? && n.e.payload.content.UserMembership? {
      InsertSorted(s.content.memberships, MembershipKey, n.e.payload.content.membership);
    }
  }

  /** Each membership of a user is what its last record says. */
  lemma {:induction false} MembershipLatest(id: Bytes, s: Snapshot, ns: seq<Numbered>)
    requires WellFormed(s) && s.content.UserContent?
    ensures
      var t := ApplyAll(s, ns);
      && t.content.UserContent?
      && Find(t.content.memberships, MembershipKey, id) ==
           Latest(ns, SetsMembership(id), Find(s.content.memberships, MembershipKey, id))
  {
    hide Apply, WellFormed, Find, SetsMembership;
    if ns != [] {
      var t := ApplyAll(s, Init(ns));
      MembershipLatest(id, s, Init(ns));
      ApplyAllKeeps(s, Init(ns));
      KeepsIsWellFormed(s, t);
      MembershipStep(id, t, Last(ns));
    }
  }

  function SetsMarker(id: Bytes): Numbered -> Option<Option<ReadMarker>> {
    (n: Numbered) => match n.e.payload
      case StreamPayload(UserSettings, FullyReadMarkers(x)) => if x.streamId == id then Some(Some(x)) else None
      case _ => None
  }

  lemma MarkerStep(id: Bytes, s: Snapshot, n: Numbered)
    requires WellFormed(s) && s.content.UserSettingsContent?
    ensures
      var t := Apply(s, n.e, n.block, n.num);
      && t.content.UserSettingsContent?
      && Find(t.content.markers, MarkerKey, id) ==
           Given(SetsMarker(id)(n), Find(s.content.markers, MarkerKey, id))
  {
    hide Index, Insert, Find, UpdateMembers;
    if n.e.payload.StreamPayload? && n.e.payload.content.FullyReadMarkers? {
      InsertSorted(s.content.markers, MarkerKey, n.e.payload.content.marker);
    }
  }

  /** Each read marker is the last one for its stream. */
  lemma {:induction false} MarkerLatest(id: Bytes, s: Snapshot, ns: seq<Numbered>)
    requires WellFormed(s) && s.content.UserSettingsContent?
    ensures
      var t := ApplyAll(s, ns);
      && t.content.UserSettingsContent?
      && Find(t.content.markers, MarkerKey, id) ==
           Latest(ns, SetsMarker(id), Find(s.content.markers, MarkerKey, id))
  {
    hide Apply, WellFormed, Find, SetsMarker;
    if ns != [] {
      var t := ApplyAll(s, Init(ns));
      MarkerLatest(id, s, Init(ns));
      ApplyAllKeeps(s, Init(ns));
      KeepsIsWellFormed(s, t);
      MarkerStep(id, t, Last(ns));
    }
  }

  // ---------- group channels, blocks, devices ----------

  function SetsProperties(): Numbered -> Option<Option<Wrapped>> {
    (n: Numbered) => match n.e.payload
      case StreamPayload(GdmChannel, ChannelProperties(data)) => Some(Some(Wrapped(data, n.block, n.e.Hash())))
      case _ => None
  }

  /** Group-channel properties are those of the last event that sets them, with its block's number. */
  lemma {:induction false} PropertiesLatest(s: Snapshot, ns: seq<Numbered>)
    requires s.content.GdmChannelContent?
    ensures
      var t := ApplyAll(s, ns);
      && t.content.GdmChannelContent?
      && t.content.properties == Latest(ns, SetsProperties(), s.content.properties)
  {
    hide UpdateMembers;
    if ns != [] {
      PropertiesLatest(s, Init(ns));
    }
  }

  function EntriesOf(bs: seq<UserBlocks>, userId: Bytes): seq<BlockEntry> {
    match Find(bs, BlocksKey, userId) case Some(b) => b.blocks case None => []
  }

  /** The block and unblock entries for a user, in order. */
  function EntriesIn(userId: Bytes, ns: seq<Numbered>): seq<BlockEntry> {
    if ns == [] then []
    else
      EntriesIn(userId, Init(ns)) +
      match Last(ns).e.payload
      case StreamPayload(UserSettings, UserBlock(u, entry)) => if u == userId then [entry] else []
      case _ => []
  }

  lemma EntriesStep(userId: Bytes, s: Snapshot, n: Numbered)
    requires WellFormed(s) && s.content.UserSettingsContent?
    ensures
      var t := Apply(s, n.e, n.block, n.num);
      && t.content.UserSettingsContent?
      && EntriesOf(t.content.userBlocks, userId) ==
           EntriesOf(s.content.userBlocks, userId) +
           match n.e.payload
           case StreamPayload(UserSettings, UserBlock(u, entry)) => if u == userId then [entry] else []
           case _ => []
  {
    hide Index, Insert, Find, UpdateMembers;
    var bs := s.content.userBlocks;
    assert EntriesOf(bs, userId) + [] == EntriesOf(bs, userId);
    if n.e.payload.StreamPayload? && n.e.payload.content.UserBlock? {
      var u := n.e.payload.content.userId;
      InsertSorted(bs, BlocksKey, UserBlocks(u, EntriesOf(bs, u) + [n.e.payload.content.block]));
    }
  }

  /** A user's block list is every entry for that user, in order. */
  lemma {:induction false} EntriesCollected(userId: Bytes, s: Snapshot, ns: seq<Numbered>)
    requires WellFormed(s) && s.content.UserSettingsContent?
    ensures
      var t := ApplyAll(s, ns);
      && t.content.UserSettingsContent?
      && EntriesOf(t.content.userBlocks, userId) == EntriesOf(s.content.userBlocks, userId) + EntriesIn(userId, ns)
  {
    hide Apply, WellFormed, EntriesOf;
    if ns != [] {
      var t := ApplyAll(s, Init(ns));
      EntriesCollected(userId, s, Init(ns));
      ApplyAllKeeps(s, Init(ns));
      KeepsIsWellFormed(s, t);
      EntriesStep(userId, t, Last(ns));
    }
  }

  function DevicesIn(ns: seq<Numbered>): seq<Device> {
    if ns == [] then []
    else
      DevicesIn(Init(ns)) +
      match Last(ns).e.payload
      case StreamPayload(UserDeviceKey, EncryptionDevice(d)) => [d]
      case _ => []
  }

  lemma DeviceStep(s: Snapshot, n: Numbered)
    requires s.content.UserDeviceKeyContent?
    ensures
      var t := Apply(s, n.e, n.block, n.num);
      && t.content.UserDeviceKeyContent?
      && t.content.devices ==
           match n.e.payload
           case StreamPayload(UserDeviceKey, EncryptionDevice(d)) => Push(s.content.devices, DeviceKeyOf, d)
           case _ => s.content.devices
  {
    hide UpdateMembers, Push;
  }

  lemma PushAllSnoc(ds: seq<Device>, d: Device)
    ensures PushAll(DeviceKeyOf, ds + [d]) == Push(PushAll(DeviceKeyOf, ds), DeviceKeyOf, d)
  {
    hide Push;
    assert (ds + [d])[..|ds|] == ds;
  }

  lemma {:induction false} DevicesPushed(s: Snapshot, ns: seq<Numbered>)
    requires s.content.UserDeviceKeyContent? && s.content.devices == []
    ensures
      var t := ApplyAll(s, ns);
      t.content.UserDeviceKeyContent? && t.content.devices == PushAll(DeviceKeyOf, DevicesIn(ns))
  {
    if ns != [] {
      hide Apply, Push, PushAll;
      var before, n := DevicesIn(Init(ns)), Last(ns);
      DevicesPushed(s, Init(ns));
      DeviceStep(ApplyAll(s, Init(ns)), n);
      assert before + [] == before;
      if n.e.payload.StreamPayload? && n.e.payload.kind.UserDeviceKey? && n.e.payload.content.EncryptionDevice? {
        PushAllSnoc(before, n.e.payload.content.device);
      }
    }
  }

  /** A user's devices since the inception are the eleven mentioned last, in the order of their last mention. */
  lemma DevicesNewest(s: Snapshot, ns: seq<Numbered>)
    requires s.content.UserDeviceKeyContent? && s.content.devices == []
    ensures
      var t := ApplyAll(s, ns);
      t.content.UserDeviceKeyContent? && t.content.devices == Newest(LastMentions(DevicesIn(ns), DeviceKeyOf), 11)
  {
    hide ApplyAll, PushAll, LastMentions, DevicesIn;
    DevicesPushed(s, ns);
    PushAllNewest(DeviceKeyOf, DevicesIn(ns));
  }

  function InboxSteps(ns: seq<Numbered>): seq<Inbox.Step> {
    if ns == [] then []
    else
      InboxSteps(Init(ns)) +
      match Last(ns).e.payload
      case StreamPayload(UserInbox, GroupEncryptionSessions(keys)) => [Inbox.Sessions(keys, Last(ns).block)]
      case StreamPayload(UserInbox, Ack(device, acked)) => [Inbox.AckStep(device, acked, Last(ns).block)]
      case _ => []
  }

  lemma InboxStep(s: Snapshot, n: Numbered)
    requires s.content.UserInboxContent?
    ensures
      var t, m := Apply(s, n.e, n.block, n.num), s.content.summaries;
      && t.content.UserInboxContent?
      && t.content.summaries ==
           match n.e.payload
           case StreamPayload(UserInbox, GroupEncryptionSessions(keys)) => Inbox.AddSessions(m, keys, n.block)
           case StreamPayload(UserInbox, Ack(device, acked)) => Inbox.AddAck(m, device, acked, n.block)
           case _ => m
  {
    hide UpdateMembers, Inbox.AddSessions, Inbox.AddAck;
  }

  lemma InboxRunSnoc(steps: seq<Inbox.Step>, step: Inbox.Step)
    ensures Inbox.Run(steps + [step]).summaries == Inbox.Next(Inbox.Run(steps), step).summaries
  {
    assert (steps + [step])[..|steps|] == steps;
  }

  /** An inbox stream's summaries are those of its messages and acknowledgements, in order. */
  lemma {:induction false} InboxIsRun(s: Snapshot, ns: seq<Numbered>)
    requires s.content.UserInboxContent? && s.content.summaries == map[]
    ensures
      var t := ApplyAll(s, ns);
      t.content.UserInboxContent? && t.content.summaries == Inbox.Run(InboxSteps(ns)).summaries
  {
    if ns != [] {
      hide Apply, Inbox.Run, Inbox.Noted, Inbox.Acked, Inbox.Cleanup, Inbox.Reference;
      var before, n := InboxSteps(Init(ns)), Last(ns);
      InboxIsRun(s, Init(ns));
      InboxStep(ApplyAll(s, Init(ns)), n);
      assert before + [] == before;
      if n.e.payload.StreamPayload? && n.e.payload.kind.UserInbox? {
        match n.e.payload.content {
          case GroupEncryptionSessions(keys) => InboxRunSnoc(before, Inbox.Sessions(keys, n.block));
          case Ack(device, acked) => InboxRunSnoc(before, Inbox.AckStep(device, acked, n.block));
          case _ =>
        }
      }
    }
  }

  // ---------- the inception ----------

  predicate IsUserKind(kind: StreamKind) {
    kind in {User, UserSettings, UserInbox, UserDeviceKey}
  }

  /** Thirty-two bytes of a known prefix; those with an address end in zeros, the others may be anything. */
  lemma StreamIdsExactly(id: Bytes)
    ensures ValidStreamId(id) <==>
      && |id| == 32
      && (|| (id[0] in {0xad, 0xa1, 0xa8, 0xa5, 0x10} && forall k :: 21 <= k < 32 ==> id[k] == 0)
          || id[0] in {0xff, 0x20, 0x88, 0x77})
  {
  }

  /** Who is joined by the inception event alone. */
  ghost function FirstJoined(kind: StreamKind, i: InceptionInfo, creator: Bytes): set<Bytes> {
    if IsUserKind(kind) then if |i.streamId| >= 21 then {i.streamId[1..21]} else {}
    else if kind.DmChannel? then {i.firstParty, i.secondParty}
    else if kind.Media? then {creator}
    else {}
  }

  predicate IsUserStreamId(id: Bytes) {
    && |id| == 32 && id[0] in {0xad, 0xa1, 0xa8, 0xa5} && forall k :: 21 <= k < 32 ==> id[k] == 0
  }

  predicate Empty(c: SnapshotContent) {
    match c
    case SpaceContent(_, channels) => channels == []
    case GdmChannelContent(_, properties) => properties.None?
    case UserContent(_, memberships) => memberships == []
    case UserSettingsContent(_, markers, blocks) => markers == [] && blocks == []
    case UserDeviceKeyContent(_, devices) => devices == []
    case UserInboxContent(_, summaries) => summaries == map[]
    case _ => true
  }

  ghost predicate Blank(joined: seq<Member>) {
    forall m :: m in joined ==> m == Member(m.userAddress, 0, 0, [], None, None, [], [])
  }

  lemma OneMember(m: Member)
    requires m == Member(m.userAddress, 0, 0, [], None, None, [], [])
    ensures Keys([m], MemberKey) == {m.userAddress} && Blank([m])
  {
    assert m in [m] && MemberKey(m) in Keys([m], MemberKey);
  }

  lemma TwoMembers(a: Bytes, b: Bytes)
    ensures
      var r := Insert([NewMember(a, 0, 0)], MemberKey, NewMember(b, 0, 0));
      Keys(r, MemberKey) == {a, b} && Blank(r)
  {
    hide Index, Insert;
    var first := NewMember(a, 0, 0);
    OneMember(first);
    InsertSorted([first], MemberKey, NewMember(b, 0, 0));
    InsertElements([first], MemberKey, NewMember(b, 0, 0));
  }

  lemma NoMembers()
    ensures Keys([], MemberKey) == {} && Blank([])
  {
  }

  lemma FirstMembersExactly(kind: StreamKind, i: InceptionInfo, creator: Bytes)
    ensures FirstMembers(kind, i, creator).Some? <==> (IsUserKind(kind) ==> IsUserStreamId(i.streamId))
    ensures FirstMembers(kind, i, creator).Some? ==>
      var joined := FirstMembers(kind, i, creator).value;
      Keys(joined, MemberKey) == FirstJoined(kind, i, creator) && Blank(joined)
  {
    hide Insert, Index, Blank, Keys;
    match kind {
      case DmChannel => TwoMembers(i.firstParty, i.secondParty);
      case Media => OneMember(NewMember(creator, 0, 0));
      case User | UserSettings | UserInbox | UserDeviceKey =>
        if IsUserStreamId(i.streamId) {
          OneMember(NewMember(i.streamId[1..21], 0, 0));
        }
      case _ => NoMembers();
    }
  }

  /**
   * An inception starts a snapshot exactly if it is one and, for the streams of a user, the stream id names the user.
   * Then the two parties of a direct channel, the user, or the creator of a media stream are joined, with empty
   * records, and everything else is empty.
   */
  lemma InceptionMembers(e: Event)
    ensures Initial(e).Some? <==>
      e.IsInception() && (IsUserKind(e.payload.kind) ==> IsUserStreamId(e.payload.content.inception.streamId))
    ensures Initial(e).Some? ==>
      var s, i := Initial(e).value, e.payload.content.inception;
      && Keys(s.joined, MemberKey) == FirstJoined(e.payload.kind, i, e.creator) && Blank(s.joined)
      && s.content.Kind() == e.payload.kind && s.content.inception == i && Empty(s.content)
  {
    hide FirstMembers, FirstJoined, Keys, Blank, IsUserKind, IsUserStreamId;
    if e.IsInception() {
      FirstMembersExactly(e.payload.kind, e.payload.content.inception, e.creator);
    }
  }

  // ---------- what is accepted ----------

  /** The contents an update of a stream of this kind takes; all others are errors. */
  predicate Takes(kind: StreamKind, content: Content) {
    match content
    case ChannelUpdate(_) => kind.Space?
    case Message => kind.Channel? || kind.DmChannel? || kind.GdmChannel?
    case ChannelProperties(_) => kind.GdmChannel?
    case UserMembership(_) | UserMembershipAction => kind.User?
    case FullyReadMarkers(_) | UserBlock(_, _) => kind.UserSettings?
    case EncryptionDevice(_) => kind.UserDeviceKey?
    case GroupEncryptionSessions(_) | Ack(_, _) => kind.UserInbox?
    case _ => false
  }

  /** Joins, leaves and invitations are always taken, every other member event from or for a joined user. */
  ghost predicate TakesMember(joined: seq<Member>, e: Event, c: MemberContent) {
    match c
    case Membership(op, _) => op.Join? || op.Leave? || op.Invite?
    case KeyFulfillment(user, _, _) => user in Keys(joined, MemberKey)
    case OtherMemberContent => false
    case _ => e.creator in Keys(joined, MemberKey)
  }

  /** Exactly which events update a snapshot; the rest are skipped in a header and abort a genesis block. */
  lemma UpdatesExactly(s: Snapshot, e: Event, num: int, eventNum: int)
    requires WellFormed(s)
    ensures Update(s, e, num, eventNum).Updated? <==>
      match e.payload
      case StreamPayload(kind, content) => kind == s.content.Kind() && Takes(kind, content)
      case MemberPayload(c) => TakesMember(s.joined, e, c)
      case _ => false
  {
    hide Index, Insert, Remove, Changed, Has;
    if e.payload.MemberPayload? {
      HasIsMembership(s.joined, MemberKey, Target(e, e.payload.member));
    }
  }

  // ---------- every stream ----------

  /** Contents that started empty, by the events since. */
  ghost predicate ContentOf(c: SnapshotContent, ns: seq<Numbered>) {
    match c
    case SpaceContent(_, channels) =>
      forall id :: Find(channels, ChannelKey, id) == Latest(ns, SetsChannel(id), None)
    case GdmChannelContent(_, properties) => properties == Latest(ns, SetsProperties(), None)
    case UserContent(_, memberships) =>
      forall id :: Find(memberships, MembershipKey, id) == Latest(ns, SetsMembership(id), None)
    case UserSettingsContent(_, markers, blocks) =>
      && (forall id :: Find(markers, MarkerKey, id) == Latest(ns, SetsMarker(id), None))
      && forall u :: EntriesOf(blocks, u) == EntriesIn(u, ns)
    case UserDeviceKeyContent(_, devices) => devices == Newest(LastMentions(DevicesIn(ns), DeviceKeyOf), 11)
    case UserInboxContent(_, summaries) => summaries == Inbox.Run(InboxSteps(ns)).summaries
    case _ => true
  }

  lemma NothingFound<T>(key: T -> Bytes, id: Bytes)
    ensures Find([], key, id) == None
  {
  }

  lemma SettingsHistory(s: Snapshot, ns: seq<Numbered>)
    requires WellFormed(s) && Empty(s.content) && s.content.UserSettingsContent?
    ensures ApplyAll(s, ns).content.UserSettingsContent? && ContentOf(ApplyAll(s, ns).content, ns)
  {
    hide ApplyAll, Latest, Find, EntriesIn, WellFormed, SetsMarker;
    var t := ApplyAll(s, ns);
    MarkerLatest([], s, ns);
    forall id ensures Find(t.content.markers, MarkerKey, id) == Latest(ns, SetsMarker(id), None) {
      MarkerLatest(id, s, ns);
      NothingFound(MarkerKey, id);
    }
    forall u ensures EntriesOf(t.content.userBlocks, u) == EntriesIn(u, ns) {
      EntriesCollected(u, s, ns);
      NothingFound(BlocksKey, u);
      assert [] + EntriesIn(u, ns) == EntriesIn(u, ns);
    }
  }

  lemma ContentHistory(s: Snapshot, ns: seq<Numbered>)
    requires WellFormed(s) && Empty(s.content)
    ensures ContentOf(ApplyAll(s, ns).content, ns)
  {
    hide ApplyAll, Latest, LastMentions, Find, EntriesIn, DevicesIn, InboxSteps, WellFormed;
    hide SetsChannel, SetsMembership, SetsMarker, SetsProperties;
    ApplyAllKeeps(s, ns);
    match s.content {
      case SpaceContent(_, _) =>
        forall id ensures Find(ApplyAll(s, ns).content.channels, ChannelKey, id) == Latest(ns, SetsChannel(id), None) {
          ChannelLatest(id, s, ns);
          NothingFound(ChannelKey, id);
        }
      case GdmChannelContent(_, _) => PropertiesLatest(s, ns);
      case UserContent(_, _) =>
        forall id
          ensures Find(ApplyAll(s, ns).content.memberships, MembershipKey, id) == Latest(ns, SetsMembership(id), None)
        {
          MembershipLatest(id, s, ns);
          NothingFound(MembershipKey, id);
        }
      case UserSettingsContent(_, _, _) => SettingsHistory(s, ns);
      case UserDeviceKeyContent(_, _) => DevicesNewest(s, ns);
      case UserInboxContent(_, _) => InboxIsRun(s, ns);
      case _ =>
    }
  }

  /**
   * The replay every snapshot is measured against says what the events say: for every chain the member records, and
   * the contents of every kind of stream, are those of the last events that set them.
   */
  lemma ReplaySays(blocks: seq<Block>, threshold: int, user: Bytes)
    requires Chain(blocks, threshold)
    ensures blocks[0].events != [] && Initial(blocks[0].events[0]).Some?
    ensures
      var first, ns := Initial(blocks[0].events[0]).value, History(blocks);
      && RecordOf(user, Find(first.joined, MemberKey, user), ns, Find(Replay(blocks).joined, MemberKey, user))
      && ContentOf(Replay(blocks).content, ns)
  {
    hide ApplyAll, Replay, Follows, RecordOf, ContentOf, Find, Initial, History, WellFormed, Empty, IsGenesis;
    ReplayIsApplyAll(blocks, threshold);
    var e := blocks[0].events[0];
    InceptionMembers(e);
    InitialIsWellFormed(e);
    RecordsAfter(user, Initial(e).value, History(blocks));
    ContentHistory(Initial(e).value, History(blocks));
  }

  /** So does every snapshot in a header, about the events up to and including its block. */
  lemma HeaderSays(blocks: seq<Block>, threshold: int, i: nat, user: Bytes)
    requires Chain(blocks, threshold) && i < |blocks| && blocks[i].header.snapshot.Some?
    ensures blocks[0].events != [] && Initial(blocks[0].events[0]).Some? && blocks[..i + 1][0] == blocks[0]
    ensures
      var first, ns := Initial(blocks[0].events[0]).value, History(blocks[..i + 1]);
      var s := blocks[i].header.snapshot.value;
      && RecordOf(user, Find(first.joined, MemberKey, user), ns, Find(s.joined, MemberKey, user))
      && ContentOf(s.content, ns)
  {
    hide Replay, Follows, RecordOf, ContentOf, Find, Initial, History, IsGenesis;
    SnapshotAt(blocks, threshold, i);
    ChainPrefix(blocks, threshold, i + 1);
    ReplaySays(blocks[..i + 1], threshold, user);
  }
}
