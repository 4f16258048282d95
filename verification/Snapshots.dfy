/**
 * The snapshot of a stream and how one event changes it. `Update` is the specification; the class at the end mutates
 * a cloned snapshot in place as the source does.
 */
module Snapshots {
  import opened Wrappers
  import opened ByteStrings
  import opened SortedLists
  import opened Messages
  import Inbox
  import opened RecentLists

  /** A rejected update is logged by the caller and changes nothing; a payload of the wrong kind panics. */
  datatype UpdateResult = Updated(snapshot: Snapshot) | Rejected | Panicked

  function MemberKey(m: Member): Bytes { m.userAddress }
  function ChannelKey(c: ChannelInfo): Bytes { c.channelId }
  function MembershipKey(m: MembershipInfo): Bytes { m.streamId }
  function MarkerKey(m: ReadMarker): Bytes { m.streamId }
  function BlocksKey(b: UserBlocks): Bytes { b.userId }
  function DeviceKeyOf(d: Device): Bytes { d.deviceKey }
  function SolicitationKey(s: Solicitation): Bytes { s.deviceKey }

  ghost predicate WellFormedContent(c: SnapshotContent) {
    match c
    case SpaceContent(_, channels) => Sorted(channels, ChannelKey)
    case UserContent(_, memberships) => Sorted(memberships, MembershipKey)
    case UserSettingsContent(_, markers, blocks) => Sorted(markers, MarkerKey) && Sorted(blocks, BlocksKey)
    case UserDeviceKeyContent(_, devices) => Recent(devices, DeviceKeyOf)
    case _ => true
  }

  ghost predicate WellFormedMembers(joined: seq<Member>) {
    && Sorted(joined, MemberKey)
    && forall m :: m in joined ==> Recent(m.solicitations, SolicitationKey)
  }

  ghost predicate WellFormed(s: Snapshot) {
    WellFormedContent(s.content) && WellFormedMembers(s.joined)
  }

  // ---------- members ----------

  function NewMember(address: Bytes, miniblockNum: int, eventNum: int): Member {
    Member(address, miniblockNum, eventNum, [], None, None, [], [])
  }

  function Solicit(m: Member, s: Solicitation): Member {
    m.(solicitations := Push(m.solicitations, SolicitationKey, s))
  }

  /** Only the first solicitation of the device loses its fulfilled ids. */
  function FulfillFirst(ss: seq<Solicitation>, deviceKey: Bytes, ids: seq<Bytes>): (r: seq<Solicitation>)
    ensures |r| == |ss|
    ensures forall i :: 0 <= i < |ss| ==> r[i].deviceKey == ss[i].deviceKey
  {
    if ss == [] then []
    else if ss[0].deviceKey == deviceKey then
      [ss[0].(sessionIds := RemoveCommon(ss[0].sessionIds, ids), isNewDevice := false)] + ss[1..]
    else [ss[0]] + FulfillFirst(ss[1..], deviceKey, ids)
  }

  function Fulfill(m: Member, deviceKey: Bytes, ids: seq<Bytes>): Member {
    m.(solicitations := FulfillFirst(m.solicitations, deviceKey, ids))
  }

  /** Whose member record an event other than a membership changes, and the record it becomes. */
  function Target(e: Event, c: MemberContent): Bytes {
    if c.KeyFulfillment? then c.user else e.creator
  }

  function Changed(m: Member, e: Event, c: MemberContent, eventNum: int): Member {
    match c
    case KeySolicitation(s) => Solicit(m, s)
    case KeyFulfillment(_, deviceKey, ids) => Fulfill(m, deviceKey, ids)
    case DisplayName(data) => m.(displayName := Some(Wrapped(data, eventNum, e.Hash())))
    case Username(data) => m.(username := Some(Wrapped(data, eventNum, e.Hash())))
    case EnsAddress(a) => m.(ensAddress := a)
    case Nft(token) => m.(nft := token)
    case _ => m
  }

  function UpdateMembers(joined: seq<Member>, e: Event, c: MemberContent, miniblockNum: int, eventNum: int)
    : Option<seq<Member>>
  {
    match c
    case Membership(Join, user) => Some(Insert(joined, MemberKey, NewMember(user, miniblockNum, eventNum)))
    case Membership(Leave, user) => Some(Remove(joined, MemberKey, user))
    case Membership(Invite, _) => Some(joined)
    case Membership(_, _) => None
    case OtherMemberContent => None
    case _ =>
      match Find(joined, MemberKey, Target(e, c))
      case None => None
      case Some(m) => Some(Insert(joined, MemberKey, Changed(m, e, c, eventNum)))
  }

  // ---------- stream content ----------

  function AddUserBlock(bs: seq<UserBlocks>, userId: Bytes, b: BlockEntry): seq<UserBlocks> {
    var earlier := match Find(bs, BlocksKey, userId) case Some(o) => o.blocks case None => [];
    Insert(bs, BlocksKey, UserBlocks(userId, earlier + [b]))
  }

  function UpdateContent(c: SnapshotContent, e: Event, content: Content, miniblockNum: int): Option<SnapshotContent> {
    match c
    case SpaceContent(i, channels) =>
      if content.ChannelUpdate? then Some(SpaceContent(i, Insert(channels, ChannelKey, content.channel))) else None
    case ChannelContent(_) => if content.Message? then Some(c) else None
    case DmChannelContent(_) => if content.Message? then Some(c) else None
    case GdmChannelContent(i, _) =>
      // the recorded event number is the miniblock number the caller passes
      if content.ChannelProperties? then Some(GdmChannelContent(i, Some(Wrapped(content.data, miniblockNum, e.Hash()))))
      else if content.Message? then Some(c) else None
    case UserContent(i, memberships) =>
      if content.UserMembership? then Some(UserContent(i, Insert(memberships, MembershipKey, content.membership)))
      else if content.UserMembershipAction? then Some(c) else None
    case UserSettingsContent(i, markers, blocks) =>
      if content.FullyReadMarkers? then Some(UserSettingsContent(i, Insert(markers, MarkerKey, content.marker), blocks))
      else if content.UserBlock? then
        Some(UserSettingsContent(i, markers, AddUserBlock(blocks, content.userId, content.block)))
      else None
    case UserDeviceKeyContent(i, devices) =>
      if content.EncryptionDevice? then Some(UserDeviceKeyContent(i, Push(devices, DeviceKeyOf, content.device)))
      else None
    case UserInboxContent(i, m) =>
      if content.GroupEncryptionSessions? then
        Some(UserInboxContent(i, Inbox.AddSessions(m, content.deviceKeys, miniblockNum)))
      else if content.Ack? then
        Some(UserInboxContent(i, Inbox.AddAck(m, content.deviceKey, content.ackedBlock, miniblockNum)))
      else None
    case MediaContent(_) => None
  }

  /** A payload of another stream kind trips a type assertion; media, header and unknown payloads are plain errors. */
  predicate Panics(e: Event, kind: StreamKind) {
    e.payload.StreamPayload? && !e.payload.kind.Media? && e.payload.kind != kind
  }

  function Update(s: Snapshot, e: Event, miniblockNum: int, eventNum: int): UpdateResult {
    match e.payload
    case StreamPayload(Media, _) => Rejected
    case StreamPayload(kind, content) =>
      if kind != s.content.Kind() then Panicked
      else (match UpdateContent(s.content, e, content, miniblockNum)
            case Some(c) => Updated(s.(content := c))
            case None => Rejected)
    case MemberPayload(c) =>
      (match UpdateMembers(s.joined, e, c, miniblockNum, eventNum)
       case Some(joined) => Updated(s.(joined := joined))
       case None => Rejected)
    case _ => Rejected
  }

  /** The update as the header builder uses it: an error leaves the snapshot as it was. */
  function Apply(s: Snapshot, e: Event, miniblockNum: int, eventNum: int): Snapshot {
    match Update(s, e, miniblockNum, eventNum)
    case Updated(t) => t
    case _ => s
  }

  /** Apply the events of one block; the first has number `firstNum`. */
  function FoldEvents(s: Snapshot, es: seq<Event>, miniblockNum: int, firstNum: int): Snapshot {
    if es == [] then s
    else
      var n := |es| - 1;
      Apply(FoldEvents(s, es[..n], miniblockNum, firstNum), es[n], miniblockNum, firstNum + n)
  }

  // ---------- what every update keeps ----------

  lemma FulfillKeepsRecent(ss: seq<Solicitation>, deviceKey: Bytes, ids: seq<Bytes>)
    requires Recent(ss, SolicitationKey)
    ensures Recent(FulfillFirst(ss, deviceKey, ids), SolicitationKey)
  {
    var r := FulfillFirst(ss, deviceKey, ids);
    assert forall i :: 0 <= i < |ss| ==> SolicitationKey(r[i]) == SolicitationKey(ss[i]);
  }

  lemma ChangedKeepsKey(m: Member, e: Event, c: MemberContent, eventNum: int)
    requires Recent(m.solicitations, SolicitationKey)
    ensures var r := Changed(m, e, c, eventNum);
      r.userAddress == m.userAddress && Recent(r.solicitations, SolicitationKey)
  {
    match c {
      case KeySolicitation(s) => PushKeepsRecent(m.solicitations, SolicitationKey, s);
      case KeyFulfillment(_, deviceKey, ids) => FulfillKeepsRecent(m.solicitations, deviceKey, ids);
      case _ =>
    }
  }

  lemma InsertKeepsMembers(joined: seq<Member>, m: Member)
    requires WellFormedMembers(joined) && Recent(m.solicitations, SolicitationKey)
    ensures WellFormedMembers(Insert(joined, MemberKey, m))
  {
    hide Index, Insert, Recent;
    InsertSorted(joined, MemberKey, m);
    InsertElements(joined, MemberKey, m);
  }

  lemma UpdateMembersKeeps(joined: seq<Member>, e: Event, c: MemberContent, miniblockNum: int, eventNum: int)
    requires WellFormedMembers(joined)
    ensures var r := UpdateMembers(joined, e, c, miniblockNum, eventNum); r.Some? ==> WellFormedMembers(r.value)
  {
    hide Index, Insert, Remove, Changed;
    match c {
      case Membership(Join, user) => InsertKeepsMembers(joined, NewMember(user, miniblockNum, eventNum));
      case Membership(Leave, user) =>
        RemoveSorted(joined, MemberKey, user);
        RemoveElements(joined, MemberKey, user);
      case _ =>
        var m := Find(joined, MemberKey, Target(e, c));
        if m.Some? {
          ChangedKeepsKey(m.value, e, c, eventNum);
          InsertKeepsMembers(joined, Changed(m.value, e, c, eventNum));
        }
    }
  }

  lemma UpdateContentKeeps(c: SnapshotContent, e: Event, content: Content, miniblockNum: int)
    requires WellFormedContent(c)
    ensures var r := UpdateContent(c, e, content, miniblockNum);
      r.Some? ==> WellFormedContent(r.value) && r.value.Kind() == c.Kind() && r.value.inception == c.inception
  {
    match c {
      case SpaceContent(_, channels) =>
        if content.ChannelUpdate? { InsertSorted(channels, ChannelKey, content.channel); }
      case UserContent(_, memberships) =>
        if content.UserMembership? { InsertSorted(memberships, MembershipKey, content.membership); }
      case UserSettingsContent(_, markers, blocks) =>
        if content.FullyReadMarkers? {
          InsertSorted(markers, MarkerKey, content.marker);
        } else if content.UserBlock? {
          var earlier := match Find(blocks, BlocksKey, content.userId) case Some(o) => o.blocks case None => [];
          InsertSorted(blocks, BlocksKey, UserBlocks(content.userId, earlier + [content.block]));
        }
      case UserDeviceKeyContent(_, devices) =>
        if content.EncryptionDevice? { PushKeepsRecent(devices, DeviceKeyOf, content.device); }
      case _ =>
    }
  }

  ghost predicate Keeps(s: Snapshot, t: Snapshot) {
    WellFormed(t) && t.content.Kind() == s.content.Kind() && t.content.inception == s.content.inception
  }

  /** Every list stays sorted and duplicate-free; kind and inception never change; a fitting event never panics. */
  lemma ApplyKeeps(s: Snapshot, e: Event, miniblockNum: int, eventNum: int)
    requires WellFormed(s)
    ensures Keeps(s, Apply(s, e, miniblockNum, eventNum))
    ensures Panics(e, s.content.Kind()) <==> Update(s, e, miniblockNum, eventNum).Panicked?
  {
    match e.payload {
      case StreamPayload(_, content) => UpdateContentKeeps(s.content, e, content, miniblockNum);
      case MemberPayload(c) => UpdateMembersKeeps(s.joined, e, c, miniblockNum, eventNum);
      case _ =>
    }
  }

  lemma KeepsTransitive(s: Snapshot, t: Snapshot, u: Snapshot)
    requires Keeps(s, t) && Keeps(t, u)
    ensures Keeps(s, u)
  {
  }

  lemma {:induction false} FoldEventsKeeps(s: Snapshot, es: seq<Event>, miniblockNum: int, firstNum: int)
    requires WellFormed(s)
    ensures Keeps(s, FoldEvents(s, es, miniblockNum, firstNum))
  {
    hide Apply;
    if es != [] {
      var n := |es| - 1;
      var t := FoldEvents(s, es[..n], miniblockNum, firstNum);
      FoldEventsKeeps(s, es[..n], miniblockNum, firstNum);
      ApplyKeeps(t, es[n], miniblockNum, firstNum + n);
      KeepsTransitive(s, t, Apply(t, es[n], miniblockNum, firstNum + n));
    }
  }

  // ---------- genesis ----------

  const STREAM_ID_LENGTH := 32

  /** Bytes of content a stream id of this prefix may use, prefix included; the rest must be zero. */
  function ContentLength(prefix: byte): Option<nat> {
    if prefix in {0xad, 0xa1, 0xa8, 0xa5, 0x10} then Some(21)
    else if prefix in {0xff, 0x20, 0x88, 0x77} then Some(32)
    else None
  }

  predicate ValidStreamId(b: Bytes) {
    && |b| == STREAM_ID_LENGTH
    && ContentLength(b[0]).Some?
    && forall i :: ContentLength(b[0]).value <= i < |b| ==> b[i] == 0
  }

  function EmptyContent(kind: StreamKind, i: InceptionInfo): SnapshotContent {
    match kind
    case Space => SpaceContent(i, [])
    case Channel => ChannelContent(i)
    case DmChannel => DmChannelContent(i)
    case GdmChannel => GdmChannelContent(i, None)
    case User => UserContent(i, [])
    case UserSettings => UserSettingsContent(i, [], [])
    case UserDeviceKey => UserDeviceKeyContent(i, [])
    case UserInbox => UserInboxContent(i, map[])
    case Media => MediaContent(i)
  }

  function FirstMembers(kind: StreamKind, i: InceptionInfo, creator: Bytes): Option<seq<Member>> {
    match kind
    case User | UserSettings | UserInbox | UserDeviceKey =>
      if ValidStreamId(i.streamId) && i.streamId[0] in {0xad, 0xa1, 0xa8, 0xa5}
      then Some([NewMember(i.streamId[1..21], 0, 0)]) else None
    case DmChannel =>
      Some(Insert([NewMember(i.firstParty, 0, 0)], MemberKey, NewMember(i.secondParty, 0, 0)))
    case Media => Some([NewMember(creator, 0, 0)])
    case _ => Some([])
  }

  /** The snapshot of the inception event alone. */
  function Initial(e: Event): Option<Snapshot> {
    if !e.IsInception() then None
    else match FirstMembers(e.payload.kind, e.payload.content.inception, e.creator)
      case None => None
      case Some(joined) => Some(Snapshot(EmptyContent(e.payload.kind, e.payload.content.inception), joined))
  }

  /** At genesis an update error aborts instead of being skipped. */
  function StrictFold(s: Snapshot, es: seq<Event>, firstNum: int): UpdateResult {
    if es == [] then Updated(s)
    else
      var n := |es| - 1;
      match StrictFold(s, es[..n], firstNum)
      case Updated(t) => Update(t, es[n], 0, firstNum + n)
      case r => r
  }

  function GenesisSnapshot(es: seq<Event>): UpdateResult {
    if es == [] || Initial(es[0]).None? then Rejected
    else StrictFold(Initial(es[0]).value, es[1..], 1)
  }

  lemma {:induction false} StrictFoldIsFold(s: Snapshot, es: seq<Event>, firstNum: int)
    ensures var r := StrictFold(s, es, firstNum); r.Updated? ==> r.snapshot == FoldEvents(s, es, 0, firstNum)
  {
    if es != [] {
      StrictFoldIsFold(s, es[..|es| - 1], firstNum);
    }
  }

  lemma InitialIsWellFormed(e: Event)
    requires Initial(e).Some?
    ensures WellFormed(Initial(e).value)
    ensures Initial(e).value.content.Kind() == e.payload.kind
    ensures Initial(e).value.content.inception == e.payload.content.inception
  {
    var i := e.payload.content.inception;
    if e.payload.kind == DmChannel {
      InsertSorted([NewMember(i.firstParty, 0, 0)], MemberKey, NewMember(i.secondParty, 0, 0));
      InsertElements([NewMember(i.firstParty, 0, 0)], MemberKey, NewMember(i.secondParty, 0, 0));
    }
  }

  /** A genesis snapshot is the fold of the genesis events numbered from one in block zero, and is well formed. */
  lemma GenesisSnapshotIsFold(es: seq<Event>)
    requires GenesisSnapshot(es).Updated?
    ensures GenesisSnapshot(es).snapshot == FoldEvents(Initial(es[0]).value, es[1..], 0, 1)
    ensures WellFormed(GenesisSnapshot(es).snapshot)
    ensures GenesisSnapshot(es).snapshot.content.Kind() == es[0].payload.kind
    ensures GenesisSnapshot(es).snapshot.content.inception == es[0].payload.content.inception
  {
    StrictFoldIsFold(Initial(es[0]).value, es[1..], 1);
    InitialIsWellFormed(es[0]);
    FoldEventsKeeps(Initial(es[0]).value, es[1..], 0, 1);
  }

  // ---------- the source's procedure ----------

  method ApplyKeySolicitation(m: Member, s: Solicitation) returns (r: Member)
    ensures r == Solicit(m, s)
  {
    var ss := m.solicitations;
    var a := new Solicitation[|ss|](p requires 0 <= p < |ss| => ss[p]);
    assert a[..] == ss;
    var pushed := PushSolicitation(a, SolicitationKey, s);
    r := m.(solicitations := pushed);
  }

  lemma {:induction false} FulfillFirstAt(ss: seq<Solicitation>, deviceKey: Bytes, ids: seq<Bytes>, i: nat)
    requires i <= |ss| && forall p :: 0 <= p < i ==> ss[p].deviceKey != deviceKey
    requires i < |ss| ==> ss[i].deviceKey == deviceKey
    ensures FulfillFirst(ss, deviceKey, ids) ==
      if i == |ss| then ss
      else ss[i := ss[i].(sessionIds := RemoveCommon(ss[i].sessionIds, ids), isNewDevice := false)]
  {
    if i > 0 {
      FulfillFirstAt(ss[1..], deviceKey, ids, i - 1);
    }
  }

  method ApplyKeyFulfillment(m: Member, deviceKey: Bytes, ids: seq<Bytes>) returns (r: Member)
    ensures r == Fulfill(m, deviceKey, ids)
  {
    var ss := m.solicitations;
    var i := 0;
    while i < |ss| && ss[i].deviceKey != deviceKey
      invariant 0 <= i <= |ss|
      invariant forall p :: 0 <= p < i ==> ss[p].deviceKey != deviceKey
    {
      i := i + 1;
    }
    FulfillFirstAt(ss, deviceKey, ids, i);
    r := m;
    if i < |ss| {
      var kept := RemoveCommonScan(ss[i].sessionIds, ids);
      r := m.(solicitations := ss[i := ss[i].(sessionIds := kept, isNewDevice := false)]);
    }
  }

  /** A snapshot message that is updated in place. */
  class SnapshotCell {
    var content: SnapshotContent
    var joined: seq<Member>

    ghost function Value(): Snapshot
      reads this
    {
      Snapshot(content, joined)
    }

    /** The clone: a fresh message with the given value. */
    constructor (s: Snapshot)
      ensures Value() == s
    {
      content, joined := s.content, s.joined;
    }

    /** Find the member record an event concerns and change it where it is. */
    method ChangeMember(e: Event, c: MemberContent, eventNum: int) returns (ok: bool)
      requires WellFormedMembers(joined)
      modifies this`joined
      ensures ok <==> Find(old(joined), MemberKey, Target(e, c)).Some?
      ensures joined == if ok
        then Insert(old(joined), MemberKey, Changed(Find(old(joined), MemberKey, Target(e, c)).value, e, c, eventNum))
        else old(joined)
    {
      hide Index;
      var n, found := BinarySearch(joined, MemberKey, Target(e, c));
      HasIsMembership(joined, MemberKey, Target(e, c));
      if !found { return false; }
      var m := joined[n];
      ChangedKeepsKey(m, e, c, eventNum);
      match c {
        case KeySolicitation(s) => m := ApplyKeySolicitation(m, s);
        case KeyFulfillment(_, deviceKey, ids) => m := ApplyKeyFulfillment(m, deviceKey, ids);
        case _ => m := Changed(m, e, c, eventNum);
      }
      assert Has(joined, MemberKey, m.userAddress);
      joined := joined[n := m];
      ok := true;
    }

    method UpdateMember(e: Event, c: MemberContent, miniblockNum: int, eventNum: int) returns (ok: bool)
      requires WellFormedMembers(joined)
      modifies this`joined
      ensures ok <==> UpdateMembers(old(joined), e, c, miniblockNum, eventNum).Some?
      ensures joined == if ok then UpdateMembers(old(joined), e, c, miniblockNum, eventNum).value else old(joined)
    {
      hide Changed, Index, Insert, Remove, Find, Target;
      ok := true;
      match c
      case Membership(Join, user) =>
        joined := InsertShifting(joined, MemberKey, NewMember(user, miniblockNum, eventNum));
      case Membership(Leave, user) => joined := RemoveShifting(joined, MemberKey, user);
      case Membership(Invite, _) =>
      case Membership(_, _) => ok := false;
      case OtherMemberContent => ok := false;
      case _ => ok := ChangeMember(e, c, eventNum);
    }

    method UpdateKind(e: Event, c: Content, miniblockNum: int) returns (ok: bool)
      requires WellFormedContent(content)
      modifies this`content
      ensures ok <==> UpdateContent(old(content), e, c, miniblockNum).Some?
      ensures content == if ok then UpdateContent(old(content), e, c, miniblockNum).value else old(content)
    {
      ok := true;
      match (content, c)
      case (SpaceContent(i, channels), ChannelUpdate(channel)) =>
        var r := InsertShifting(channels, ChannelKey, channel);
        content := SpaceContent(i, r);
      case (ChannelContent(_), Message) =>
      case (DmChannelContent(_), Message) =>
      case (GdmChannelContent(i, _), ChannelProperties(data)) =>
        content := GdmChannelContent(i, Some(Wrapped(data, miniblockNum, e.Hash())));
      case (GdmChannelContent(i, _), Message) =>
      case (UserContent(i, memberships), UserMembership(m)) =>
        var r := InsertShifting(memberships, MembershipKey, m);
        content := UserContent(i, r);
      case (UserContent(_, _), UserMembershipAction) =>
      case (UserSettingsContent(i, markers, blocks), FullyReadMarkers(marker)) =>
        var r := InsertShifting(markers, MarkerKey, marker);
        content := UserSettingsContent(i, r, blocks);
      case (UserSettingsContent(i, markers, blocks), UserBlock(userId, block)) =>
        var n, found := BinarySearch(blocks, BlocksKey, userId);
        HasIsMembership(blocks, BlocksKey, userId);
        var earlier := if found then blocks[n].blocks else [];
        var r := InsertShifting(blocks, BlocksKey, UserBlocks(userId, earlier + [block]));
        content := UserSettingsContent(i, markers, r);
      case (UserDeviceKeyContent(i, devices), EncryptionDevice(device)) =>
        var a := new Device[|devices|](p requires 0 <= p < |devices| => devices[p]);
        assert a[..] == devices;
        var r := PushDevice(a, DeviceKeyOf, device);
        content := UserDeviceKeyContent(i, r);
      case (UserInboxContent(i, m), GroupEncryptionSessions(keys)) =>
        var r := Inbox.UpdateSessions(m, keys, miniblockNum);
        content := UserInboxContent(i, r);
      case (UserInboxContent(i, m), Ack(key, acked)) =>
        var r := Inbox.UpdateAck(m, key, acked, miniblockNum);
        content := UserInboxContent(i, r);
      case _ => ok := false;
    }

    method UpdateSnapshot(e: Event, miniblockNum: int, eventNum: int) returns (ok: bool)
      requires WellFormed(Value()) && !Panics(e, content.Kind())
      modifies this
      ensures Value() == Apply(old(Value()), e, miniblockNum, eventNum)
      ensures ok <==> Update(old(Value()), e, miniblockNum, eventNum).Updated?
      ensures WellFormed(Value()) && content.Kind() == old(content.Kind())
    {
      ApplyKeeps(Value(), e, miniblockNum, eventNum);
      match e.payload
      case MemberPayload(c) => ok := UpdateMember(e, c, miniblockNum, eventNum);
      case StreamPayload(kind, c) =>
        if kind == Media { return false; }
        ok := UpdateKind(e, c, miniblockNum);
      case _ => ok := false;
    }
  }
}
