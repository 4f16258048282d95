/**
 * Questions a view answers by starting from its snapshot and replaying the events after it. They are answered the
 * same way whichever snapshot the window happens to be based on.
 */
module Queries {
  import opened Wrappers
  import opened ByteStrings
  import opened SortedLists
  import opened Messages
  import opened RecentLists
  import opened Snapshots
  import opened Chains
  import opened Views

  const ADDRESS_LENGTH := 20

  datatype Query =
    | ChannelMembers
    | UserMembershipIn(streamId: Bytes)
    | ChannelInfoOf(channelId: Bytes)
    | KeySolicitationsOf(user: Bytes)

  /** The running answer; `solicitations` is None while the user is not a member. */
  datatype Answer =
    | Members(members: Result<set<Bytes>>)
    | Op(op: Result<MembershipOp>)
    | Info(channel: Result<Option<ChannelInfo>>)
    | Solicitations(solicitations: Option<seq<Solicitation>>)

  function Addresses(joined: seq<Member>): set<Bytes> {
    set m | m in joined :: m.userAddress
  }

  function Checked(addresses: set<Bytes>): Result<set<Bytes>> {
    if forall a :: a in addresses ==> |a| == ADDRESS_LENGTH then Ok(addresses) else Err(BadAddress)
  }

  function Start(q: Query, s: Snapshot): Answer {
    match q
    case ChannelMembers => Members(Checked(Addresses(s.joined)))
    case UserMembershipIn(streamId) =>
      if !s.content.UserContent? then Op(Err(WrongStreamType))
      else Op(Ok(match Find(s.content.memberships, MembershipKey, streamId)
                 case Some(m) => m.op
                 case None => Unspecified))
    case ChannelInfoOf(channelId) =>
      if !s.content.SpaceContent? then Info(Err(WrongStreamType))
      else Info(Ok(Find(s.content.channels, ChannelKey, channelId)))
    case KeySolicitationsOf(user) =>
      Solicitations(match Find(s.joined, MemberKey, user)
                    case Some(m) => Some(m.solicitations)
                    case None => None)
  }

  function MembersStep(r: Result<set<Bytes>>, e: Event): Result<set<Bytes>> {
    if r.Ok? && e.payload.MemberPayload? && e.payload.member.Membership? then
      var user := e.payload.member.userAddress;
      if |user| != ADDRESS_LENGTH then Err(BadAddress)
      else if e.payload.member.op.Join? then Ok(r.value + {user})
      else if e.payload.member.op.Leave? then Ok(r.value - {user})
      else r
    else r
  }

  function SolicitationsStep(user: Bytes, r: Option<seq<Solicitation>>, e: Event): Option<seq<Solicitation>> {
    if !e.payload.MemberPayload? then r
    else match e.payload.member
      case Membership(Join, u) => if u == user then Some([]) else r
      case Membership(Leave, u) => if u == user then None else r
      case KeySolicitation(s) =>
        if r.Some? && e.creator == user then Some(Push(r.value, SolicitationKey, s)) else r
      case KeyFulfillment(u, deviceKey, ids) =>
        if r.Some? && u == user then Some(FulfillFirst(r.value, deviceKey, ids)) else r
      case _ => r
  }

  function Step(q: Query, a: Answer, e: Event): Answer {
    match (q, a)
    case (ChannelMembers, Members(r)) => Members(MembersStep(r, e))
    case (UserMembershipIn(streamId), Op(r)) =>
      (match e.payload
       case StreamPayload(User, UserMembership(m)) => if r.Ok? && m.streamId == streamId then Op(Ok(m.op)) else a
       case _ => a)
    case (ChannelInfoOf(channelId), Info(r)) =>
      (match e.payload
       case StreamPayload(Space, ChannelUpdate(c)) => if r.Ok? && c.channelId == channelId then Info(Ok(Some(c))) else a
       case _ => a)
    case (KeySolicitationsOf(user), Solicitations(r)) => Solicitations(SolicitationsStep(user, r, e))
    case _ => a
  }

  function Play(q: Query, a: Answer, es: seq<Event>): Answer {
    if es == [] then a else Step(q, Play(q, a, Init(es)), Last(es))
  }

  /** The source's answer: from the snapshot, over the blocks after it and the pool. */
  function Ask(q: Query, v: View): Answer
    requires 0 <= v.snapshotIndex < |v.blocks|
  {
    Play(q, Start(q, v.snapshot), EventsFrom(v, v.snapshotIndex + 1))
  }

  function AfterInception(blocks: seq<Block>): seq<Event>
    requires blocks != [] && blocks[0].events != []
  {
    if |blocks| == 1 then blocks[0].events[1..] else AfterInception(Init(blocks)) + Last(blocks).events
  }

  /** The reference: from the inception event alone, over every event of the stream. No snapshot is consulted. */
  function FullAnswer(q: Query, blocks: seq<Block>, pool: seq<Event>): Answer
    requires blocks != [] && IsGenesis(blocks[0])
  {
    Play(q, Start(q, Initial(blocks[0].events[0]).value), AfterInception(blocks) + pool)
  }

  /** The member list fails on addresses that are not twenty bytes long; every other query accepts every event. */
  predicate Acceptable(q: Query, e: Event) {
    q.ChannelMembers? && e.payload.MemberPayload? && e.payload.member.Membership? ==>
      |e.payload.member.userAddress| == ADDRESS_LENGTH
  }

  // ---------- one event ----------

  lemma InsertAddresses(joined: seq<Member>, m: Member)
    requires Sorted(joined, MemberKey)
    ensures Addresses(Insert(joined, MemberKey, m)) == Addresses(joined) + {m.userAddress}
  {
    hide Insert, Index;
    InsertSorted(joined, MemberKey, m);
    assert Addresses(joined) == Keys(joined, MemberKey);
    assert Addresses(Insert(joined, MemberKey, m)) == Keys(Insert(joined, MemberKey, m), MemberKey);
  }

  lemma RemoveAddresses(joined: seq<Member>, user: Bytes)
    requires Sorted(joined, MemberKey)
    ensures Addresses(Remove(joined, MemberKey, user)) == Addresses(joined) - {user}
  {
    hide Remove, Index;
    RemoveSorted(joined, MemberKey, user);
    assert Addresses(joined) == Keys(joined, MemberKey);
    assert Addresses(Remove(joined, MemberKey, user)) == Keys(Remove(joined, MemberKey, user), MemberKey);
  }

  lemma AddressesHave(joined: seq<Member>, m: Member)
    requires m in joined
    ensures Addresses(joined) + {m.userAddress} == Addresses(joined)
  {
  }

  lemma MembersAgree(s: Snapshot, e: Event, num: int, eventNum: int)
    requires WellFormed(s) && e.payload.MemberPayload? && Acceptable(ChannelMembers, e)
    ensures Start(ChannelMembers, Apply(s, e, num, eventNum)) == Step(ChannelMembers, Start(ChannelMembers, s), e)
  {
    hide Changed, Recent, Index, Addresses;
    var c := e.payload.member;
    match c {
      case Membership(Join, user) => InsertAddresses(s.joined, NewMember(user, num, eventNum));
      case Membership(Leave, user) => RemoveAddresses(s.joined, user);
      case Membership(_, _) =>
      case OtherMemberContent =>
      case _ =>
        var m := Find(s.joined, MemberKey, Target(e, c));
        if m.Some? {
          ChangedKeepsKey(m.value, e, c, eventNum);
          InsertAddresses(s.joined, Changed(m.value, e, c, eventNum));
          AddressesHave(s.joined, m.value);
        }
    }
  }

  lemma ChangedSolicitations(user: Bytes, s: Snapshot, e: Event, num: int, eventNum: int)
    requires WellFormed(s) && e.payload.MemberPayload?
    requires !e.payload.member.Membership? && !e.payload.member.OtherMemberContent?
    ensures var q := KeySolicitationsOf(user); Start(q, Apply(s, e, num, eventNum)) == Step(q, Start(q, s), e)
  {
    hide Push, FulfillFirst, Recent, Index, Insert, Remove;
    var c := e.payload.member;
    var m := Find(s.joined, MemberKey, Target(e, c));
    if m.Some? {
      ChangedKeepsKey(m.value, e, c, eventNum);
      InsertSorted(s.joined, MemberKey, Changed(m.value, e, c, eventNum));
    }
  }

  lemma SolicitationsAgree(user: Bytes, s: Snapshot, e: Event, num: int, eventNum: int)
    requires WellFormed(s) && e.payload.MemberPayload?
    ensures var q := KeySolicitationsOf(user); Start(q, Apply(s, e, num, eventNum)) == Step(q, Start(q, s), e)
  {
    hide Push, FulfillFirst, Recent, Index, Insert, Remove, Find, Changed;
    var c := e.payload.member;
    match c {
      case Membership(Join, u) => InsertSorted(s.joined, MemberKey, NewMember(u, num, eventNum));
      case Membership(Leave, u) => RemoveSorted(s.joined, MemberKey, u);
      case Membership(_, _) =>
      case OtherMemberContent =>
      case _ => ChangedSolicitations(user, s, e, num, eventNum);
    }
  }

  /** The step of every query mirrors the update of the snapshot. */
  lemma StepMirrorsUpdate(q: Query, s: Snapshot, e: Event, num: int, eventNum: int)
    requires WellFormed(s) && Acceptable(q, e)
    ensures Start(q, Apply(s, e, num, eventNum)) == Step(q, Start(q, s), e)
  {
    hide Index, Push;
    match q {
      case ChannelMembers => if e.payload.MemberPayload? { MembersAgree(s, e, num, eventNum); }
      case KeySolicitationsOf(user) => if e.payload.MemberPayload? { SolicitationsAgree(user, s, e, num, eventNum); }
      case UserMembershipIn(_) =>
        if s.content.UserContent? && e.payload.StreamPayload? && e.payload.content.UserMembership? {
          InsertSorted(s.content.memberships, MembershipKey, e.payload.content.membership);
        }
      case ChannelInfoOf(_) =>
        if s.content.SpaceContent? && e.payload.StreamPayload? && e.payload.content.ChannelUpdate? {
          InsertSorted(s.content.channels, ChannelKey, e.payload.content.channel);
        }
    }
  }

  // ---------- the whole stream ----------

  lemma {:induction false} PlayConcat(q: Query, a: Answer, es: seq<Event>, fs: seq<Event>)
    ensures Play(q, a, es + fs) == Play(q, Play(q, a, es), fs)
  {
    hide Step;
    if fs == [] {
      assert es + fs == es;
    } else {
      assert Init(es + fs) == es + Init(fs) && Last(es + fs) == Last(fs);
      PlayConcat(q, a, es, Init(fs));
    }
  }

  lemma KeepsIsWellFormed(s: Snapshot, t: Snapshot)
    requires Keeps(s, t)
    ensures WellFormed(t)
  {
  }

  lemma {:induction false} PlayFold(q: Query, s: Snapshot, es: seq<Event>, num: int, firstNum: int)
    requires WellFormed(s) && forall e :: e in es ==> Acceptable(q, e)
    ensures Start(q, FoldEvents(s, es, num, firstNum)) == Play(q, Start(q, s), es)
  {
    hide Start, Step, Apply, Acceptable, WellFormed;
    if es != [] {
      var n := |es| - 1;
      PlayFold(q, s, es[..n], num, firstNum);
      FoldEventsKeeps(s, es[..n], num, firstNum);
      KeepsIsWellFormed(s, FoldEvents(s, es[..n], num, firstNum));
      StepMirrorsUpdate(q, FoldEvents(s, es[..n], num, firstNum), es[n], num, firstNum + n);
    }
  }

  lemma PlayHeader(q: Query, a: Answer, b: Block)
    ensures Play(q, a, [b.HeaderEvent()]) == a
  {
    assert Init([b.HeaderEvent()]) == [];
  }

  /** Headers change no answer, so delivering them with the events does not matter. */
  lemma {:induction false} PlayDelivered(q: Query, a: Answer, blocks: seq<Block>)
    ensures Play(q, a, Delivered(blocks)) == Play(q, a, AllEvents(blocks))
  {
    if blocks != [] {
      var init, last := Init(blocks), Last(blocks);
      PlayDelivered(q, a, init);
      PlayConcat(q, a, Delivered(init) + last.events, [last.HeaderEvent()]);
      PlayConcat(q, a, Delivered(init), last.events);
      PlayConcat(q, a, AllEvents(init), last.events);
      PlayHeader(q, Play(q, a, AllEvents(blocks)), last);
    }
  }

  ghost predicate AllAcceptable(q: Query, blocks: seq<Block>, pool: seq<Event>) {
    && (forall i, e :: 0 <= i < |blocks| && e in blocks[i].events ==> Acceptable(q, e))
    && forall e :: e in pool ==> Acceptable(q, e)
  }

  lemma GenesisParts(es: seq<Event>)
    requires GenesisSnapshot(es).Updated?
    ensures es != [] && Initial(es[0]).Some? && WellFormed(Initial(es[0]).value)
    ensures GenesisSnapshot(es).snapshot == FoldEvents(Initial(es[0]).value, es[1..], 0, 1)
  {
    GenesisSnapshotIsFold(es);
    InitialIsWellFormed(es[0]);
  }

  /** Starting from a full replay is the same as asking from the inception event over everything. */
  lemma {:induction false} StartOfReplay(q: Query, blocks: seq<Block>, threshold: int)
    requires Chain(blocks, threshold) && AllAcceptable(q, blocks, [])
    ensures Start(q, Replay(blocks)) == FullAnswer(q, blocks, [])
  {
    hide Start, Step, Apply, Acceptable, WellFormed, FoldEvents, Hashes, GenesisSnapshot, Initial, Follows, Play;
    var es := blocks[0].events;
    GenesisParts(es);
    assert AfterInception(blocks) + [] == AfterInception(blocks);
    if |blocks| == 1 {
      assert forall e :: e in es[1..] ==> e in es;
      PlayFold(q, Initial(es[0]).value, es[1..], 0, 1);
    } else {
      var init, last := Init(blocks), Last(blocks);
      assert forall i :: 0 <= i < |init| ==> init[i] == blocks[i];
      StartOfReplay(q, init, threshold);
      ReplayIsWellFormed(init, threshold);
      assert blocks[|blocks| - 1] == last;
      PlayFold(q, Replay(init), last.events, |blocks| - 1, Count(init));
      PlayConcat(q, Start(q, Initial(es[0]).value), AfterInception(init), last.events);
      assert AfterInception(init) + [] == AfterInception(init);
    }
  }

  lemma {:induction false} AfterInceptionConcat(a: seq<Block>, b: seq<Block>)
    requires a != [] && a[0].events != []
    ensures AfterInception(a + b) == AfterInception(a) + AllEvents(b)
  {
    if b == [] {
      assert a + b == a;
    } else {
      assert Init(a + b) == a + Init(b) && Last(a + b) == Last(b);
      AfterInceptionConcat(a, Init(b));
    }
  }

  /** Continuing the full answer of a front part over the delivered tail and the pool. */
  lemma AnswerFromFront(q: Query, a: Answer, front: seq<Block>, tail: seq<Block>, pool: seq<Event>)
    requires front != [] && IsGenesis(front[0])
    requires a == FullAnswer(q, front, [])
    ensures Play(q, a, Delivered(tail) + pool) == FullAnswer(q, front + tail, pool)
  {
    hide Start, Play, GenesisSnapshot, Hashes, Delivered, AfterInception, AllEvents;
    GenesisParts(front[0].events);
    var first := Start(q, Initial(front[0].events[0]).value);
    AfterInceptionConcat(front, tail);
    PlayConcat(q, a, Delivered(tail), pool);
    PlayDelivered(q, a, tail);
    PlayConcat(q, first, AfterInception(front), AllEvents(tail));
    PlayConcat(q, first, AfterInception(front + tail), pool);
    assert AfterInception(front) + [] == AfterInception(front);
  }

  /**
   * Snapshot independence: for every query and every window of the chain, the answer from snapshot and tail is the
   * answer of a full replay from genesis.
   */
  lemma SnapshotIndependence(q: Query, v: View, blocks: seq<Block>, pool: seq<Event>, threshold: int)
    requires Chain(blocks, threshold) && Window(v, blocks, pool) && AllAcceptable(q, blocks, pool)
    ensures Ask(q, v) == FullAnswer(q, blocks, pool)
  {
    hide Start, Play, Acceptable, Chain, Replay, GenesisSnapshot, Initial, Delivered, AfterInception, AllEvents;
    hide FullAnswer, IsGenesis;
    var i := Base(v, blocks);
    var front, tail := blocks[..i + 1], blocks[i + 1..];
    assert v.blocks[v.snapshotIndex + 1..] == tail;
    assert blocks[i] == v.blocks[v.snapshotIndex];
    SnapshotAt(blocks, threshold, i);
    ChainPrefix(blocks, threshold, i + 1);
    assert AllAcceptable(q, front, []) by {
      assert forall k :: 0 <= k < |front| ==> front[k] == blocks[k];
    }
    StartOfReplay(q, front, threshold);
    AnswerFromFront(q, Start(q, v.snapshot), front, tail, pool);
    assert front + tail == blocks;
  }

  // ---------- the member list with malformed addresses ----------

  ghost predicate AllAccepted(es: seq<Event>) {
    forall e :: e in es ==> Acceptable(ChannelMembers, e)
  }

  lemma {:induction false} MembersPlay(r: Result<set<Bytes>>, es: seq<Event>)
    requires r.Err? ==> r.code == BadAddress
    ensures var a := Play(ChannelMembers, Members(r), es);
      && a.Members? && (a.members.Err? ==> a.members.code == BadAddress)
      && (a.members.Ok? <==> r.Ok? && AllAccepted(es))
  {
    if es != [] {
      MembersPlay(r, Init(es));
      assert es == Init(es) + [Last(es)];
      assert AllAccepted(es) <==> AllAccepted(Init(es)) && Acceptable(ChannelMembers, Last(es));
    }
  }

  lemma {:induction false} AfterInceptionHas(blocks: seq<Block>, i: nat, e: Event)
    requires blocks != [] && blocks[0].events != [] && i < |blocks| && e in blocks[i].events
    requires i == 0 ==> e != blocks[0].events[0]
    ensures e in AfterInception(blocks)
  {
    if |blocks| == 1 {
      var k :| 0 <= k < |blocks[0].events| && blocks[0].events[k] == e;
      assert blocks[0].events[1..][k - 1] == e;
    } else if i < |blocks| - 1 {
      AfterInceptionHas(Init(blocks), i, e);
    }
  }

  lemma InceptionAccepted(b: Block)
    requires IsGenesis(b)
    ensures Acceptable(ChannelMembers, b.events[0])
  {
  }

  lemma FullAnswerFails(front: seq<Block>, tail: seq<Block>, pool: seq<Event>)
    requires front != [] && IsGenesis(front[0]) && !AllAcceptable(ChannelMembers, front, [])
    ensures (front + tail)[0] == front[0]
    ensures FullAnswer(ChannelMembers, front + tail, pool) == Members(Err(BadAddress))
  {
    hide Play, Acceptable, Hashes, GenesisSnapshot, Initial, AfterInception;
    var blocks := front + tail;
    var i, e :| 0 <= i < |front| && e in front[i].events && !Acceptable(ChannelMembers, e);
    assert blocks[i] == front[i];
    InceptionAccepted(front[0]);
    GenesisParts(front[0].events);
    AfterInceptionHas(blocks, i, e);
    MembersPlay(
      Start(ChannelMembers, Initial(front[0].events[0]).value).members, AfterInception(blocks) + pool);
    assert e in AfterInception(blocks) + pool;
  }

  /**
   * The member list is snapshot-independent exactly unless a malformed address was mentioned up to the base block and
   * both the base snapshot and everything after it are free of them: then only the full replay fails.
   */
  lemma MemberListExactly(v: View, blocks: seq<Block>, pool: seq<Event>, threshold: int)
    requires Chain(blocks, threshold) && Window(v, blocks, pool)
    ensures Ask(ChannelMembers, v) == FullAnswer(ChannelMembers, blocks, pool) <==>
      || AllAcceptable(ChannelMembers, blocks[..Base(v, blocks) + 1], [])
      || Start(ChannelMembers, v.snapshot).members.Err?
      || !AllAccepted(EventsFrom(v, v.snapshotIndex + 1))
  {
    hide Play, Acceptable, Chain, Replay, GenesisSnapshot, Initial, Delivered, AfterInception, AllEvents, IsGenesis;
    hide FullAnswer, AllAccepted;
    var q, i := ChannelMembers, Base(v, blocks);
    var front, tail := blocks[..i + 1], blocks[i + 1..];
    assert v.blocks[v.snapshotIndex + 1..] == tail;
    assert front + tail == blocks && front[0] == blocks[0];
    assert blocks[i] == v.blocks[v.snapshotIndex];
    SnapshotAt(blocks, threshold, i);
    if AllAcceptable(q, front, []) {
      ChainPrefix(blocks, threshold, i + 1);
      StartOfReplay(q, front, threshold);
      AnswerFromFront(q, Start(q, v.snapshot), front, tail, pool);
    } else {
      FullAnswerFails(front, tail, pool);
      MembersPlay(Start(q, v.snapshot).members, EventsFrom(v, v.snapshotIndex + 1));
    }
  }
}
