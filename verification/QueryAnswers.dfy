/** What the queries answer, in terms of the events of the whole stream and the pool alone. */
module QueryAnswers {
  import opened Wrappers
  import opened ByteStrings
  import opened SortedLists
  import opened Messages
  import opened Snapshots
  import opened Chains
  import opened Views
  import opened Queries
  import opened Histories
  import opened MemberRecords
  import opened StreamContents

  /** Every event after the inception, the pending ones numbered as if the next block took them. */
  function Everything(blocks: seq<Block>, pool: seq<Event>): seq<Numbered>
    requires blocks != [] && blocks[0].events != []
  {
    History(blocks) + Numbers(pool, |blocks|, Count(blocks))
  }

  ghost function Now(blocks: seq<Block>, pool: seq<Event>): Snapshot
    requires blocks != [] && blocks[0].events != [] && Initial(blocks[0].events[0]).Some?
  {
    ApplyAll(Initial(blocks[0].events[0]).value, Everything(blocks, pool))
  }

  lemma NowIsFold(blocks: seq<Block>, pool: seq<Event>, threshold: int)
    requires Chain(blocks, threshold)
    ensures blocks[0].events != [] && Initial(blocks[0].events[0]).Some?
    ensures Now(blocks, pool) == FoldEvents(Replay(blocks), pool, |blocks|, Count(blocks))
  {
    hide Follows, ApplyAll, FoldEvents, Replay, IsGenesis, History, Initial;
    ReplayIsApplyAll(blocks, threshold);
    FoldIsApplyAll(Replay(blocks), pool, |blocks|, Count(blocks));
    ApplyAllConcat(
      Initial(blocks[0].events[0]).value, History(blocks), Numbers(pool, |blocks|, Count(blocks)));
  }

  /** A view answers as the snapshot of everything would. */
  lemma AskIsNow(q: Query, v: View, blocks: seq<Block>, pool: seq<Event>, threshold: int)
    requires Chain(blocks, threshold) && Window(v, blocks, pool) && AllAcceptable(q, blocks, pool)
    ensures blocks[0].events != [] && Initial(blocks[0].events[0]).Some?
    ensures Ask(q, v) == Start(q, Now(blocks, pool))
  {
    hide Follows, FoldEvents, Replay, IsGenesis, Initial, Ask, Start, Play, AfterInception, Now, WellFormed, Acceptable;
    NowIsFold(blocks, pool, threshold);
    SnapshotIndependence(q, v, blocks, pool, threshold);
    StartOfReplay(q, blocks, threshold);
    ReplayIsWellFormed(blocks, threshold);
    PlayFold(q, Replay(blocks), pool, |blocks|, Count(blocks));
    var start := Start(q, Initial(blocks[0].events[0]).value);
    PlayConcat(q, start, AfterInception(blocks), pool);
    assert AfterInception(blocks) + [] == AfterInception(blocks);
  }

  /** What the snapshot of everything holds. */
  lemma NowSays(blocks: seq<Block>, pool: seq<Event>, threshold: int)
    requires Chain(blocks, threshold)
    ensures blocks[0].events != [] && Initial(blocks[0].events[0]).Some?
    ensures
      var t, ns := Now(blocks, pool), Everything(blocks, pool);
      WellFormed(t) && t.content.Kind() == Kind(blocks) && ContentOf(t.content, ns)
  {
    hide Follows, ApplyAll, WellFormed, IsGenesis, History, Initial, ContentOf, Empty, Everything;
    ReplayIsApplyAll(blocks, threshold);
    var e := blocks[0].events[0];
    InceptionMembers(e);
    InitialIsWellFormed(e);
    ContentHistory(Initial(e).value, Everything(blocks, pool));
    ApplyAllKeeps(Initial(e).value, Everything(blocks, pool));
    KeepsIsWellFormed(Initial(e).value, Now(blocks, pool));
  }

  // ---------- memberships and channels ----------

  /** A user's membership in a stream is the operation of the last record about it; other streams have no answer. */
  lemma UserMembershipSays(id: Bytes, v: View, blocks: seq<Block>, pool: seq<Event>, threshold: int)
    requires Chain(blocks, threshold) && Window(v, blocks, pool)
    ensures blocks[0].events != []
    ensures Ask(UserMembershipIn(id), v) ==
      if Kind(blocks) != User then Op(Err(WrongStreamType))
      else match Latest(Everything(blocks, pool), SetsMembership(id), None)
        case Some(m) => Op(Ok(m.op))
        case None => Op(Ok(Unspecified))
  {
    hide Follows, Now, WellFormed, IsGenesis, Initial, Everything, Latest, SetsMembership, Find, Ask;
    AskIsNow(UserMembershipIn(id), v, blocks, pool, threshold);
    NowSays(blocks, pool, threshold);
  }

  lemma ChannelInfoSays(id: Bytes, v: View, blocks: seq<Block>, pool: seq<Event>, threshold: int)
    requires Chain(blocks, threshold) && Window(v, blocks, pool)
    ensures blocks[0].events != []
    ensures Ask(ChannelInfoOf(id), v) ==
      if Kind(blocks) != Space then Info(Err(WrongStreamType))
      else Info(Ok(Latest(Everything(blocks, pool), SetsChannel(id), None)))
  {
    hide Follows, Now, WellFormed, IsGenesis, Initial, Everything, Latest, SetsChannel, Find, Ask;
    AskIsNow(ChannelInfoOf(id), v, blocks, pool, threshold);
    NowSays(blocks, pool, threshold);
  }

  // ---------- members and solicitations ----------

  /** The user's last Join or Leave is a Join, or there is none and the inception joined them. */
  ghost predicate JoinedNow(user: Bytes, blocks: seq<Block>, pool: seq<Event>)
    requires blocks != [] && blocks[0].events != [] && blocks[0].events[0].IsInception()
  {
    var e, ns := blocks[0].events[0], Everything(blocks, pool);
    match LastMove(user, ns)
    case None => user in FirstJoined(e.payload.kind, e.payload.content.inception, e.creator)
    case Some(k) => ns[k].e.payload.member.op.Join?
  }

  lemma FoundIsHad(joined: seq<Member>, user: Bytes)
    ensures Find(joined, MemberKey, user).Some? <==> Has(joined, MemberKey, user)
  {
  }

  lemma RecordNow(user: Bytes, blocks: seq<Block>, pool: seq<Event>, threshold: int)
    requires Chain(blocks, threshold)
    ensures blocks[0].events != [] && Initial(blocks[0].events[0]).Some? && blocks[0].events[0].IsInception()
    ensures WellFormed(Now(blocks, pool))
    ensures
      var first, m := Initial(blocks[0].events[0]).value, Find(Now(blocks, pool).joined, MemberKey, user);
      && (m.Some? <==> JoinedNow(user, blocks, pool))
      && RecordOf(user, Find(first.joined, MemberKey, user), Everything(blocks, pool), m)
  {
    hide Follows, IsGenesis, Initial, Everything, FieldsSince, Apply, Find, ContentOf, Has;
    NowSays(blocks, pool, threshold);
    var e := blocks[0].events[0];
    var first := Initial(e).value;
    InceptionMembers(e);
    InitialIsWellFormed(e);
    RecordsAfter(user, first, Everything(blocks, pool));
    HasIsMembership(first.joined, MemberKey, user);
    FoundIsHad(first.joined, user);
  }

  /** A membership event names a user by twenty bytes. */
  predicate NamesTwentyBytes(e: Event) {
    e.payload.MemberPayload? && e.payload.member.Membership? ==> |e.payload.member.userAddress| == 20
  }

  lemma AddressesFound(joined: seq<Member>, user: Bytes)
    requires Sorted(joined, MemberKey)
    ensures user in Addresses(joined) <==> Find(joined, MemberKey, user).Some?
  {
    hide Find, Has;
    HasIsMembership(joined, MemberKey, user);
    FoundIsHad(joined, user);
    assert Addresses(joined) == Keys(joined, MemberKey);
  }

  lemma JoinedAddresses(blocks: seq<Block>, pool: seq<Event>, threshold: int, user: Bytes)
    requires Chain(blocks, threshold)
    ensures blocks[0].events != [] && Initial(blocks[0].events[0]).Some? && blocks[0].events[0].IsInception()
    ensures user in Addresses(Now(blocks, pool).joined) <==> JoinedNow(user, blocks, pool)
  {
    hide Follows, IsGenesis, Initial, RecordOf, Find, Now, JoinedNow, Addresses, WellFormedContent;
    RecordNow(user, blocks, pool, threshold);
    AddressesFound(Now(blocks, pool).joined, user);
  }

  /**
   * The member list is exactly the users joined now, or an error if one of the parties the inception joined is still
   * joined under an address that is not twenty bytes long.
   */
  lemma ChannelMembersSay(v: View, blocks: seq<Block>, pool: seq<Event>, threshold: int)
    requires Chain(blocks, threshold) && Window(v, blocks, pool)
    requires forall i, e :: 0 <= i < |blocks| && e in blocks[i].events ==> NamesTwentyBytes(e)
    requires forall e :: e in pool ==> NamesTwentyBytes(e)
    ensures blocks[0].events != [] && blocks[0].events[0].IsInception()
    ensures
      var r := Ask(ChannelMembers, v);
      && r.Members?
      && (r.members.Ok? ==> forall u :: u in r.members.value <==> JoinedNow(u, blocks, pool))
      && (r.members.Ok? <==> forall u :: JoinedNow(u, blocks, pool) ==> |u| == 20)
      && (r.members.Err? ==> r.members.code == BadAddress)
  {
    hide Chain, IsGenesis, Initial, Find, Now, JoinedNow, Addresses, WellFormed, Ask;
    assert forall e :: NamesTwentyBytes(e) <==> Acceptable(ChannelMembers, e);
    AskIsNow(ChannelMembers, v, blocks, pool, threshold);
    JoinedAddresses(blocks, pool, threshold, []);
    var joined := Now(blocks, pool).joined;
    forall u ensures u in Addresses(joined) <==> JoinedNow(u, blocks, pool) {
      JoinedAddresses(blocks, pool, threshold, u);
    }
  }

  /**
   * A user who is not joined has no solicitations. For the others they are what solicitations by the user and
   * fulfillments for the user leave, since the user's last Join or else since the inception.
   */
  lemma KeySolicitationsSay(user: Bytes, v: View, blocks: seq<Block>, pool: seq<Event>, threshold: int)
    requires Chain(blocks, threshold) && Window(v, blocks, pool)
    ensures blocks[0].events != [] && blocks[0].events[0].IsInception()
    ensures
      var ns := Everything(blocks, pool);
      var from := match LastMove(user, ns) case Some(k) => k + 1 case None => 0;
      Ask(KeySolicitationsOf(user), v) == Solicitations(
        if JoinedNow(user, blocks, pool) then Some(Outstanding(user, [], ns[from..])) else None)
  {
    hide Chain, IsGenesis, Initial, Now, WellFormed, Ask, Everything, Outstanding, Latest, Find, JoinedNow;
    AskIsNow(KeySolicitationsOf(user), v, blocks, pool, threshold);
    RecordNow(user, blocks, pool, threshold);
    var e, ns := blocks[0].events[0], Everything(blocks, pool);
    InceptionMembers(e);
    FoundUnder(Initial(e).value.joined, user);
    assert ns[0..] == ns;
  }
}
