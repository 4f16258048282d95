/** The replay loops behind the queries. */
module QueryProcedures {
  import opened Wrappers
  import opened ByteStrings
  import opened SortedLists
  import opened Messages
  import opened Snapshots
  import opened Chains
  import opened Views
  import opened Queries
  import Membership

  lemma PlayNext(q: Query, a: Answer, es: seq<Event>, i: nat)
    requires i < |es|
    ensures Play(q, a, es[..i + 1]) == Step(q, Play(q, a, es[..i]), es[i])
  {
    hide Step;
    assert Init(es[..i + 1]) == es[..i] && Last(es[..i + 1]) == es[i];
  }

  lemma PlayEnds(q: Query, a: Answer, es: seq<Event>)
    ensures Play(q, a, es[..0]) == a && Play(q, a, es[..|es|]) == Play(q, a, es)
  {
    assert es[..|es|] == es;
  }

  /** The joined users as a set; an address of the wrong length is an error. */
  method CollectAddresses(joined: seq<Member>) returns (r: Result<set<Bytes>>)
    ensures r == Checked(Addresses(joined))
  {
    var members: set<Bytes> := {};
    var i := 0;
    while i < |joined|
      invariant 0 <= i <= |joined|
      invariant members == Addresses(joined[..i])
      invariant forall k :: 0 <= k < i ==> |joined[k].userAddress| == ADDRESS_LENGTH
    {
      if |joined[i].userAddress| != ADDRESS_LENGTH {
        assert joined[i].userAddress in Addresses(joined);
        return Err(BadAddress);
      }
      members := members + {joined[i].userAddress};
      i := i + 1;
    }
    assert joined[..|joined|] == joined;
    r := Ok(members);
  }

  lemma {:induction false} ErrorSticks(es: seq<Event>)
    ensures Play(ChannelMembers, Members(Err(BadAddress)), es) == Members(Err(BadAddress))
  {
    if es != [] {
      ErrorSticks(Init(es));
    }
  }

  method GetChannelMembers(v: View) returns (r: Result<set<Bytes>>)
    requires 0 <= v.snapshotIndex < |v.blocks|
    ensures Members(r) == Ask(ChannelMembers, v)
  {
    hide Play, EventsFrom, Addresses;
    r := CollectAddresses(v.snapshot.joined);
    ghost var start := Start(ChannelMembers, v.snapshot);
    var es := EventsFrom(v, v.snapshotIndex + 1);
    PlayEnds(ChannelMembers, start, es);
    var i := 0;
    while i < |es| && r.Ok?
      invariant 0 <= i <= |es| && (r.Err? ==> r.code == BadAddress)
      invariant Members(r) == Play(ChannelMembers, start, es[..i])
    {
      PlayNext(ChannelMembers, start, es, i);
      r := MembersStep(r, es[i]);
      i := i + 1;
    }
    PlayConcat(ChannelMembers, start, es[..i], es[i..]);
    assert es[..i] + es[i..] == es;
    if r.Err? {
      ErrorSticks(es[i..]);
    }
  }

  lemma {:induction false} WrongTypeSticks(q: Query, a: Answer, es: seq<Event>)
    requires
      || (q.UserMembershipIn? && a == Op(Err(WrongStreamType)))
      || (q.ChannelInfoOf? && a == Info(Err(WrongStreamType)))
    ensures Play(q, a, es) == a
  {
    if es != [] {
      WrongTypeSticks(q, a, Init(es));
    }
  }

  method GetUserMembership(v: View, streamId: Bytes) returns (r: Result<MembershipOp>)
    requires 0 <= v.snapshotIndex < |v.blocks| && WellFormed(v.snapshot)
    ensures Op(r) == Ask(UserMembershipIn(streamId), v)
  {
    hide Play, EventsFrom, Index;
    ghost var q := UserMembershipIn(streamId);
    var es := EventsFrom(v, v.snapshotIndex + 1);
    if !v.snapshot.content.UserContent? {
      WrongTypeSticks(q, Op(Err(WrongStreamType)), es);
      return Err(WrongStreamType);
    }
    var n, found := BinarySearch(v.snapshot.content.memberships, MembershipKey, streamId);
    HasIsMembership(v.snapshot.content.memberships, MembershipKey, streamId);
    var op := if found then v.snapshot.content.memberships[n].op else Unspecified;
    PlayEnds(q, Start(q, v.snapshot), es);
    var i := 0;
    while i < |es|
      invariant 0 <= i <= |es|
      invariant Op(Ok(op)) == Play(q, Start(q, v.snapshot), es[..i])
    {
      PlayNext(q, Start(q, v.snapshot), es, i);
      match es[i].payload {
        case StreamPayload(User, UserMembership(m)) =>
          if m.streamId == streamId {
            op := m.op;
          }
        case _ =>
      }
      i := i + 1;
    }
    r := Ok(op);
  }

  method IsMemberOf(v: View, streamId: Bytes) returns (b: bool)
    requires 0 <= v.snapshotIndex < |v.blocks| && WellFormed(v.snapshot)
    ensures b <==> streamId == v.streamId || Ask(UserMembershipIn(streamId), v) == Op(Ok(Join))
  {
    if streamId == v.streamId {
      return true;
    }
    var op := GetUserMembership(v, streamId);
    b := op.Ok? && op.value == Join;
  }

  method GetChannelInfo(v: View, channelId: Bytes) returns (r: Result<Option<ChannelInfo>>)
    requires 0 <= v.snapshotIndex < |v.blocks| && WellFormed(v.snapshot)
    ensures Info(r) == Ask(ChannelInfoOf(channelId), v)
  {
    hide Play, EventsFrom, Index;
    ghost var q := ChannelInfoOf(channelId);
    var es := EventsFrom(v, v.snapshotIndex + 1);
    if !v.snapshot.content.SpaceContent? {
      WrongTypeSticks(q, Info(Err(WrongStreamType)), es);
      return Err(WrongStreamType);
    }
    var n, found := BinarySearch(v.snapshot.content.channels, ChannelKey, channelId);
    HasIsMembership(v.snapshot.content.channels, ChannelKey, channelId);
    var channel := if found then Some(v.snapshot.content.channels[n]) else None;
    PlayEnds(q, Start(q, v.snapshot), es);
    var i := 0;
    while i < |es|
      invariant 0 <= i <= |es|
      invariant Info(Ok(channel)) == Play(q, Start(q, v.snapshot), es[..i])
    {
      PlayNext(q, Start(q, v.snapshot), es, i);
      match es[i].payload {
        case StreamPayload(Space, ChannelUpdate(c)) =>
          if c.channelId == channelId {
            channel := Some(c);
          }
        case _ =>
      }
      i := i + 1;
    }
    r := Ok(channel);
  }

  function SolicitationsOf(member: Option<Member>): Option<seq<Solicitation>> {
    if member.Some? then Some(member.value.solicitations) else None
  }

  /** One event of the replay, on the cloned member. */
  method ReplaySolicitation(member: Option<Member>, user: Bytes, e: Event) returns (r: Option<Member>)
    ensures SolicitationsOf(r) == SolicitationsStep(user, SolicitationsOf(member), e)
  {
    r := member;
    if e.payload.MemberPayload? {
      match e.payload.member
      case Membership(Join, u) =>
        if u == user { r := Some(NewMember(u, 0, 0)); }
      case Membership(Leave, u) =>
        if u == user { r := None; }
      case KeySolicitation(s) =>
        if member.Some? && e.creator == user {
          var m := ApplyKeySolicitation(member.value, s);
          r := Some(m);
        }
      case KeyFulfillment(u, deviceKey, ids) =>
        if member.Some? && u == user {
          var m := ApplyKeyFulfillment(member.value, deviceKey, ids);
          r := Some(m);
        }
      case _ =>
    }
  }

  method GetKeySolicitations(v: View, user: Bytes) returns (r: Option<seq<Solicitation>>)
    requires 0 <= v.snapshotIndex < |v.blocks| && WellFormed(v.snapshot)
    ensures Solicitations(r) == Ask(KeySolicitationsOf(user), v)
  {
    hide Play, EventsFrom, Index, SolicitationsStep;
    ghost var q := KeySolicitationsOf(user);
    var n, found := BinarySearch(v.snapshot.joined, MemberKey, user);
    HasIsMembership(v.snapshot.joined, MemberKey, user);
    var member := if found then Some(v.snapshot.joined[n]) else None;
    ghost var start := Start(q, v.snapshot);
    assert Solicitations(SolicitationsOf(member)) == start;
    hide Start, Find;
    var es := EventsFrom(v, v.snapshotIndex + 1);
    PlayEnds(q, start, es);
    var i := 0;
    while i < |es|
      invariant 0 <= i <= |es|
      invariant Solicitations(SolicitationsOf(member)) == Play(q, start, es[..i])
    {
      PlayNext(q, start, es, i);
      member := ReplaySolicitation(member, user, es[i]);
      i := i + 1;
    }
    r := SolicitationsOf(member);
  }

  method GetMembershipOp(v: View, user: Bytes) returns (op: MembershipOp)
    requires 0 <= v.snapshotIndex < |v.blocks| && WellFormed(v.snapshot)
    ensures op == Membership.GetMembership(v, user)
  {
    hide EventsFrom, Index;
    var _, found := BinarySearch(v.snapshot.joined, MemberKey, user);
    HasIsMembership(v.snapshot.joined, MemberKey, user);
    op := if found then Join else Unspecified;
    var es := EventsFrom(v, v.snapshotIndex + 1);
    var i := 0;
    while i < |es|
      invariant 0 <= i <= |es|
      invariant op == Membership.LastOp(user, Membership.JoinedOp(user, v.snapshot), es[..i])
    {
      assert Init(es[..i + 1]) == es[..i] && Last(es[..i + 1]) == es[i];
      if Membership.Mentions(es[i], user) {
        op := es[i].payload.member.op;
      }
      i := i + 1;
    }
    assert es[..|es|] == es;
  }
}
