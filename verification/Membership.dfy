/**
 * `GetMembership` and `IsMember`: unlike the queries in `Queries` these do depend on which snapshot the window is based
 * on, because the snapshot keeps only the joined set while the tail reports every operation.
 */
module Membership {
  import opened ByteStrings
  import opened SortedLists
  import opened Messages
  import opened RecentLists
  import opened Snapshots
  import opened Chains
  import opened Views
  import opened Queries

  predicate Mentions(e: Event, user: Bytes) {
    e.payload.MemberPayload? && e.payload.member.Membership? && e.payload.member.userAddress == user
  }

  function OpStep(user: Bytes, op: MembershipOp, e: Event): MembershipOp {
    if Mentions(e, user) then e.payload.member.op else op
  }

  function LastOp(user: Bytes, op: MembershipOp, es: seq<Event>): MembershipOp {
    if es == [] then op else OpStep(user, LastOp(user, op, Init(es)), Last(es))
  }

  function JoinedOp(user: Bytes, s: Snapshot): MembershipOp {
    if Has(s.joined, MemberKey, user) then Join else Unspecified
  }

  function GetMembership(v: View, user: Bytes): MembershipOp
    requires 0 <= v.snapshotIndex < |v.blocks|
  {
    LastOp(user, JoinedOp(user, v.snapshot), EventsFrom(v, v.snapshotIndex + 1))
  }

  predicate Mentioned(user: Bytes, es: seq<Event>) {
    exists e :: e in es && Mentions(e, user)
  }

  /** Whether the user is joined after these events: the last Join or Leave decides, invitations do not. */
  predicate JoinedAfter(user: Bytes, joined: bool, es: seq<Event>) {
    if es == [] then joined
    else
      var before, e := JoinedAfter(user, joined, Init(es)), Last(es);
      if Mentions(e, user) && e.payload.member.op.Join? then true
      else if Mentions(e, user) && e.payload.member.op.Leave? then false
      else before
  }

  /** Once any event mentions the user, what came before no longer matters; otherwise nothing changes. */
  lemma {:induction false} MentionDecides(user: Bytes, a: MembershipOp, b: MembershipOp, es: seq<Event>)
    ensures Mentioned(user, es) ==> LastOp(user, a, es) == LastOp(user, b, es)
    ensures !Mentioned(user, es) ==> LastOp(user, a, es) == a
  {
    if es != [] {
      MentionDecides(user, a, b, Init(es));
      assert es == Init(es) + [Last(es)];
      assert Mentioned(user, es) <==> Mentioned(user, Init(es)) || Mentions(Last(es), user);
    }
  }

  lemma {:induction false} LastOpConcat(user: Bytes, op: MembershipOp, es: seq<Event>, fs: seq<Event>)
    ensures LastOp(user, op, es + fs) == LastOp(user, LastOp(user, op, es), fs)
  {
    if fs == [] {
      assert es + fs == es;
    } else {
      assert Init(es + fs) == es + Init(fs) && Last(es + fs) == Last(fs);
      LastOpConcat(user, op, es, Init(fs));
    }
  }

  lemma {:induction false} JoinedConcat(user: Bytes, joined: bool, es: seq<Event>, fs: seq<Event>)
    ensures JoinedAfter(user, joined, es + fs) == JoinedAfter(user, JoinedAfter(user, joined, es), fs)
  {
    if fs == [] {
      assert es + fs == es;
    } else {
      assert Init(es + fs) == es + Init(fs) && Last(es + fs) == Last(fs);
      JoinedConcat(user, joined, es, Init(fs));
    }
  }

  /** How the last operation and the joined set drift apart: they agree on Join and Leave and differ on the rest. */
  lemma {:induction false} LastOpAndJoined(user: Bytes, joined: bool, es: seq<Event>)
    ensures var op := LastOp(user, if joined then Join else Unspecified, es);
      && (!Mentioned(user, es) ==>
            op == (if joined then Join else Unspecified) && JoinedAfter(user, joined, es) == joined)
      && (Mentioned(user, es) && op.Join? ==> JoinedAfter(user, joined, es))
      && (Mentioned(user, es) && op.Leave? ==> !JoinedAfter(user, joined, es))
  {
    if es != [] {
      LastOpAndJoined(user, joined, Init(es));
      assert es == Init(es) + [Last(es)];
      assert Mentioned(user, es) <==> Mentioned(user, Init(es)) || Mentions(Last(es), user);
    }
  }

  // ---------- the joined set is the fold of Join and Leave ----------

  lemma ChangedJoined(user: Bytes, s: Snapshot, e: Event, num: int, eventNum: int)
    requires WellFormed(s) && e.payload.MemberPayload?
    requires !e.payload.member.Membership? && !e.payload.member.OtherMemberContent?
    ensures Has(Apply(s, e, num, eventNum).joined, MemberKey, user) == Has(s.joined, MemberKey, user)
  {
    hide Index, Insert, Remove, Recent, Push, FulfillFirst;
    var c := e.payload.member;
    var m := Find(s.joined, MemberKey, Target(e, c));
    if m.Some? {
      var changed := Changed(m.value, e, c, eventNum);
      ChangedKeepsKey(m.value, e, c, eventNum);
      InsertSorted(s.joined, MemberKey, changed);
      HasIsMembership(s.joined, MemberKey, user);
      HasIsMembership(s.joined, MemberKey, Target(e, c));
      HasIsMembership(Insert(s.joined, MemberKey, changed), MemberKey, user);
    }
  }

  lemma ApplyJoined(user: Bytes, s: Snapshot, e: Event, num: int, eventNum: int)
    requires WellFormed(s)
    ensures Has(Apply(s, e, num, eventNum).joined, MemberKey, user) ==
      if Mentions(e, user) && e.payload.member.op.Join? then true
      else if Mentions(e, user) && e.payload.member.op.Leave? then false
      else Has(s.joined, MemberKey, user)
  {
    hide Index, Insert, Remove, Changed, Recent;
    HasIsMembership(s.joined, MemberKey, user);
    if e.payload.MemberPayload? {
      var c := e.payload.member;
      match c {
        case Membership(Join, u) =>
          InsertSorted(s.joined, MemberKey, NewMember(u, num, eventNum));
          HasIsMembership(Insert(s.joined, MemberKey, NewMember(u, num, eventNum)), MemberKey, user);
        case Membership(Leave, u) =>
          RemoveSorted(s.joined, MemberKey, u);
          HasIsMembership(Remove(s.joined, MemberKey, u), MemberKey, user);
        case Membership(_, _) =>
        case OtherMemberContent =>
        case _ => ChangedJoined(user, s, e, num, eventNum);
      }
    }
  }

  lemma {:induction false} FoldJoined(user: Bytes, s: Snapshot, es: seq<Event>, num: int, firstNum: int)
    requires WellFormed(s)
    ensures Has(FoldEvents(s, es, num, firstNum).joined, MemberKey, user) ==
      JoinedAfter(user, Has(s.joined, MemberKey, user), es)
  {
    hide Apply, WellFormed, Has;
    if es != [] {
      var n := |es| - 1;
      assert Init(es) == es[..n];
      FoldJoined(user, s, es[..n], num, firstNum);
      FoldEventsKeeps(s, es[..n], num, firstNum);
      KeepsIsWellFormed(s, FoldEvents(s, es[..n], num, firstNum));
      ApplyJoined(user, FoldEvents(s, es[..n], num, firstNum), es[n], num, firstNum + n);
    }
  }

  // ---------- one snapshot ----------

  /** The events put into the snapshot leave the user's answer as it was. */
  predicate Harmless(user: Bytes, joined: bool, folded: seq<Event>) {
    var op := LastOp(user, if joined then Join else Unspecified, folded);
    || !Mentioned(user, folded)
    || op.Join?
    || (op.Unspecified? && !JoinedAfter(user, joined, folded))
  }

  lemma TailDecides(user: Bytes, joined: bool, folded: seq<Event>, tail: seq<Event>)
    ensures
      var op := LastOp(user, if joined then Join else Unspecified, folded);
      LastOp(user, if JoinedAfter(user, joined, folded) then Join else Unspecified, tail) == LastOp(user, op, tail) <==>
      Mentioned(user, tail) || Harmless(user, joined, folded)
  {
    hide LastOp, Mentioned;
    var op := LastOp(user, if joined then Join else Unspecified, folded);
    var reported := if JoinedAfter(user, joined, folded) then Join else Unspecified;
    LastOpAndJoined(user, joined, folded);
    MentionDecides(user, reported, op, tail);
    MentionDecides(user, op, reported, tail);
  }

  /**
   * Folding events into the snapshot before replaying a tail gives the same answer as replaying both, exactly when the
   * tail mentions the user, or the folded events do not, or the last folded operation is Join, or it is unspecified
   * and the user's last Join or Leave did not leave them joined.
   */
  lemma SnapshotChangesMembership(
    user: Bytes, s: Snapshot, folded: seq<Event>, tail: seq<Event>, num: int, firstNum: int)
    requires WellFormed(s)
    ensures
      var t := FoldEvents(s, folded, num, firstNum);
      LastOp(user, JoinedOp(user, t), tail) == LastOp(user, JoinedOp(user, s), folded + tail) <==>
      Mentioned(user, tail) || Harmless(user, Has(s.joined, MemberKey, user), folded)
  {
    hide FoldEvents, Has, LastOp, WellFormed, Mentioned;
    FoldJoined(user, s, folded, num, firstNum);
    LastOpConcat(user, JoinedOp(user, s), folded, tail);
    TailDecides(user, Has(s.joined, MemberKey, user), folded, tail);
  }

  // ---------- every window of a chain ----------

  /** The reference: every membership event since the inception, with no snapshot in between. */
  function FullMembership(blocks: seq<Block>, pool: seq<Event>, user: Bytes): MembershipOp
    requires blocks != [] && IsGenesis(blocks[0])
  {
    LastOp(user, JoinedOp(user, Initial(blocks[0].events[0]).value), AfterInception(blocks) + pool)
  }

  lemma {:induction false} ReplayJoined(user: Bytes, blocks: seq<Block>, threshold: int)
    requires Chain(blocks, threshold)
    ensures Has(Replay(blocks).joined, MemberKey, user) ==
      JoinedAfter(user, Has(Initial(blocks[0].events[0]).value.joined, MemberKey, user), AfterInception(blocks))
  {
    hide Has, WellFormed, FoldEvents, Hashes, GenesisSnapshot, Initial, JoinedAfter, Apply;
    var es := blocks[0].events;
    GenesisParts(es);
    var first := Initial(es[0]).value;
    if |blocks| == 1 {
      FoldJoined(user, first, es[1..], 0, 1);
    } else {
      var init, last := Init(blocks), Last(blocks);
      ReplayJoined(user, init, threshold);
      ReplayIsWellFormed(init, threshold);
      FoldJoined(user, Replay(init), last.events, |blocks| - 1, Count(init));
      JoinedConcat(user, Has(first.joined, MemberKey, user), AfterInception(init), last.events);
    }
  }

  lemma MentionedConcat(user: Bytes, a: seq<Event>, b: seq<Event>)
    ensures Mentioned(user, a + b) <==> Mentioned(user, a) || Mentioned(user, b)
  {
    assert forall e :: e in a + b <==> e in a || e in b;
  }

  /** Headers mention nobody. */
  lemma {:induction false} LastOpDelivered(user: Bytes, op: MembershipOp, blocks: seq<Block>)
    ensures LastOp(user, op, Delivered(blocks)) == LastOp(user, op, AllEvents(blocks))
    ensures Mentioned(user, Delivered(blocks)) <==> Mentioned(user, AllEvents(blocks))
  {
    if blocks != [] {
      var init, last := Init(blocks), Last(blocks);
      var header := [last.HeaderEvent()];
      LastOpDelivered(user, op, init);
      LastOpConcat(user, op, Delivered(init) + last.events, header);
      LastOpConcat(user, op, Delivered(init), last.events);
      LastOpConcat(user, op, AllEvents(init), last.events);
      assert Init(header) == [] && !Mentions(Last(header), user);
      MentionedConcat(user, Delivered(init) + last.events, header);
      MentionedConcat(user, Delivered(init), last.events);
      MentionedConcat(user, AllEvents(init), last.events);
      assert !Mentioned(user, header);
    }
  }

  lemma MembershipParts(user: Bytes, joined: bool, front: seq<Event>, tail: seq<Block>, pool: seq<Event>)
    ensures
      var op := if joined then Join else Unspecified;
      var reported := if JoinedAfter(user, joined, front) then Join else Unspecified;
      LastOp(user, reported, Delivered(tail) + pool) == LastOp(user, op, front + AllEvents(tail) + pool) <==>
      Mentioned(user, Delivered(tail) + pool) || Harmless(user, joined, front)
  {
    hide LastOp, Mentioned, JoinedAfter, Harmless, Delivered, AllEvents;
    var op := if joined then Join else Unspecified;
    var reported := if JoinedAfter(user, joined, front) then Join else Unspecified;
    var events := AllEvents(tail);
    TailDecides(user, joined, front, events + pool);
    LastOpConcat(user, reported, Delivered(tail), pool);
    LastOpConcat(user, reported, events, pool);
    LastOpDelivered(user, reported, tail);
    MentionedConcat(user, Delivered(tail), pool);
    MentionedConcat(user, events, pool);
    LastOpConcat(user, op, front, events + pool);
    assert front + events + pool == front + (events + pool);
  }

  /**
   * For every window of every chain: the membership reported is that of the full replay exactly when an event after
   * the base block mentions the user, or the events up to it are harmless.
   */
  lemma MembershipExactly(v: View, blocks: seq<Block>, pool: seq<Event>, threshold: int, user: Bytes)
    requires Chain(blocks, threshold) && Window(v, blocks, pool)
    ensures blocks[..Base(v, blocks) + 1] != [] && blocks[..Base(v, blocks) + 1][0] == blocks[0]
    ensures
      var first := Initial(blocks[0].events[0]).value;
      GetMembership(v, user) == FullMembership(blocks, pool, user) <==>
      || Mentioned(user, EventsFrom(v, v.snapshotIndex + 1))
      || Harmless(user, Has(first.joined, MemberKey, user), AfterInception(blocks[..Base(v, blocks) + 1]))
  {
    hide Has, WellFormed, FoldEvents, Hashes, GenesisSnapshot, Initial, JoinedAfter, Replay, Follows, Delivered, LastOp;
    hide Mentioned, Harmless, AfterInception, AllEvents, Chain;
    var i := Base(v, blocks);
    var front, tail := blocks[..i + 1], blocks[i + 1..];
    assert v.blocks[v.snapshotIndex + 1..] == tail && front + tail == blocks;
    assert blocks[i] == v.blocks[v.snapshotIndex];
    SnapshotAt(blocks, threshold, i);
    ChainPrefix(blocks, threshold, i + 1);
    ReplayJoined(user, front, threshold);
    GenesisParts(front[0].events);
    var joined := Has(Initial(blocks[0].events[0]).value.joined, MemberKey, user);
    AfterInceptionConcat(front, tail);
    MembershipParts(user, joined, AfterInception(front), tail, pool);
  }

  /** A member who leaves: the tail says Leave, the next snapshot says nothing. */
  lemma LeaveIsForgotten(s: Snapshot, user: Bytes, e: Event)
    requires WellFormed(s) && e.payload == MemberPayload(MemberContent.Membership(Leave, user))
    ensures LastOp(user, JoinedOp(user, s), [e]) == Leave
    ensures LastOp(user, JoinedOp(user, FoldEvents(s, [e], 1, 2)), []) == Unspecified
  {
    assert Init([e]) == [] && [e][..0] == [];
    assert FoldEvents(s, [e], 1, 2) == Apply(s, e, 1, 2);
    RemoveSorted(s.joined, MemberKey, user);
  }

  /** An invitation to someone already joined: the tail says Invite, so not a member; the next snapshot says Join. */
  lemma InviteHidesMember(s: Snapshot, user: Bytes, e: Event)
    requires Has(s.joined, MemberKey, user) && e.payload == MemberPayload(MemberContent.Membership(Invite, user))
    ensures LastOp(user, JoinedOp(user, s), [e]) == Invite
    ensures LastOp(user, JoinedOp(user, FoldEvents(s, [e], 1, 2)), []) == Join
  {
    assert Init([e]) == [] && [e][..0] == [];
    assert FoldEvents(s, [e], 1, 2) == Apply(s, e, 1, 2);
  }
}
