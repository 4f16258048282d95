/** The member records of a snapshot in terms of the events alone. */
module MemberRecords {
  import opened Wrappers
  import opened ByteStrings
  import opened SortedLists
  import opened RecentLists
  import opened Messages
  import opened Snapshots
  import opened Chains
  import opened Queries
  import opened Histories

  // ---------- members ----------

  predicate Moves(user: Bytes, n: Numbered) {
    n.e.payload == MemberPayload(Membership(Join, user)) || n.e.payload == MemberPayload(Membership(Leave, user))
  }

  function SetsDisplayName(user: Bytes): Numbered -> Option<Option<Wrapped>> {
    (n: Numbered) => match n.e.payload
      case MemberPayload(DisplayName(data)) =>
        if n.e.creator == user then Some(Some(Wrapped(data, n.num, n.e.Hash()))) else None
      case _ => None
  }

  function SetsUsername(user: Bytes): Numbered -> Option<Option<Wrapped>> {
    (n: Numbered) => match n.e.payload
      case MemberPayload(Username(data)) =>
        if n.e.creator == user then Some(Some(Wrapped(data, n.num, n.e.Hash()))) else None
      case _ => None
  }

  function SetsEnsAddress(user: Bytes): Numbered -> Option<Bytes> {
    (n: Numbered) => match n.e.payload
      case MemberPayload(EnsAddress(address)) => if n.e.creator == user then Some(address) else None
      case _ => None
  }

  function SetsNft(user: Bytes): Numbered -> Option<Bytes> {
    (n: Numbered) => match n.e.payload
      case MemberPayload(Nft(token)) => if n.e.creator == user then Some(token) else None
      case _ => None
  }

  /** A solicitation by the user is added, a fulfillment for the user takes ids away. */
  function OutstandingStep(user: Bytes, ss: seq<Solicitation>, n: Numbered): seq<Solicitation> {
    match n.e.payload
    case MemberPayload(KeySolicitation(s)) => if n.e.creator == user then Push(ss, SolicitationKey, s) else ss
    case MemberPayload(KeyFulfillment(u, deviceKey, ids)) => if u == user then FulfillFirst(ss, deviceKey, ids) else ss
    case _ => ss
  }

  function Outstanding(user: Bytes, start: seq<Solicitation>, ns: seq<Numbered>): seq<Solicitation> {
    if ns == [] then start else OutstandingStep(user, Outstanding(user, start, Init(ns)), Last(ns))
  }

  /** The record `m` is the record `start` with the fields the last events by the user set. */
  ghost predicate FieldsSince(m: Member, start: Member, user: Bytes, ns: seq<Numbered>) {
    && m.userAddress == user && m.miniblockNum == start.miniblockNum && m.eventNum == start.eventNum
    && m.displayName == Latest(ns, SetsDisplayName(user), start.displayName)
    && m.username == Latest(ns, SetsUsername(user), start.username)
    && m.ensAddress == Latest(ns, SetsEnsAddress(user), start.ensAddress)
    && m.nft == Latest(ns, SetsNft(user), start.nft)
    && m.solicitations == Outstanding(user, start.solicitations, ns)
  }

  /** One event changes just the field it is about. */
  ghost predicate FieldsAfter(m: Member, before: Member, user: Bytes, n: Numbered) {
    && m.userAddress == user && m.miniblockNum == before.miniblockNum && m.eventNum == before.eventNum
    && m.displayName == Given(SetsDisplayName(user)(n), before.displayName)
    && m.username == Given(SetsUsername(user)(n), before.username)
    && m.ensAddress == Given(SetsEnsAddress(user)(n), before.ensAddress)
    && m.nft == Given(SetsNft(user)(n), before.nft)
    && m.solicitations == OutstandingStep(user, before.solicitations, n)
  }

  lemma FoundUnder(joined: seq<Member>, user: Bytes)
    ensures var m := Find(joined, MemberKey, user); m.Some? ==> m.value in joined && m.value.userAddress == user
  {
  }

  /** The record an event other than a membership changes. */
  lemma ChangedFields(user: Bytes, m: Member, n: Numbered, c: MemberContent)
    requires n.e.payload == MemberPayload(c) && !c.Membership? && !c.OtherMemberContent?
    requires m.userAddress == user == Target(n.e, c)
    ensures FieldsAfter(Changed(m, n.e, c, n.num), m, user, n)
  {
    hide Push, FulfillFirst;
  }

  lemma OthersStay(user: Bytes, m: Member, n: Numbered, c: MemberContent)
    requires n.e.payload == MemberPayload(c) && m.userAddress == user && Target(n.e, c) != user
    ensures FieldsAfter(m, m, user, n)
  {
  }

  /** One event that is no Join or Leave of the user. */
  ghost predicate RecordStays(user: Bytes, before: Option<Member>, after: Option<Member>, n: Numbered) {
    && (after.Some? <==> before.Some?)
    && (after.Some? ==> FieldsAfter(after.value, before.value, user, n))
  }

  lemma ChangeStays(user: Bytes, s: Snapshot, n: Numbered, c: MemberContent)
    requires WellFormed(s) && n.e.payload == MemberPayload(c) && !c.Membership? && !c.OtherMemberContent?
    ensures RecordStays(
      user, Find(s.joined, MemberKey, user), Find(Apply(s, n.e, n.block, n.num).joined, MemberKey, user), n)
  {
    hide Index, Insert, Remove, Recent, Push, FulfillFirst, FieldsAfter, Changed, Find;
    var target := Target(n.e, c);
    var m, before := Find(s.joined, MemberKey, target), Find(s.joined, MemberKey, user);
    FoundUnder(s.joined, target);
    FoundUnder(s.joined, user);
    if m.Some? {
      var changed := Changed(m.value, n.e, c, n.num);
      ChangedKeepsKey(m.value, n.e, c, n.num);
      InsertSorted(s.joined, MemberKey, changed);
      if user == target {
        ChangedFields(user, m.value, n, c);
      } else if before.Some? {
        OthersStay(user, before.value, n, c);
      }
    } else if before.Some? {
      OthersStay(user, before.value, n, c);
    }
  }

  lemma UnrelatedStays(user: Bytes, m: Member, n: Numbered)
    requires m.userAddress == user
    requires !n.e.payload.MemberPayload? || n.e.payload.member.Membership? || n.e.payload.member.OtherMemberContent?
    ensures FieldsAfter(m, m, user, n)
  {
  }

  lemma MemberStays(user: Bytes, s: Snapshot, n: Numbered)
    requires WellFormed(s) && !Moves(user, n)
    ensures RecordStays(
      user, Find(s.joined, MemberKey, user), Find(Apply(s, n.e, n.block, n.num).joined, MemberKey, user), n)
  {
    hide Index, Insert, Remove, Recent, UpdateContent, FieldsAfter, Changed, Find;
    var before := Find(s.joined, MemberKey, user);
    FoundUnder(s.joined, user);
    if n.e.payload.MemberPayload? && !n.e.payload.member.Membership? && !n.e.payload.member.OtherMemberContent? {
      ChangeStays(user, s, n, n.e.payload.member);
    } else {
      if before.Some? {
        UnrelatedStays(user, before.value, n);
      }
      if n.e.payload.MemberPayload? {
        match n.e.payload.member {
          case Membership(Join, u) => InsertSorted(s.joined, MemberKey, NewMember(u, n.block, n.num));
          case Membership(Leave, u) => RemoveSorted(s.joined, MemberKey, u);
          case _ =>
        }
      }
    }
  }

  /** A Join starts an empty record with the Join's own numbers; a Leave ends it. */
  lemma MemberMoves(user: Bytes, s: Snapshot, n: Numbered)
    requires WellFormed(s) && Moves(user, n)
    ensures Find(Apply(s, n.e, n.block, n.num).joined, MemberKey, user) ==
      if n.e.payload.member.op.Join? then Some(Member(user, n.block, n.num, [], None, None, [], [])) else None
  {
    hide Index, Insert, Remove, Recent;
    if n.e.payload.member.op.Join? {
      InsertSorted(s.joined, MemberKey, NewMember(user, n.block, n.num));
    } else {
      RemoveSorted(s.joined, MemberKey, user);
    }
  }

  function LastMove(user: Bytes, ns: seq<Numbered>): (r: Option<nat>)
    ensures r.Some? ==>
      r.value < |ns| && Moves(user, ns[r.value]) && forall k :: r.value < k < |ns| ==> !Moves(user, ns[k])
    ensures r.None? ==> forall k :: 0 <= k < |ns| ==> !Moves(user, ns[k])
  {
    LastWith(ns, n => Moves(user, n))
  }

  /**
   * After any events a user has a record exactly if their last Join or Leave is a Join, or there is none and they had
   * one. The record starts empty at that Join, with its block and number, and each field is set by the last event
   * since then in which the user sets it, with that event's number and hash.
   */
  ghost predicate RecordOf(user: Bytes, start: Option<Member>, ns: seq<Numbered>, m: Option<Member>) {
    match LastMove(user, ns)
    case None => (m.Some? <==> start.Some?) && (m.Some? ==> FieldsSince(m.value, start.value, user, ns))
    case Some(k) =>
      && (m.Some? <==> ns[k].e.payload.member.op.Join?)
      && (m.Some? ==> FieldsSince(
            m.value, Member(user, ns[k].block, ns[k].num, [], None, None, [], []), user, ns[k + 1..]))
  }

  lemma LatestSnoc<T>(ns: seq<Numbered>, n: Numbered, sets: Numbered -> Option<T>, start: T)
    ensures Latest(ns + [n], sets, start) == Given(sets(n), Latest(ns, sets, start))
  {
    assert Init(ns + [n]) == ns && Last(ns + [n]) == n;
  }

  lemma FieldsGrow(m: Member, after: Member, start: Member, user: Bytes, ns: seq<Numbered>, n: Numbered)
    requires FieldsSince(m, start, user, ns) && FieldsAfter(after, m, user, n)
    ensures FieldsSince(after, start, user, ns + [n])
  {
    hide Latest, SetsDisplayName, SetsUsername, SetsEnsAddress, SetsNft, OutstandingStep;
    assert Init(ns + [n]) == ns && Last(ns + [n]) == n;
    LatestSnoc(ns, n, SetsDisplayName(user), start.displayName);
    LatestSnoc(ns, n, SetsUsername(user), start.username);
    LatestSnoc(ns, n, SetsEnsAddress(user), start.ensAddress);
    LatestSnoc(ns, n, SetsNft(user), start.nft);
  }

  lemma FieldsStart(m: Member, user: Bytes)
    requires m.userAddress == user
    ensures FieldsSince(m, m, user, [])
  {
  }

  lemma LastMoveSnoc(user: Bytes, ns: seq<Numbered>, n: Numbered)
    ensures LastMove(user, ns + [n]) == if Moves(user, n) then Some(|ns|) else LastMove(user, ns)
  {
    hide Moves;
    var all := ns + [n];
    assert all[|ns|] == n && forall k :: 0 <= k < |ns| ==> all[k] == ns[k];
  }

  lemma RecordGrows(
    user: Bytes, start: Option<Member>, ns: seq<Numbered>, n: Numbered, m: Option<Member>, after: Option<Member>)
    requires RecordOf(user, start, ns, m) && !Moves(user, n) && RecordStays(user, m, after, n)
    ensures RecordOf(user, start, ns + [n], after)
  {
    hide FieldsSince, FieldsAfter, Moves;
    LastMoveSnoc(user, ns, n);
    match LastMove(user, ns) {
      case None => if m.Some? { FieldsGrow(m.value, after.value, start.value, user, ns, n); }
      case Some(k) =>
        assert (ns + [n])[k] == ns[k] && (ns + [n])[k + 1..] == ns[k + 1..] + [n];
        if m.Some? {
          var first := Member(user, ns[k].block, ns[k].num, [], None, None, [], []);
          FieldsGrow(m.value, after.value, first, user, ns[k + 1..], n);
        }
    }
  }

  lemma RecordRestarts(user: Bytes, start: Option<Member>, ns: seq<Numbered>, n: Numbered, after: Option<Member>)
    requires Moves(user, n)
    requires after ==
      if n.e.payload.member.op.Join? then Some(Member(user, n.block, n.num, [], None, None, [], [])) else None
    ensures RecordOf(user, start, ns + [n], after)
  {
    hide FieldsSince;
    LastMoveSnoc(user, ns, n);
    assert (ns + [n])[|ns|] == n && (ns + [n])[|ns| + 1..] == [];
    if after.Some? {
      FieldsStart(after.value, user);
    }
  }

  lemma {:induction false} RecordsAfter(user: Bytes, s: Snapshot, ns: seq<Numbered>)
    requires WellFormed(s)
    ensures RecordOf(
      user, Find(s.joined, MemberKey, user), ns, Find(ApplyAll(s, ns).joined, MemberKey, user))
  {
    hide Apply, WellFormed, Find, RecordStays, Moves, FieldsSince;
    var start := Find(s.joined, MemberKey, user);
    if ns == [] {
      FoundUnder(s.joined, user);
      if start.Some? {
        FieldsStart(start.value, user);
      }
    } else {
      hide RecordOf;
      var init, n := Init(ns), Last(ns);
      RecordsAfter(user, s, init);
      ApplyAllKeeps(s, init);
      var t := ApplyAll(s, init);
      KeepsIsWellFormed(s, t);
      assert ns == init + [n];
      if Moves(user, n) {
        MemberMoves(user, t, n);
        RecordRestarts(user, start, init, n, Find(Apply(t, n.e, n.block, n.num).joined, MemberKey, user));
      } else {
        MemberStays(user, t, n);
        RecordGrows(
          user, start, init, n, Find(t.joined, MemberKey, user),
          Find(Apply(t, n.e, n.block, n.num).joined, MemberKey, user));
      }
    }
  }
}
