/** Building the first block of a stream, and that every stream so built is a start of the engine's runs. */
module GenesisBlocks {
  import opened Wrappers
  import opened ByteStrings
  import opened Messages
  import opened Snapshots
  import opened Chains
  import opened Views
  import opened ViewTheorems
  import opened Engine
  import opened EngineProofs
  import opened EngineTheorems

  /** An update error at genesis is final. */
  lemma {:induction false} StrictFoldPrefix(s: Snapshot, es: seq<Event>, firstNum: int, n: nat)
    requires n <= |es| && !StrictFold(s, es[..n], firstNum).Updated?
    ensures !StrictFold(s, es, firstNum).Updated?
  {
    hide Update;
    if n < |es| {
      assert es[..|es| - 1][..n] == es[..n];
      StrictFoldPrefix(s, es[..|es| - 1], firstNum, n);
    } else {
      assert es[..n] == es;
    }
  }

  lemma UpdateIsApply(s: Snapshot, e: Event, num: int, eventNum: int)
    ensures Update(s, e, num, eventNum).Updated? ==> Update(s, e, num, eventNum).snapshot == Apply(s, e, num, eventNum)
  {
  }

  /** Payloads of another stream kind are rejected before a stream is created; every other failure is an error. */
  method MakeGenesisSnapshot(es: seq<Event>) returns (r: Option<Snapshot>)
    requires es != [] && es[0].IsInception() ==> forall e :: e in es ==> !Panics(e, es[0].payload.kind)
    ensures r == if GenesisSnapshot(es).Updated? then Some(GenesisSnapshot(es).snapshot) else None
  {
    hide Update, Apply, WellFormed, FirstMembers, EmptyContent;
    if |es| == 0 || !es[0].IsInception() {
      return None;
    }
    var initial := Initial(es[0]);
    if initial.None? {
      return None;
    }
    InitialIsWellFormed(es[0]);
    var cell := new SnapshotCell(initial.value);
    var rest := es[1..];
    var i := 0;
    assert rest[..0] == [];
    while i < |rest|
      invariant 0 <= i <= |rest|
      invariant WellFormed(cell.Value()) && cell.content.Kind() == es[0].payload.kind
      invariant StrictFold(initial.value, rest[..i], 1) == Updated(cell.Value())
    {
      assert rest[..i + 1][..i] == rest[..i] && rest[i] in es;
      ghost var before := cell.Value();
      var ok := cell.UpdateSnapshot(rest[i], 0, 1 + i);
      UpdateIsApply(before, rest[i], 0, 1 + i);
      if !ok {
        StrictFoldPrefix(initial.value, rest, 1, i + 1);
        return None;
      }
      i := i + 1;
    }
    assert rest[..|rest|] == rest;
    r := Some(Snapshot(cell.content, cell.joined));
  }

  /** A block event after the inception: neither another inception nor a header. */
  predicate Ordinary(e: Event) { !e.IsInception() && !e.IsHeader() }

  lemma NoInception(es: seq<Event>)
    requires es != [] && !es[0].IsInception()
    ensures !GenesisSnapshot(es).Updated?
  {
  }

  method MakeGenesisMiniblockHeader(es: seq<Event>, now: Timestamp) returns (r: Result<Header>)
    requires es != [] && es[0].IsInception() ==> forall e :: e in es ==> !Panics(e, es[0].payload.kind)
    ensures r.Ok? <==> es != [] && (forall e :: e in es[1..] ==> Ordinary(e)) && GenesisSnapshot(es).Updated?
    ensures r.Ok? ==> r.value == Header(0, now, Hashes(es), NoHash, Some(GenesisSnapshot(es).snapshot), 0, 0)
    ensures es == [] ==> r == Err(StreamEmpty)
    ensures es != [] && !es[0].IsInception() ==> r == Err(NoInceptionEvent)
    ensures es != [] && es[0].IsInception() && !(forall e :: e in es[1..] ==> Ordinary(e)) ==> r == Err(BadEvent)
    ensures r.Ok? && (forall e :: e in es ==> e.prevHash == NoHash) ==>
      forall signer :: IsGenesis(Block(signer, r.value, es))
  {
    hide GenesisSnapshot;
    if |es| <= 0 {
      return Err(StreamEmpty);
    }
    if !es[0].IsInception() {
      NoInception(es);
      return Err(NoInceptionEvent);
    }
    var i := 1;
    while i < |es|
      invariant 1 <= i <= |es| && forall k :: 1 <= k < i ==> Ordinary(es[k])
    {
      if es[i].IsInception() || es[i].IsHeader() {
        assert es[1..][i - 1] == es[i] && !Ordinary(es[i]);
        return Err(BadEvent);
      }
      i := i + 1;
    }
    var snapshot := MakeGenesisSnapshot(es);
    if snapshot.None? {
      return Err(InvalidArgument);
    }
    r := Ok(Header(0, now, Hashes(es), NoHash, snapshot, 0, 0));
  }

  /** A stream whose first block was built this way starts in a state of the engine. */
  lemma NewStreamIsReachable(env: Env, g: Block)
    requires IsGenesis(g) && ValidStreamId(StreamIdOf([g]))
    ensures Reachable(env, Created(g)) && Inv(env, Created(g))
  {
    hide Inv, IsGenesis;
    assert Run(env, Created(g), []) == Created(g) && AdmissibleRun(env, Created(g), []) && Genesis(g);
    CreatedInv(env, g);
  }

  /** There are such streams: a space with nothing but its inception. */
  lemma StreamsExist(creator: Bytes, signer: Bytes, now: Timestamp) returns (g: Block)
    ensures IsGenesis(g) && Distinct(g.events) && ValidStreamId(StreamIdOf([g]))
    ensures |g.events| == 1 && Kind([g]) == Space
    ensures GenesisSnapshot(g.events).snapshot == Snapshot(SpaceContent(g.events[0].payload.content.inception, []), [])
  {
    var id: Bytes := [0x10] + seq(31, _ => 0);
    var e := Event(creator, [], NoHash, StreamPayload(Space, Inception(InceptionInfo(id, [], []))));
    var s := Snapshot(SpaceContent(e.payload.content.inception, []), []);
    assert Initial(e) == Some(s);
    assert [e][1..] == [];
    assert GenesisSnapshot([e]) == Updated(s);
    g := Block(signer, Header(0, now, Hashes([e]), NoHash, Some(s), 0, 0), [e]);
  }

  /** A second block that adds a channel and carries a snapshot, on top of a space with nothing but its inception. */
  function SecondBlock(g: Block, channel: ChannelInfo): Block
    requires IsGenesis(g)
  {
    var e := Event([], [], g.Hash(), StreamPayload(Space, ChannelUpdate(channel)));
    var time := Timestamp(g.header.timestamp.seconds + 1, 0);
    Block([], Header(1, time, Hashes([e]), g.Hash(), Some(FoldEvents(Replay([g]), [e], 1, 2)), 2, 0), [e])
  }

  /** A response that starts before the latest snapshot: the remote view is built without an error and is wrong. */
  lemma RemoteViewFails(creator: Bytes, signer: Bytes, now: Timestamp, channel: ChannelInfo, threshold: int)
    returns (blocks: seq<Block>)
    ensures Chain(blocks, threshold) && MakeRemoteView(blocks, []).Ok?
    ensures !Window(MakeRemoteView(blocks, []).value, blocks, [])
  {
    var g := StreamsExist(creator, signer, now);
    var b := SecondBlock(g, channel);
    blocks := [g, b];
    assert Init(blocks) == [g] && Last(blocks) == b && Init([g]) == [];
    assert Count([g]) == 2;
    assert Follows([g], b, threshold) by {
      assert RefersTo(b.events[0], [g]);
    }
    var s := Replay([g]);
    assert b.events[..0] == [];
    assert FoldEvents(s, b.events, 1, 2) == Apply(s, b.events[0], 1, 2);
    assert s.content.SpaceContent? && s.content.channels == [];
    assert Apply(s, b.events[0], 1, 2).content.channels == [channel];
    assert LastSnapshot(blocks) == 1;
  }

  predicate IsJoin(e: Event) {
    e.payload.MemberPayload? && e.payload.member.Membership? && e.payload.member.op.Join? && e.prevHash == NoHash
  }

  /** Joins always update the snapshot, so a genesis list may hold any of them, one of them twice included. */
  lemma {:induction false} JoinsUpdate(s: Snapshot, es: seq<Event>, firstNum: int)
    requires forall e :: e in es ==> IsJoin(e)
    ensures StrictFold(s, es, firstNum).Updated?
  {
    if es != [] {
      var init := es[..|es| - 1];
      assert forall e :: e in init ==> e in es;
      JoinsUpdate(s, init, firstNum);
      assert IsJoin(es[|es| - 1]);
    }
  }

  /** A group channel created with one join envelope twice: a stream, and its history repeats an event in every run. */
  lemma RepeatedGenesis(creator: Bytes, signer: Bytes, now: Timestamp, first: Event, second: Event) returns (g: Block)
    requires IsJoin(first) && IsJoin(second)
    ensures Genesis(g) && |g.events| == 4 && !Distinct(g.events)
    ensures forall env, steps :: AdmissibleRun(env, Created(g), steps) ==>
      var st := Run(env, Created(g), steps).store; !Distinct(AllEvents(st.blocks) + st.pool)
  {
    var id: Bytes := [0x77] + seq(31, _ => 0);
    var e := Event(creator, [], NoHash, StreamPayload(GdmChannel, Inception(InceptionInfo(id, [], []))));
    var es := [e, first, second, second];
    assert es[1..] == [first, second, second];
    JoinsUpdate(Initial(e).value, es[1..], 1);
    assert GenesisSnapshot(es).Updated?;
    g := Block(signer, Header(0, now, Hashes(es), NoHash, Some(GenesisSnapshot(es).snapshot), 0, 0), es);
    assert es[2] == es[3];
    forall env, steps | AdmissibleRun(env, Created(g), steps)
      ensures var st := Run(env, Created(g), steps).store; !Distinct(AllEvents(st.blocks) + st.pool)
    {
      hide Run, AdmissibleRun, Genesis, AllEvents, AddedEvents;
      ExactlyOnce(env, g, steps);
    }
  }
}
