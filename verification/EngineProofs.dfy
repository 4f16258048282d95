/** Every step of the engine keeps the invariant. */
module EngineProofs {
  import opened Wrappers
  import opened ByteStrings
  import opened Messages
  import opened Snapshots
  import opened Chains
  import opened Views
  import opened ViewProcedures
  import opened ViewTheorems
  import opened Storage
  import opened Engine

  // ---------- loading ----------

  lemma SnapshotInception(blocks: seq<Block>, i: nat, threshold: int)
    requires Chain(blocks, threshold) && i < |blocks| && blocks[i].header.snapshot.Some?
    ensures blocks[i].header.snapshot.value.content.inception.streamId == StreamIdOf(blocks)
    ensures blocks[i].header.snapshot.value.content.Kind() == Kind(blocks)
    ensures WellFormed(blocks[i].header.snapshot.value)
  {
    hide Replay, FoldEvents, GenesisSnapshot, Hashes, Follows;
    SnapshotAt(blocks, threshold, i);
    ChainPrefix(blocks, threshold, i + 1);
    ReplayIsWellFormed(blocks[..i + 1], threshold);
  }

  lemma SuffixParts(blocks: seq<Block>, k: nat, i: nat, threshold: int)
    requires Chain(blocks, threshold)
    requires k <= i < |blocks| && blocks[i].header.snapshot.Some?
    requires forall j :: k <= j < i ==> blocks[j].header.snapshot.None?
    ensures
      var tail := blocks[k..];
      && Consecutive(tail) && FirstSnapshot(tail) == Some(i - k) && tail[i - k] == blocks[i]
      && Last(tail).header.num + 1 == |blocks|
  {
    hide Chain, FirstSnapshot, Consecutive;
    var tail := blocks[k..];
    ConsecutiveSuffix(blocks, k, threshold);
    NumberAt(blocks, threshold, |blocks| - 1);
    assert forall j :: 0 <= j < |tail| ==> tail[j] == blocks[k + j];
    FirstSnapshotIs(tail, i - k);
  }

  lemma MadeView(blocks: seq<Block>, pool: seq<Event>, i: nat)
    requires blocks != [] && Consecutive(blocks) && FirstSnapshot(blocks) == Some(i)
    requires i < |blocks| && blocks[i].header.snapshot.Some?
    requires ValidStreamId(blocks[i].header.snapshot.value.content.inception.streamId)
    ensures
      var s := blocks[i].header.snapshot.value;
      MakeView(blocks, pool) ==
        Ok(View(s.content.inception.streamId, blocks, pool, Last(blocks).header.num + 1, s, i))
  {
    hide FirstSnapshot, Consecutive, ValidStreamId;
  }

  lemma SuffixWindow(blocks: seq<Block>, k: nat, i: nat, pool: seq<Event>, streamId: Bytes)
    requires k <= i < |blocks| && blocks[i].header.snapshot.Some?
    ensures Window(
      View(streamId, blocks[k..], pool, |blocks|, blocks[i].header.snapshot.value, i - k), blocks, pool)
  {
    assert blocks[k..][i - k] == blocks[i];
  }

  lemma SnapshotStreamId(blocks: seq<Block>, i: nat, threshold: int)
    requires Chain(blocks, threshold) && i < |blocks| && blocks[i].header.snapshot.Some?
    ensures blocks[i].header.snapshot.value.content.inception.streamId == StreamIdOf(blocks)
  {
    hide *;
    SnapshotInception(blocks, i, threshold);
  }

  /** Any stored suffix that contains a snapshot rebuilds into a window of the chain. */
  lemma SuffixRebuilds(blocks: seq<Block>, k: nat, i: nat, pool: seq<Event>, threshold: int)
    requires Chain(blocks, threshold) && ValidStreamId(StreamIdOf(blocks))
    requires k <= i < |blocks| && blocks[i].header.snapshot.Some?
    requires forall j :: k <= j < i ==> blocks[j].header.snapshot.None?
    ensures MakeView(blocks[k..], pool).Ok?
    ensures var v := MakeView(blocks[k..], pool).value;
      && Window(v, blocks, pool) && v.streamId == StreamIdOf(blocks)
      && v.blocks == blocks[k..] && v.snapshotIndex == i - k
  {
    hide *;
    SuffixParts(blocks, k, i, threshold);
    SnapshotStreamId(blocks, i, threshold);
    MadeView(blocks[k..], pool, i - k);
    SuffixWindow(blocks, k, i, pool, blocks[i].header.snapshot.value.content.inception.streamId);
  }

  lemma NumbersAreIndices(blocks: seq<Block>, threshold: int)
    requires Chain(blocks, threshold)
    ensures forall i :: 0 <= i < |blocks| ==> blocks[i].header.num == i
  {
    hide *;
    ChainFacts(blocks, threshold);
  }

  lemma LoadShows(env: Env, s: System)
    requires Inv(env, s)
    ensures Loaded(s).Some?
    ensures Shows(env.cfg, Loaded(s).value, s.store.blocks, s.store.pool)
  {
    hide Replay, FoldEvents, GenesisSnapshot, Hashes, Follows, MakerOk, CandidatesOk, RegistryOk, MakeView, Chain;
    hide Distinct, AddedEvents, AllEvents, RefersTo, Window;
    if s.view.None? {
      var blocks := s.store.blocks;
      var p := LatestSnapshot(blocks);
      LatestSnapshotIsLatest(blocks, ThresholdOf(env, s));
      SuffixRebuilds(blocks, p, p, s.store.pool, ThresholdOf(env, s));
    }
  }

  /** The view part of the invariant is all that loading changes. */
  lemma LoadKeeps(env: Env, s: System)
    requires Inv(env, s)
    ensures Inv(env, s.(view := Loaded(s)))
  {
    hide HistoryOk, Shows, MakerOk, CandidatesOk, RegistryOk;
    LoadShows(env, s);
  }

  // ---------- adding ----------

  lemma DistinctAppend(es: seq<Event>, e: Event)
    requires Distinct(es) && e !in es
    ensures Distinct(es + [e])
  {
  }

  lemma ViewKind(v: View, blocks: seq<Block>, pool: seq<Event>, threshold: int)
    requires Chain(blocks, threshold) && Window(v, blocks, pool)
    ensures v.snapshot.content.Kind() == Kind(blocks) && WellFormed(v.snapshot)
  {
    hide Chain, IsGenesis, WellFormed;
    var i := Base(v, blocks);
    assert blocks[i] == v.blocks[v.snapshotIndex];
    SnapshotInception(blocks, i, threshold);
  }

  /** A validated event extends the history: still no duplicates, and it refers to a block of the chain. */
  lemma HistoryGrows(
    v: View, cfg: Config, e: Event, now: Timestamp, blocks: seq<Block>, pool: seq<Event>, threshold: int)
    requires HistoryOk(blocks, pool, threshold) && Window(v, blocks, pool)
    requires Validate(v, cfg, e, now).None? && e.Fits(v.snapshot.content.Kind())
    ensures HistoryOk(blocks, pool + [e], threshold)
    ensures e !in pool
  {
    hide Chain, AllEvents, Validate, RefersTo, FoldEvents, Replay, Hashes, GenesisSnapshot;
    hide AddedEvents;
    ValidatedIsNew(v, cfg, e, now, blocks, pool, threshold);
    SplitGenesis(blocks);
    assert AddedEvents(blocks) + (pool + [e]) == AddedEvents(blocks) + pool + [e];
    DistinctAppend(AddedEvents(blocks) + pool, e);
    ViewKind(v, blocks, pool, threshold);
  }

  lemma AddKeeps(env: Env, s: System, e: Event, now: Timestamp, writeOk: bool)
    requires Inv(env, s) && Admissible(env, s, Add(e, now, writeOk))
    ensures Inv(env, NextAdd(s, e, writeOk))
  {
    hide HistoryOk, Validate, Follows, LatestSnapshot, BlocksSince, IsGenesis, Hashes;
    LoadShows(env, s);
    LoadKeeps(env, s);
    var v := Loaded(s).value;
    var blocks, pool := s.store.blocks, s.store.pool;
    HistoryGrows(v, env.cfg, e, now, blocks, pool, ThresholdOf(env, s));
    var t := NextAdd(s, e, writeOk);
    assert forall k :: 0 <= k <= |pool| ==> (pool + [e])[..k] == pool[..k];
  }

  // ---------- making a block ----------

  /** Counting back from the end of a window that contains the latest snapshot is counting back in the chain. */
  lemma {:induction false} EventsSinceSuffix(blocks: seq<Block>, k: nat)
    requires k + BlocksSince(blocks) < |blocks|
    ensures EventsSince(blocks[k..]) == EventsSince(blocks)
  {
    var tail := blocks[k..];
    assert Last(tail) == Last(blocks);
    if Last(blocks).header.snapshot.None? {
      assert Init(tail) == Init(blocks)[k..];
      EventsSinceSuffix(Init(blocks), k);
    }
  }

  lemma ProposeKeeps(env: Env, s: System, force: bool)
    requires Inv(env, s)
    ensures Inv(env, NextPropose(env, s, force))
  {
    hide HistoryOk, CandidatesOk, RegistryOk, IsGenesis, EventsSince, BlocksSince, Hashes;
    var t := NextPropose(env, s, force);
    if t != s {
      var v, blocks := s.view.value, s.store.blocks;
      EventsSinceSuffix(blocks, |blocks| - |v.blocks|);
      assert Last(v.blocks) == Last(blocks);
      assert v.pool[..|v.pool|] == v.pool;
    }
  }

  lemma BuildKeeps(env: Env, s: System, now: Timestamp)
    requires Inv(env, s)
    ensures Inv(env, NextBuild(env, s, now))
    ensures s.maker.Proposed? && s.view.Some? ==> NextBuild(env, s, now).maker.Built?
  {
    hide CandidatesOk, RegistryOk, IsGenesis, EventsSince, BlocksSince, Chain, Follows, NextHeader, Collect;
    if s.maker.Proposed? && s.view.Some? {
      var v, blocks, pool, p := s.view.value, s.store.blocks, s.store.pool, s.maker.p;
      assert Last(v.blocks) == Last(blocks);
      CollectPrefix(pool, |p.hashes|);
      BuiltBlockFollows(v, p, env.node, now, blocks, pool, ThresholdOf(env, s));
    }
  }

  /** Two well-formed blocks with the same hash are the same block. */
  lemma HashFixesBlock(a: Block, b: Block)
    requires a.Hash() == b.Hash()
    requires a.header.eventHashes == Hashes(a.events) && b.header.eventHashes == Hashes(b.events)
    ensures a == b
  {
    assert forall i :: 0 <= i < |a.events| ==> a.events[i].Hash() == Hashes(a.events)[i] == b.events[i].Hash();
    assert a.events == b.events;
  }

  lemma CandidateNum(b: Block, blocks: seq<Block>, pool: seq<Event>, threshold: int)
    requires blocks != [] && IsGenesis(blocks[0]) && CandidateOk(b, blocks, pool, threshold)
    ensures b.header.num == |blocks|
  {
    hide IsGenesis;
  }

  lemma CandidateHashes(b: Block, blocks: seq<Block>, pool: seq<Event>, threshold: int)
    requires blocks != [] && IsGenesis(blocks[0]) && CandidateOk(b, blocks, pool, threshold)
    ensures b.header.eventHashes == Hashes(b.events)
  {
    hide IsGenesis, Replay, Addable, Hashes;
  }

  lemma StoreKeeps(env: Env, s: System, writeOk: bool)
    requires Inv(env, s)
    ensures Inv(env, NextStore(s, writeOk))
    ensures writeOk && s.maker.Built? ==> NextStore(s, writeOk).maker == Stored(s.maker.b)
  {
    hide HistoryOk, IsGenesis, CandidateOk, Hashes, Shows, LatestSnapshot;
    if s.maker.Built? {
      var b, threshold := s.maker.b, ThresholdOf(env, s);
      var k := (b.header.num, b.Hash());
      CandidateNum(b, s.store.blocks, s.store.pool, threshold);
      if k in s.store.candidates {
        CandidateHashes(b, s.store.blocks, s.store.pool, threshold);
        CandidateHashes(s.store.candidates[k], s.store.blocks, s.store.pool, threshold);
        HashFixesBlock(b, s.store.candidates[k]);
      }
    }
  }

  lemma RegisterKeeps(env: Env, s: System, outcome: Outcome)
    requires Inv(env, s)
    ensures Inv(env, NextRegister(s, outcome))
  {
    hide HistoryOk, IsGenesis, Shows, CandidatesOk;
  }

  lemma StillAddable(e: Event, blocks: seq<Block>, b: Block)
    requires blocks != [] && IsGenesis(blocks[0]) && Addable(e, blocks)
    ensures Addable(e, blocks + [b])
  {
    hide IsGenesis;
    var r :| 0 <= r < |blocks| && e.prevHash == blocks[r].Hash();
    assert (blocks + [b])[r] == blocks[r];
  }

  lemma PoolDistinct(added: seq<Event>, pool: seq<Event>)
    requires Distinct(added + pool)
    ensures Distinct(pool)
  {
    assert forall i :: 0 <= i < |pool| ==> pool[i] == (added + pool)[|added| + i];
  }

  lemma AddedMoves(blocks: seq<Block>, b: Block, pool: seq<Event>)
    requires blocks != [] && |b.events| <= |pool| && b.events == pool[..|b.events|]
    ensures AllEvents(blocks + [b]) + pool[|b.events|..] == AllEvents(blocks) + pool
    ensures AddedEvents(blocks + [b]) + pool[|b.events|..] == AddedEvents(blocks) + pool
  {
    var rest, tail := pool[|b.events|..], blocks[1..];
    assert pool == b.events + rest;
    assert Init(blocks + [b]) == blocks && (blocks + [b])[1..] == tail + [b] && Init(tail + [b]) == tail;
    assert AllEvents(blocks) + b.events + rest == AllEvents(blocks) + (b.events + rest);
    assert AllEvents(tail) + b.events + rest == AllEvents(tail) + (b.events + rest);
  }

  /** Moving a prefix of the pool into a block does not change the order of the history. */
  lemma HistoryMoves(blocks: seq<Block>, b: Block, pool: seq<Event>, threshold: int)
    requires HistoryOk(blocks, pool, threshold) && CandidateOk(b, blocks, pool, threshold)
    ensures HistoryOk(blocks + [b], pool[|b.events|..], threshold)
    ensures AllEvents(blocks + [b]) + pool[|b.events|..] == AllEvents(blocks) + pool
    ensures Distinct(pool) && Takes(pool, b.events) && Minus(pool, b.events) == pool[|b.events|..]
  {
    hide Follows, IsGenesis, Minus, Takes, AddedEvents, AllEvents;
    ChainAppend(blocks, b, threshold);
    AddedMoves(blocks, b, pool);
    PoolDistinct(AddedEvents(blocks), pool);
    MinusPrefix(pool, |b.events|);
    forall e | e in pool[|b.events|..] ensures Addable(e, blocks + [b]) {
      StillAddable(e, blocks, b);
    }
  }

  lemma HistoryChain(blocks: seq<Block>, pool: seq<Event>, threshold: int)
    requires HistoryOk(blocks, pool, threshold)
    ensures Chain(blocks, threshold)
  {
  }

  /** The view after the block: based on the new snapshot or still on the old one, and no wider than allowed. */
  lemma ViewAdvances(cfg: Config, v: View, b: Block, blocks: seq<Block>, pool: seq<Event>, threshold: int)
    requires HistoryOk(blocks, pool, threshold) && CandidateOk(b, blocks, pool, threshold)
    requires Shows(cfg, v, blocks, pool)
    ensures ApplyBlock(v, b, cfg).Ok? && ApplyBlock(v, b, cfg).value.pool == pool[|b.events|..]
    ensures (blocks + [b])[0] == blocks[0]
    ensures Shows(cfg, ApplyBlock(v, b, cfg).value, blocks + [b], pool[|b.events|..])
    ensures LatestSnapshot(blocks + [b]) ==
      if b.header.snapshot.Some? then |blocks| else LatestSnapshot(blocks)
  {
    hide IsGenesis, Minus, Takes, AllEvents, Replay, FoldEvents, Count, Addable, HistoryOk;
    HistoryMoves(blocks, b, pool, threshold);
    HistoryChain(blocks, pool, threshold);
    NextHeaderFields(v, blocks, pool, threshold);
    ApplyKeepsWindow(v, b, cfg, blocks, pool);
    assert Init(blocks + [b]) == blocks && Last(blocks + [b]) == b;
  }

  lemma ShowsWindow(cfg: Config, v: View, blocks: seq<Block>, pool: seq<Event>)
    requires blocks != [] && IsGenesis(blocks[0]) && Shows(cfg, v, blocks, pool)
    ensures v.blocks != [] && v.generation == |blocks|
  {
  }

  /** All candidates are for the next number, so promoting one wipes them all. */
  lemma CandidatesCleared(st: Store, threshold: int)
    requires st.blocks != [] && IsGenesis(st.blocks[0]) && CandidatesOk(st, threshold)
    ensures (map k | k in st.candidates && k.0 > |st.blocks| :: st.candidates[k]) == map[]
  {
    hide IsGenesis;
  }

  /** What a successful commit leaves: the block appended, the rest of the pool, and no candidates. */
  lemma CommitResult(env: Env, s: System)
    requires Inv(env, s) && s.maker.Registered?
    ensures var t, b := NextCommit(env, s, true), s.maker.b;
      && CandidateOk(b, s.store.blocks, s.store.pool, ThresholdOf(env, s))
      && t.store.blocks == s.store.blocks + [b] && t.store.pool == s.store.pool[|b.events|..]
      && t.store.candidates == map[] && t.store.generation == |t.store.blocks|
      && t.store.lastSnapshot == LatestSnapshot(t.store.blocks)
      && t.view == Some(ApplyBlock(Loaded(s).value, b, env.cfg).value)
      && t.registry == s.registry && t.maker == Idle && t.log == s.log + [b.HeaderEvent()]
  {
    hide HistoryOk, IsGenesis, Shows, LatestSnapshot, ApplyBlock, Hashes;
    LoadShows(env, s);
    var v, b, blocks, pool := Loaded(s).value, s.maker.b, s.store.blocks, s.store.pool;
    var threshold := ThresholdOf(env, s);
    assert CandidateOk(b, blocks, pool, threshold);
    ViewAdvances(env.cfg, v, b, blocks, pool, threshold);
    ShowsWindow(env.cfg, v, blocks, pool);
    CandidatesCleared(s.store, threshold);
  }

  lemma RegistryMoves(st: Store, after: Store, r: Registry, b: Block)
    requires st.blocks != [] && RegistryOk(st, r) && after.blocks == st.blocks + [b]
    requires r.num == b.header.num == |st.blocks| && r.hash == b.Hash() && b.Hash() in r.accepted
    ensures RegistryOk(after, r)
  {
    var blocks := st.blocks;
    assert Last(after.blocks) == b;
    assert forall i :: 1 <= i < |after.blocks| ==> after.blocks[i] == if i < |blocks| then blocks[i] else b;
  }

  lemma CommittedInv(env: Env, s: System)
    requires Inv(env, s) && s.maker.Registered?
    ensures Inv(env, NextCommit(env, s, true))
  {
    hide HistoryOk, IsGenesis, Shows, LatestSnapshot, ApplyBlock, NextCommit, CandidateOk, ValidStreamId, RegistryOk;
    CommitResult(env, s);
    LoadShows(env, s);
    var t, b, blocks, pool := NextCommit(env, s, true), s.maker.b, s.store.blocks, s.store.pool;
    var threshold := ThresholdOf(env, s);
    ViewAdvances(env.cfg, Loaded(s).value, b, blocks, pool, threshold);
    HistoryMoves(blocks, b, pool, threshold);
    assert Last(t.store.blocks) == b;
    CandidateNum(b, blocks, pool, threshold);
    RegistryMoves(s.store, t.store, s.registry, b);
  }

  lemma CommitKeeps(env: Env, s: System, writeOk: bool)
    requires Inv(env, s)
    ensures Inv(env, NextCommit(env, s, writeOk))
  {
    hide HistoryOk, IsGenesis, Shows, LatestSnapshot, ApplyBlock, Hashes;
    if s.maker.Registered? {
      if writeOk {
        CommittedInv(env, s);
      } else {
        LoadKeeps(env, s);
        LoadShows(env, s);
        ShowsWindow(env.cfg, Loaded(s).value, s.store.blocks, s.store.pool);
      }
    }
  }

  // ---------- runs ----------

  lemma SubscribeKeeps(env: Env, s: System, id: nat, c: Cookie)
    requires Inv(env, s)
    ensures Inv(env, NextSubscribe(env, s, id, c))
  {
    hide HistoryOk, Shows, MakerOk, CandidatesOk, RegistryOk;
    LoadKeeps(env, s);
  }

  lemma NextKeeps(env: Env, s: System, step: Step)
    requires Inv(env, s) && Admissible(env, s, step)
    ensures Inv(env, Next(env, s, step))
  {
    hide HistoryOk, Shows, CandidatesOk, RegistryOk;
    hide NextAdd, NextPropose, NextBuild, NextStore, NextRegister, NextCommit;
    match step {
      case Load => LoadKeeps(env, s);
      case Add(e, now, writeOk) => AddKeeps(env, s, e, now, writeOk);
      case Propose(force) => ProposeKeeps(env, s, force);
      case Build(now) => BuildKeeps(env, s, now);
      case StoreCandidate(writeOk) => StoreKeeps(env, s, writeOk);
      case Register(outcome) => RegisterKeeps(env, s, outcome);
      case Commit(writeOk) => CommitKeeps(env, s, writeOk);
      case Evict(_) =>
      case Flush =>
      case Restart =>
      case Subscribe(id, c) => SubscribeKeeps(env, s, id, c);
      case Unsubscribe(_) =>
    }
  }

  /** A stream that can be created: a genesis block, in which an event may occur twice, and a valid stream id. */
  ghost predicate Genesis(g: Block) {
    IsGenesis(g) && ValidStreamId(StreamIdOf([g]))
  }

  lemma GenesisHasSnapshot(g: Block)
    requires IsGenesis(g)
    ensures g.header.snapshot.Some?
  {
  }

  lemma CreatedHistory(g: Block, threshold: int)
    requires Genesis(g)
    ensures HistoryOk([g], [], threshold)
  {
    hide IsGenesis, ValidStreamId;
    assert AddedEvents([g]) == [];
  }

  lemma CreatedInv(env: Env, g: Block)
    requires Genesis(g)
    ensures Inv(env, Created(g))
  {
    hide IsGenesis, HistoryOk, ValidStreamId;
    assert Last([g]) == g;
    assert BlocksSince([g]) == 0 by { GenesisHasSnapshot(g); }
    CreatedHistory(g, ThresholdOf(env, Created(g)));
  }

  /** The invariant holds in every state of every run from the creation of the stream. */
  lemma {:induction false} RunKeeps(env: Env, g: Block, steps: seq<Step>)
    requires Genesis(g) && AdmissibleRun(env, Created(g), steps)
    ensures Inv(env, Run(env, Created(g), steps))
  {
    hide Inv, Next, Genesis, Created, Admissible;
    if steps == [] {
      CreatedInv(env, g);
    } else {
      var init := Init(steps);
      assert forall i :: 0 <= i < |init| ==> init[..i] == steps[..i] && init[i] == steps[i];
      RunKeeps(env, g, init);
      assert steps[..|steps| - 1] == init;
      NextKeeps(env, Run(env, Created(g), init), Last(steps));
    }
  }
}
