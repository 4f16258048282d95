/** What holds in every state of every run of the engine, and the exact limits of it. */
module EngineTheorems {
  import opened Wrappers
  import opened ByteStrings
  import opened Messages
  import opened Snapshots
  import opened Chains
  import opened Views
  import opened ViewProcedures
  import opened ViewTheorems
  import opened Queries
  import opened Engine
  import opened EngineProofs

  /** A state some run from the creation of a stream can be in. */
  ghost predicate Reachable(env: Env, s: System) {
    exists g, steps :: Genesis(g) && AdmissibleRun(env, Created(g), steps) && s == Run(env, Created(g), steps)
  }

  lemma ReachableInv(env: Env, s: System)
    requires Reachable(env, s)
    ensures Inv(env, s)
  {
    hide Inv, Genesis, AdmissibleRun;
    var g, steps :| Genesis(g) && AdmissibleRun(env, Created(g), steps) && s == Run(env, Created(g), steps);
    RunKeeps(env, g, steps);
  }

  // ---------- exactly once ----------

  /** No event the engine added is a genesis event: those refer to no block. */
  lemma AddedAfterGenesis(env: Env, s: System, e: Event)
    requires Inv(env, s) && e in AddedEvents(s.store.blocks) + s.store.pool
    ensures e !in s.store.blocks[0].events
  {
    hide Shows, MakerOk, CandidatesOk, RegistryOk, Chain, AllEvents;
    var blocks := s.store.blocks;
    assert forall g :: g in blocks[0].events ==> g.prevHash == NoHash;
    if e in s.store.pool {
      assert Addable(e, blocks);
    } else {
      EventInBlock(blocks[1..], e);
      var i :| 0 <= i < |blocks[1..]| && e in blocks[1..][i].events;
      assert blocks[1..][i] == blocks[i + 1];
      ChainPrefix(blocks, ThresholdOf(env, s), i + 1);
      assert RefersTo(e, blocks[..i + 1]);
    }
  }

  lemma DistinctParts(a: seq<Event>, b: seq<Event>)
    requires Distinct(b) && forall e :: e in b ==> e !in a
    ensures Distinct(a + b) <==> Distinct(a)
  {
    assert forall i :: 0 <= i < |a| ==> (a + b)[i] == a[i];
    assert forall i :: 0 <= i < |b| ==> b[i] in b && (a + b)[|a| + i] == b[i];
    if Distinct(a) {
      forall i, j | 0 <= i < j < |a + b| ensures (a + b)[i] != (a + b)[j] {
        assert i < |a| <= j ==> a[i] in a && b[j - |a|] in b;
      }
    }
  }

  lemma {:induction false} FirstBlockStays(env: Env, s: System, steps: seq<Step>)
    requires s.store.blocks != []
    ensures Run(env, s, steps).store.blocks != [] && Run(env, s, steps).store.blocks[0] == s.store.blocks[0]
  {
    hide Loaded, ApplyBlock, BuildBlock, Views.Propose, Views.AddEvent;
    if steps != [] {
      FirstBlockStays(env, s, Init(steps));
    }
  }

  /**
   * Exactly once, in every state of every admissible run from every genesis: what was added since occurs once, in all
   * blocks ever made and the pool together, and not in genesis; so the whole history is free of duplicates if and only
   * if the genesis block is.
   */
  lemma ExactlyOnce(env: Env, g: Block, steps: seq<Step>)
    requires Genesis(g) && AdmissibleRun(env, Created(g), steps)
    ensures
      var st := Run(env, Created(g), steps).store;
      && Distinct(AddedEvents(st.blocks) + st.pool)
      && (forall e :: e in AddedEvents(st.blocks) + st.pool ==> e !in g.events)
      && (Distinct(AllEvents(st.blocks) + st.pool) <==> Distinct(g.events))
  {
    hide Run, AdmissibleRun, Shows, MakerOk, CandidatesOk, RegistryOk, Chain, AllEvents, AddedEvents, IsGenesis;
    RunKeeps(env, g, steps);
    FirstBlockStays(env, Created(g), steps);
    var s := Run(env, Created(g), steps);
    var blocks, added := s.store.blocks, AddedEvents(s.store.blocks) + s.store.pool;
    forall e | e in added ensures e !in g.events {
      AddedAfterGenesis(env, s, e);
    }
    SplitGenesis(blocks);
    DistinctParts(g.events, added);
    assert AllEvents(blocks) + s.store.pool == g.events + added;
  }

  /**
   * Storage and view agree after an unvalidated add exactly when the event is neither a header nor already pending:
   * the storage write happens before either is noticed.
   */
  lemma AddDiverges(env: Env, s: System, e: Event)
    requires Inv(env, s)
    ensures var t := NextAdd(s, e, true);
      t.view.Some? && (t.store.pool == t.view.value.pool <==> !e.IsHeader() && e !in s.store.pool)
  {
    hide HistoryOk, MakerOk, CandidatesOk, RegistryOk, IsGenesis;
    LoadShows(env, s);
    assert s.store.pool + [e] != s.store.pool;
  }

  /** The steps that turn the pool into a block and commit it. */
  function MakeBlock(now: Timestamp): seq<Step> {
    [Propose(false), Build(now), StoreCandidate(true), Register(Accepted), Commit(true)]
  }

  lemma RunOne(env: Env, s: System, step: Step)
    ensures Run(env, s, [step]) == Next(env, s, step)
  {
    assert Init([step]) == [];
  }

  lemma {:induction false} RunConcat(env: Env, s: System, a: seq<Step>, b: seq<Step>)
    ensures Run(env, s, a + b) == Run(env, Run(env, s, a), b)
  {
    hide Next;
    if b == [] {
      assert a + b == a;
    } else {
      assert Init(a + b) == a + Init(b) && Last(a + b) == Last(b);
      RunConcat(env, s, a, Init(b));
    }
  }

  lemma BuiltTimestamp(env: Env, s: System, now: Timestamp)
    requires Inv(env, s) && s.maker.Proposed? && s.view.Some? && NextBuild(env, s, now).maker.Built?
    ensures NextBuild(env, s, now).maker.b.header.timestamp ==
      NextTimestamp(Last(s.store.blocks).header.timestamp, now)
  {
    hide HistoryOk, CandidatesOk, RegistryOk, IsGenesis, Hashes, Collect, MakerOk, FoldEvents, FoldTail, LatestSnapshot;
    assert Last(s.view.value.blocks) == Last(s.store.blocks);
  }

  lemma MakeBlockTail(env: Env, s: System, now: Timestamp)
    requires Inv(env, s) && s.maker.Built? && s.maker.b.events == s.store.pool
    ensures var t := Run(env, s, MakeBlock(now)[2..]);
      && Inv(env, t) && t.view.Some? && t.store.blocks == s.store.blocks + [s.maker.b]
      && AllEvents(t.store.blocks) == AllEvents(s.store.blocks) + s.store.pool && t.store.pool == []
  {
    hide HistoryOk, CandidatesOk, RegistryOk, IsGenesis, Hashes, CandidateOk, NextCommit, Shows, LatestSnapshot, Run;
    var s3 := NextStore(s, true);
    StoreKeeps(env, s, true);
    var s4 := NextRegister(s3, Accepted);
    RegisterKeeps(env, s3, Accepted);
    CommitResult(env, s4);
    CommitKeeps(env, s4, true);
    var steps := MakeBlock(now)[2..];
    assert steps == [StoreCandidate(true)] + [Register(Accepted)] + [Commit(true)];
    RunOne(env, s, StoreCandidate(true));
    RunOne(env, s3, Register(Accepted));
    RunOne(env, s4, Commit(true));
    RunConcat(env, s, [StoreCandidate(true)], [Register(Accepted)]);
    RunConcat(env, s, [StoreCandidate(true)] + [Register(Accepted)], [Commit(true)]);
    assert Init(s.store.blocks + [s.maker.b]) == s.store.blocks;
    assert s.store.pool[|s.store.pool|..] == [];
  }

  /** Making a block without failures moves the whole pool into one new block, later than the tip for any clock. */
  lemma MakeBlockCommits(env: Env, s: System, now: Timestamp)
    requires Inv(env, s) && s.view.Some? && s.maker.Idle? && s.store.pool != []
    ensures var t := Run(env, s, MakeBlock(now));
      && Inv(env, t) && t.view.Some?
      && |t.store.blocks| == |s.store.blocks| + 1 && Last(t.store.blocks).events == s.store.pool
      && Last(t.store.blocks).header.timestamp == NextTimestamp(Last(s.store.blocks).header.timestamp, now)
      && AllEvents(t.store.blocks) == AllEvents(s.store.blocks) + s.store.pool && t.store.pool == []
  {
    hide HistoryOk, CandidatesOk, RegistryOk, IsGenesis, Hashes, Follows, NextHeader, Collect;
    var s1 := NextPropose(env, s, false);
    assert s1.maker.Proposed? && s1.maker.p.hashes == Hashes(s.store.pool);
    ProposeKeeps(env, s, false);
    var s2 := NextBuild(env, s1, now);
    BuildKeeps(env, s1, now);
    CollectPrefix(s.store.pool, |s.store.pool|);
    assert s.store.pool[..|s.store.pool|] == s.store.pool;
    assert s2.maker.Built? && s2.maker.b.events == s.store.pool;
    BuiltTimestamp(env, s1, now);
    MakeBlockTail(env, s2, now);
    var steps := MakeBlock(now);
    assert steps == [Propose(false)] + [Build(now)] + steps[2..];
    RunOne(env, s, Propose(false));
    RunOne(env, s1, Build(now));
    RunConcat(env, s, [Propose(false)], [Build(now)]);
    RunConcat(env, s, [Propose(false)] + [Build(now)], steps[2..]);
  }

  lemma AddedIsPending(env: Env, s: System, e: Event, now: Timestamp)
    requires Inv(env, s) && Admissible(env, s, Add(e, now, true))
    ensures var t := NextAdd(s, e, true);
      && t.store == s.store.(pool := s.store.pool + [e]) && t.view.Some? && t.maker == s.maker
      && t.log == s.log + [e] && t.registry == s.registry && t.receivers == s.receivers
      && t.view.value == Loaded(s).value.(pool := s.store.pool + [e])
  {
    hide MakerOk, CandidatesOk, RegistryOk, IsGenesis, Validate, HistoryOk;
    LoadShows(env, s);
    HistoryGrows(Loaded(s).value, env.cfg, e, now, s.store.blocks, s.store.pool, ThresholdOf(env, s));
  }

  /**
   * Validating on an earlier view is not enough: an event validated twice before it is added, then added, put in a
   * block, and added again, is in the history twice.
   */
  lemma StaleValidationDuplicates(env: Env, s: System, e: Event, now: Timestamp)
    requires Inv(env, s) && s.view.Some? && s.maker.Idle?
    requires Admissible(env, s, Add(e, now, true))
    ensures var t := Run(env, s, [Add(e, now, true)] + MakeBlock(now) + [Add(e, now, true)]);
      e in AllEvents(t.store.blocks) && e in t.store.pool
  {
    hide HistoryOk, CandidatesOk, RegistryOk, MakerOk, IsGenesis, Validate, AllEvents, MakeBlock, LatestSnapshot;
    var add := Add(e, now, true);
    var s1 := NextAdd(s, e, true);
    AddKeeps(env, s, e, now, true);
    LoadShows(env, s);
    AddedIsPending(env, s, e, now);
    MakeBlockCommits(env, s1, now);
    var s2 := Run(env, s1, MakeBlock(now));
    LoadShows(env, s2);
    AddDiverges(env, s2, e);
    RunOne(env, s, add);
    RunOne(env, s2, add);
    RunConcat(env, s, [add], MakeBlock(now));
    RunConcat(env, s, [add] + MakeBlock(now), [add]);
  }

  // ---------- snapshots ----------

  /**
   * Every snapshot ever placed in a header is the fold over every event since genesis, each with the number of its
   * block and its global number.
   */
  lemma SnapshotsAreReplays(env: Env, s: System, i: nat)
    requires Reachable(env, s) && i < |s.store.blocks| && s.store.blocks[i].header.snapshot.Some?
    ensures s.store.blocks[..i + 1] != [] && IsGenesis(s.store.blocks[..i + 1][0])
    ensures s.store.blocks[i].header.snapshot.value == Replay(s.store.blocks[..i + 1])
  {
    hide Reachable, Replay, IsGenesis;
    ReachableInv(env, s);
    SnapshotAt(s.store.blocks, ThresholdOf(env, s), i);
  }

  /** Building a header never panics: the snapshot's lists are in order and every event fits the stream. */
  lemma ViewsAreUsable(env: Env, s: System)
    requires Inv(env, s) && s.view.Some?
    ensures Usable(s.view.value)
  {
    hide MakerOk, CandidatesOk, RegistryOk, IsGenesis, Replay, FoldEvents, WellFormed, AddedEvents, Distinct;
    var v, blocks, threshold := s.view.value, s.store.blocks, ThresholdOf(env, s);
    ViewKind(v, blocks, s.store.pool, threshold);
    forall i, e | v.snapshotIndex < i < |v.blocks| && e in v.blocks[i].events
      ensures !Panics(e, v.snapshot.content.Kind())
    {
      var j := |blocks| - |v.blocks| + i;
      assert v.blocks[i] == blocks[j];
      ChainPrefix(blocks, threshold, j);
    }
  }

  // ---------- bounded window ----------

  /** Fewer events than the threshold since the latest snapshot, and at most `generations + threshold` blocks kept. */
  lemma BoundedWindow(env: Env, s: System)
    requires Reachable(env, s)
    ensures s.store.blocks != [] && IsGenesis(s.store.blocks[0])
    ensures var threshold := ThresholdOf(env, s);
      threshold >= 1 ==>
        && EventsSince(s.store.blocks) < threshold
        && (s.view.Some? ==> |s.view.value.blocks| <= env.cfg.generations + threshold)
  {
    hide Reachable, IsGenesis;
    ReachableInv(env, s);
    if ThresholdOf(env, s) >= 1 {
      SinceIsBounded(s.store.blocks, ThresholdOf(env, s));
    }
  }

  // ---------- registry ----------

  /**
   * The on-chain head is the local tip, or a stored candidate whose parent is the local tip; and every applied block
   * was accepted on chain. This holds through every failure between proposing, registering and committing.
   */
  lemma RegistryAgreement(env: Env, s: System)
    requires Reachable(env, s)
    ensures var st, r := s.store, s.registry;
      && st.blocks != []
      && ((r.num, r.hash) == (|st.blocks| - 1, Last(st.blocks).Hash()) ||
          ((r.num, r.hash) in st.candidates && r.num == |st.blocks| &&
           st.candidates[(r.num, r.hash)].Hash() == r.hash &&
           st.candidates[(r.num, r.hash)].header.prevHash == Last(st.blocks).Hash()))
      && forall i :: 1 <= i < |st.blocks| ==> st.blocks[i].Hash() in r.accepted
  {
    hide Reachable, IsGenesis, HistoryOk, Shows, Hashes, Replay, FoldEvents;
    ReachableInv(env, s);
  }

  // ---------- interleaving ----------

  /**
   * A block under way always still applies: whatever was added since it was proposed stays in the pool, in order.
   */
  lemma BlockUnderWayApplies(env: Env, s: System)
    requires Inv(env, s) && (s.maker.Built? || s.maker.Stored? || s.maker.Registered?)
    ensures var b, v := s.maker.b, Loaded(s);
      && v.Some? && v.value.blocks != [] && |b.events| <= |s.store.pool|
      && ApplyBlock(v.value, b, env.cfg).Ok?
      && b.events + ApplyBlock(v.value, b, env.cfg).value.pool == s.store.pool
  {
    hide HistoryOk, IsGenesis, Shows, Hashes, ApplyBlock, LatestSnapshot;
    LoadShows(env, s);
    ShowsWindow(env.cfg, Loaded(s).value, s.store.blocks, s.store.pool);
    ViewAdvances(env.cfg, Loaded(s).value, s.maker.b, s.store.blocks, s.store.pool, ThresholdOf(env, s));
  }

  // ---------- evict and reload ----------

  /** Two windows of one chain agree on the tip, the cookie, the total and every snapshot-independent answer. */
  lemma WindowsAgree(
    v: View, w: View, blocks: seq<Block>, pool: seq<Event>, threshold: int, node: Bytes, q: Query)
    requires Chain(blocks, threshold) && Window(v, blocks, pool) && Window(w, blocks, pool)
    requires v.streamId == w.streamId && AllAcceptable(q, blocks, pool)
    ensures Last(v.blocks) == Last(w.blocks)
    ensures SyncCookie(v, node) == SyncCookie(w, node)
    ensures GetStats(v).totalEver == GetStats(w).totalEver
    ensures Ask(q, v) == Ask(q, w)
  {
    hide Chain, Ask, GetStats, AllAcceptable, FullAnswer;
    assert Last(v.blocks) == Last(blocks) && Last(w.blocks) == Last(blocks);
    TotalEverIsTrueTotal(v, blocks, pool, threshold);
    TotalEverIsTrueTotal(w, blocks, pool, threshold);
    SnapshotIndependence(q, v, blocks, pool, threshold);
    SnapshotIndependence(q, w, blocks, pool, threshold);
  }

  /** Unloading in any reachable state and rebuilding from storage is invisible. */
  lemma ReloadIsTransparent(env: Env, s: System, node: Bytes, q: Query)
    requires Inv(env, s) && s.view.Some? && AllAcceptable(q, s.store.blocks, s.store.pool)
    ensures s.store.pool == s.view.value.pool && Last(s.view.value.blocks) == Last(s.store.blocks)
    ensures var r := Loaded(s.(view := None));
      && r.Some? && r.value.blocks != [] && 0 <= r.value.snapshotIndex < |r.value.blocks|
      && Last(r.value.blocks) == Last(s.view.value.blocks)
      && SyncCookie(r.value, node) == SyncCookie(s.view.value, node)
      && GetStats(r.value).totalEver == GetStats(s.view.value).totalEver
      && Ask(q, r.value) == Ask(q, s.view.value)
  {
    hide MakerOk, CandidatesOk, RegistryOk, IsGenesis, Ask, GetStats, AllAcceptable, Chain;
    var u := s.(view := None);
    assert Inv(env, u);
    LoadShows(env, u);
    WindowsAgree(
      Loaded(u).value, s.view.value, s.store.blocks, s.store.pool, ThresholdOf(env, s), node, q);
  }

  /** So is rebuilding from any stored suffix that holds a snapshot. */
  lemma AnySuffixIsTransparent(env: Env, s: System, k: nat, i: nat, node: Bytes, q: Query)
    requires Inv(env, s) && s.view.Some? && AllAcceptable(q, s.store.blocks, s.store.pool)
    requires k <= i < |s.store.blocks| && s.store.blocks[i].header.snapshot.Some?
    requires forall j :: k <= j < i ==> s.store.blocks[j].header.snapshot.None?
    ensures var r := MakeView(s.store.blocks[k..], s.store.pool);
      && r.Ok? && r.value.blocks != [] && 0 <= r.value.snapshotIndex < |r.value.blocks|
      && SyncCookie(r.value, node) == SyncCookie(s.view.value, node)
      && GetStats(r.value).totalEver == GetStats(s.view.value).totalEver
      && Ask(q, r.value) == Ask(q, s.view.value)
  {
    hide MakerOk, CandidatesOk, RegistryOk, IsGenesis, Ask, GetStats, AllAcceptable, Chain, MakeView;
    SuffixRebuilds(s.store.blocks, k, i, s.store.pool, ThresholdOf(env, s));
    WindowsAgree(
      MakeView(s.store.blocks[k..], s.store.pool).value, s.view.value, s.store.blocks, s.store.pool,
      ThresholdOf(env, s), node, q);
  }
}
