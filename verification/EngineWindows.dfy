/** Exactly which blocks a node keeps in memory, and exactly which blocks carry a snapshot, over whole runs. */
module EngineWindows {
  import opened ByteStrings
  import opened Messages
  import opened Snapshots
  import opened Chains
  import opened Views
  import opened Engine
  import opened EngineProofs
  import opened EngineTheorems

  // ---------- the blocks in memory ----------

  function Smaller(a: int, b: int): int { if a < b then a else b }

  /** A snapshot block leaves exactly the last `generations` former blocks before it, or all if there are fewer. */
  lemma ApplyTrims(v: View, b: Block, cfg: Config)
    requires v.blocks != [] && ApplyBlock(v, b, cfg).Ok?
    ensures
      var w := ApplyBlock(v, b, cfg).value;
      var kept := if b.header.snapshot.Some? then Smaller(cfg.generations, |v.blocks|) else |v.blocks|;
      && |w.blocks| == kept + 1 && w.blocks == v.blocks[|v.blocks| - kept..] + [b]
      && (b.header.snapshot.Some? ==> w.snapshotIndex == kept)
  {
    hide Takes, Minus;
  }

  /** Everything since block `from`, but at most `generations` blocks before the latest snapshot. */
  ghost predicate Sized(env: Env, s: System, from: int) {
    Loaded(s).Some? &&
    |Loaded(s).value.blocks| ==
      Smaller(|s.store.blocks| - from, env.cfg.generations + 1 + BlocksSince(s.store.blocks))
  }

  lemma SameLoaded(s: System, t: System)
    requires t.store.blocks == s.store.blocks && t.store.pool == s.store.pool
    requires t.store.generation == s.store.generation && t.store.lastSnapshot == s.store.lastSnapshot
    requires t.view == s.view || t.view == Loaded(s)
    ensures Loaded(t) == Loaded(s)
  {
  }

  lemma AddSized(env: Env, s: System, e: Event, now: Timestamp, writeOk: bool, from: int)
    requires Inv(env, s) && Admissible(env, s, Add(e, now, writeOk)) && Sized(env, s, from)
    ensures Sized(env, NextAdd(s, e, writeOk), from)
  {
    hide Inv, Admissible, BlocksSince;
    if writeOk {
      AddedIsPending(env, s, e, now);
    } else {
      hide Loaded;
      SameLoaded(s, NextAdd(s, e, writeOk));
    }
  }

  lemma SinceAfter(blocks: seq<Block>, b: Block)
    ensures BlocksSince(blocks + [b]) == if b.header.snapshot.Some? then 0 else 1 + BlocksSince(blocks)
    ensures EventsSince(blocks + [b]) == if b.header.snapshot.Some? then 0 else EventsSince(blocks) + |b.events|
  {
    assert Init(blocks + [b]) == blocks && Last(blocks + [b]) == b;
  }

  lemma LoadedView(s: System)
    requires s.view.Some?
    ensures Loaded(s) == s.view
  {
  }

  lemma SizeAfter(v: View, b: Block, cfg: Config, blocks: seq<Block>, from: int)
    requires v.blocks != [] && ApplyBlock(v, b, cfg).Ok?
    requires |v.blocks| == Smaller(|blocks| - from, cfg.generations + 1 + BlocksSince(blocks))
    ensures |ApplyBlock(v, b, cfg).value.blocks| ==
      Smaller(|blocks + [b]| - from, cfg.generations + 1 + BlocksSince(blocks + [b]))
  {
    hide ApplyBlock, BlocksSince;
    ApplyTrims(v, b, cfg);
    SinceAfter(blocks, b);
  }

  lemma CommitSized(env: Env, s: System, from: int)
    requires Inv(env, s) && s.maker.Registered? && Sized(env, s, from)
    ensures Sized(env, NextCommit(env, s, true), from)
  {
    hide HistoryOk, IsGenesis, Shows, LatestSnapshot, ApplyBlock, NextCommit, RegistryOk, MakerOk, CandidatesOk;
    hide CandidateOk, BlocksSince, Loaded, Smaller, ValidStreamId, ThresholdOf, StreamIdOf;
    CommitResult(env, s);
    BlockUnderWayApplies(env, s);
    SizeAfter(Loaded(s).value, s.maker.b, env.cfg, s.store.blocks, from);
    LoadedView(NextCommit(env, s, true));
  }

  lemma NextSized(env: Env, s: System, step: Step, from: int)
    requires Inv(env, s) && Admissible(env, s, step) && Sized(env, s, from)
    requires s.view.Some? ==> Next(env, s, step).view.Some?
    ensures Sized(env, Next(env, s, step), from)
  {
    hide Inv, Admissible, Loaded, BlocksSince, ApplyBlock, NextAdd, BuildBlock, Views.Propose;
    var t := Next(env, s, step);
    match step {
      case Add(e, now, writeOk) => AddSized(env, s, e, now, writeOk, from);
      case Commit(writeOk) =>
        if writeOk && s.maker.Registered? {
          CommitSized(env, s, from);
        } else {
          SameLoaded(s, t);
        }
      case _ => SameLoaded(s, t);
    }
  }

  /** No step of the run drops a loaded view. */
  ghost predicate StaysLoaded(env: Env, s: System, steps: seq<Step>) {
    steps == [] ||
    (&& StaysLoaded(env, s, Init(steps))
     && (Run(env, s, Init(steps)).view.Some? ==> Run(env, s, steps).view.Some?))
  }

  lemma LoadedFrom(s: System)
    requires s.view.None? && Loaded(s).Some?
    ensures 0 <= s.store.lastSnapshot < |s.store.blocks|
    ensures Loaded(s).value.blocks == s.store.blocks[s.store.lastSnapshot..]
  {
  }

  lemma LoadSized(env: Env, s: System)
    requires Inv(env, s) && s.view.None?
    ensures Sized(env, s, LatestSnapshot(s.store.blocks))
  {
    hide HistoryOk, IsGenesis, MakerOk, CandidatesOk, RegistryOk, MakeView, Window;
    LoadShows(env, s);
    LoadedFrom(s);
  }

  /**
   * From the moment a view is loaded until it is dropped, whatever else happens: it holds exactly the blocks from the
   * snapshot it was loaded from, or if that is less, the blocks since the latest snapshot and `generations` before it.
   */
  lemma {:induction false} WindowSize(env: Env, s: System, steps: seq<Step>)
    requires Inv(env, s) && s.view.None? && AdmissibleRun(env, s, steps) && StaysLoaded(env, s, steps)
    ensures Inv(env, Run(env, s, steps))
    ensures
      var t := Run(env, s, steps);
      && Loaded(t).Some?
      && |Loaded(t).value.blocks| ==
           Smaller(|t.store.blocks| - LatestSnapshot(s.store.blocks),
                   env.cfg.generations + 1 + BlocksSince(t.store.blocks))
  {
    hide Inv, Next, Admissible, Loaded, LatestSnapshot, BlocksSince;
    if steps == [] {
      LoadSized(env, s);
    } else {
      var init := Init(steps);
      assert forall i :: 0 <= i < |init| ==> init[..i] == steps[..i] && init[i] == steps[i];
      assert steps[..|steps| - 1] == init;
      WindowSize(env, s, init);
      var t := Run(env, s, init);
      NextKeeps(env, t, Last(steps));
      NextSized(env, t, Last(steps), LatestSnapshot(s.store.blocks));
    }
  }

  lemma GenesisSince(g: Block)
    requires Genesis(g)
    ensures LatestSnapshot([g]) == 0
  {
    hide IsGenesis;
    GenesisHasSnapshot(g);
    assert Last([g]) == g;
  }

  /** In particular for a stream since its creation. */
  lemma WindowSizeSinceCreation(env: Env, g: Block, steps: seq<Step>)
    requires Genesis(g) && AdmissibleRun(env, Created(g), steps) && StaysLoaded(env, Created(g), steps)
    ensures
      var t := Run(env, Created(g), steps);
      && Loaded(t).Some?
      && |Loaded(t).value.blocks| ==
           Smaller(|t.store.blocks|, env.cfg.generations + 1 + BlocksSince(t.store.blocks))
  {
    hide Inv, Run, AdmissibleRun, StaysLoaded, Loaded, Genesis;
    CreatedInv(env, g);
    WindowSize(env, Created(g), steps);
    assert LatestSnapshot([g]) == 0 by { GenesisSince(g); }
  }

  // ---------- the blocks with a snapshot ----------

  /** What the threshold counts: the events of all blocks after the latest snapshot. */
  lemma {:induction false} EventsSinceCounts(blocks: seq<Block>)
    ensures EventsSince(blocks) == |AllEvents(blocks[|blocks| - BlocksSince(blocks)..])|
  {
    if blocks == [] || Last(blocks).header.snapshot.Some? {
      assert blocks[|blocks|..] == [];
    } else {
      EventsSinceCounts(Init(blocks));
      var p := |blocks| - BlocksSince(blocks);
      assert Init(blocks[p..]) == Init(blocks)[p..] && Last(blocks[p..]) == Last(blocks);
    }
  }

  /** The configured number of events: by the first byte of the stream id, else the default, else a hundred. */
  predicate IsThreshold(cfg: Config, streamId: Bytes, n: int) {
    var own := streamId != [] && streamId[0] in cfg.minEventsPerSnapshot;
    && (own ==> n == cfg.minEventsPerSnapshot[streamId[0]])
    && (!own && cfg.defaultMinEventsPerSnapshot != 0 ==> n == cfg.defaultMinEventsPerSnapshot)
    && (!own && cfg.defaultMinEventsPerSnapshot == 0 ==> n == 100)
  }

  /**
   * In every state a proposal takes the whole pool, for the current tip; it asks for a snapshot exactly when forced or
   * when the pool and the events since the latest snapshot reach the configured number.
   */
  lemma ProposedExactly(env: Env, s: System, force: bool, n: int)
    requires Inv(env, s) && s.view.Some? && s.maker.Idle? && IsThreshold(env.cfg, StreamIdOf(s.store.blocks), n)
    ensures
      var blocks, pool := s.store.blocks, s.store.pool;
      var since := blocks[|blocks| - BlocksSince(blocks)..];
      NextPropose(env, s, force) ==
        if pool == [] && !force then s
        else s.(maker := Proposed(Proposal(
          Hashes(pool), |blocks|, Last(blocks).Hash(), force || |AllEvents(since)| + |pool| >= n)))
  {
    hide HistoryOk, CandidatesOk, RegistryOk, IsGenesis, EventsSince, BlocksSince, Hashes, AllEvents;
    var v, blocks := s.view.value, s.store.blocks;
    EventsSinceSuffix(blocks, |blocks| - |v.blocks|);
    EventsSinceCounts(blocks);
    assert Last(v.blocks) == Last(blocks);
  }

  /** A block with a snapshot reaches the threshold. */
  ghost predicate Earned(b: Block, blocks: seq<Block>, threshold: int) {
    b.header.snapshot.Some? ==> EventsSince(blocks) + |b.events| >= threshold
  }

  ghost predicate AllEarned(blocks: seq<Block>, threshold: int) {
    forall i :: 0 < i < |blocks| ==> Earned(blocks[i], blocks[..i], threshold)
  }

  ghost predicate EarnedMaker(m: Maker, blocks: seq<Block>, threshold: int) {
    match m
    case Proposed(p) => p.shouldSnapshot ==> EventsSince(blocks) + |p.hashes| >= threshold
    case Built(b) => Earned(b, blocks, threshold)
    case _ => true
  }

  ghost predicate EarnedSystem(env: Env, s: System)
    requires s.store.blocks != [] && IsGenesis(s.store.blocks[0])
  {
    var st, threshold := s.store, ThresholdOf(env, s);
    && AllEarned(st.blocks, threshold)
    && (forall k :: k in st.candidates ==> Earned(st.candidates[k], st.blocks, threshold))
    && EarnedMaker(s.maker, st.blocks, threshold)
  }

  predicate Unforced(step: Step) {
    step.Propose? ==> !step.force
  }

  lemma ProposeEarned(env: Env, s: System)
    requires Inv(env, s) && EarnedSystem(env, s)
    ensures EarnedSystem(env, NextPropose(env, s, false))
  {
    hide HistoryOk, CandidatesOk, RegistryOk, MakerOk, IsGenesis, EventsSince, BlocksSince, AllEarned, Earned;
    if NextPropose(env, s, false) != s {
      var v, blocks := s.view.value, s.store.blocks;
      EventsSinceSuffix(blocks, |blocks| - |v.blocks|);
      assert v.streamId == StreamIdOf(blocks);
    }
  }

  lemma BuildEarned(env: Env, s: System, now: Timestamp)
    requires Inv(env, s) && EarnedSystem(env, s)
    ensures EarnedSystem(env, NextBuild(env, s, now))
  {
    hide HistoryOk, CandidatesOk, RegistryOk, MakerOk, IsGenesis, EventsSince, AllEarned, Shows, FoldTail;
  }

  lemma StoreEarned(env: Env, s: System, writeOk: bool)
    requires Inv(env, s) && EarnedSystem(env, s)
    ensures EarnedSystem(env, NextStore(s, writeOk))
  {
    hide HistoryOk, CandidatesOk, RegistryOk, MakerOk, IsGenesis, EventsSince, AllEarned, Shows, Earned;
  }

  lemma AllEarnedAppend(blocks: seq<Block>, b: Block, threshold: int)
    requires blocks != [] && AllEarned(blocks, threshold) && Earned(b, blocks, threshold)
    ensures AllEarned(blocks + [b], threshold)
  {
    hide Earned;
    var longer := blocks + [b];
    forall i | 0 < i < |longer| ensures Earned(longer[i], longer[..i], threshold) {
      assert i < |blocks| ==> longer[..i] == blocks[..i];
      assert i == |blocks| ==> longer[..i] == blocks;
    }
  }

  lemma CommitEarned(env: Env, s: System)
    requires Inv(env, s) && EarnedSystem(env, s) && s.maker.Registered?
    ensures var t := NextCommit(env, s, true);
      t.store.blocks != [] && t.store.blocks[0] == s.store.blocks[0] && EarnedSystem(env, t)
  {
    hide HistoryOk, CandidatesOk, RegistryOk, IsGenesis, AllEarned, Shows, Earned, NextCommit, CandidateOk;
    hide LatestSnapshot, ApplyBlock, Loaded;
    CommitResult(env, s);
    assert IsCandidate(s.store, s.maker.b);
    AllEarnedAppend(s.store.blocks, s.maker.b, ThresholdOf(env, s));
  }

  lemma NextEarned(env: Env, s: System, step: Step)
    requires Inv(env, s) && EarnedSystem(env, s) && Admissible(env, s, step) && Unforced(step)
    ensures var t := Next(env, s, step);
      t.store.blocks != [] && t.store.blocks[0] == s.store.blocks[0] && EarnedSystem(env, t)
  {
    hide HistoryOk, CandidatesOk, RegistryOk, MakerOk, IsGenesis, AllEarned, Shows, Earned, Admissible, Loaded;
    hide BuildBlock, Views.Propose, ApplyBlock, Validate, EventsSince;
    match step {
      case Propose(_) => ProposeEarned(env, s);
      case Build(now) => BuildEarned(env, s, now);
      case StoreCandidate(writeOk) => StoreEarned(env, s, writeOk);
      case Commit(writeOk) =>
        if writeOk && s.maker.Registered? {
          hide NextCommit;
          CommitEarned(env, s);
        }
      case _ =>
    }
  }

  lemma CreatedEarned(env: Env, g: Block)
    requires Genesis(g)
    ensures EarnedSystem(env, Created(g))
  {
    hide IsGenesis;
  }

  lemma {:induction false} RunEarned(env: Env, g: Block, steps: seq<Step>)
    requires Genesis(g) && AdmissibleRun(env, Created(g), steps) && forall i :: 0 <= i < |steps| ==> Unforced(steps[i])
    ensures var t := Run(env, Created(g), steps);
      && Inv(env, t) && t.store.blocks != [] && t.store.blocks[0] == g && EarnedSystem(env, t)
  {
    hide Inv, Next, Genesis, Admissible, EarnedSystem, Unforced, IsGenesis;
    if steps == [] {
      CreatedInv(env, g);
      CreatedEarned(env, g);
    } else {
      var init := Init(steps);
      assert forall i :: 0 <= i < |init| ==> init[..i] == steps[..i] && init[i] == steps[i];
      RunEarned(env, g, init);
      assert steps[..|steps| - 1] == init;
      var t := Run(env, Created(g), init);
      NextKeeps(env, t, Last(steps));
      NextEarned(env, t, Last(steps));
    }
  }

  /** Counting since the snapshot before block `i`. */
  lemma SinceBefore(blocks: seq<Block>, threshold: int, p: nat, i: nat)
    requires Chain(blocks, threshold) && p < i < |blocks| && blocks[p].header.snapshot.Some?
    requires forall k :: p < k < i ==> blocks[k].header.snapshot.None?
    ensures EventsSince(blocks[..i]) + |blocks[i].events| == |AllEvents(blocks[p + 1..i + 1])|
  {
    hide Chain, EventsSince, BlocksSince;
    var front, part := blocks[..i], blocks[p + 1..i + 1];
    ChainPrefix(blocks, threshold, i);
    LatestSnapshotIsLatest(front, threshold);
    assert forall k :: 0 <= k < i ==> front[k] == blocks[k];
    assert LatestSnapshot(front) == p;
    EventsSinceCounts(front);
    assert Init(part) == front[p + 1..] && Last(part) == blocks[i];
  }

  /**
   * In every run without forced proposals, for every block after genesis: it carries a snapshot if and only if the
   * events since the snapshot before it, its own included, reach the configured number.
   */
  lemma SnapshotsExactly(env: Env, g: Block, steps: seq<Step>, n: int, p: nat, i: nat)
    requires Genesis(g) && AdmissibleRun(env, Created(g), steps) && forall j :: 0 <= j < |steps| ==> Unforced(steps[j])
    requires IsThreshold(env.cfg, StreamIdOf([g]), n)
    requires
      var blocks := Run(env, Created(g), steps).store.blocks;
      && p < i < |blocks| && blocks[p].header.snapshot.Some?
      && forall k :: p < k < i ==> blocks[k].header.snapshot.None?
    ensures
      var blocks := Run(env, Created(g), steps).store.blocks;
      blocks[i].header.snapshot.Some? <==> |AllEvents(blocks[p + 1..i + 1])| >= n
  {
    hide Run, AdmissibleRun, Unforced, IsGenesis, Shows, MakerOk, CandidatesOk, RegistryOk, EventsSince, AllEvents;
    hide Chain, ValidStreamId, EarnedMaker, Distinct, AddedEvents;
    RunEarned(env, g, steps);
    var t := Run(env, Created(g), steps);
    var blocks, threshold := t.store.blocks, ThresholdOf(env, t);
    assert threshold == n;
    SinceBefore(blocks, threshold, p, i);
    assert Earned(blocks[i], blocks[..i], threshold);
    ChainPrefix(blocks, threshold, i);
  }
}
