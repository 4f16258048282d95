/** Where the engine's guarantees end: the exact conditions for stale adds, late registrations and reloads. */
module EngineLimits {
  import opened Wrappers
  import opened Messages
  import opened Snapshots
  import opened Chains
  import opened Views
  import opened ViewTheorems
  import opened Storage
  import opened Engine
  import opened EngineProofs
  import opened EngineTheorems
  import opened Sync

  // ---------- adding on a stale validation ----------

  lemma {:induction false} DeliveredHas(blocks: seq<Block>, e: Event)
    requires !e.IsHeader()
    ensures e in Delivered(blocks) <==> e in AllEvents(blocks)
  {
    if blocks != [] {
      DeliveredHas(Init(blocks), e);
    }
  }

  /** An event new to the history of the earlier state is in the later one exactly when it was sent in between. */
  lemma SentInBetween(s: System, t: System, e: Event)
    requires Later(s, t) && !e.IsHeader() && e !in AllEvents(s.store.blocks) + s.store.pool
    ensures e in AllEvents(t.store.blocks) + t.store.pool <==> e in t.log[|s.log|..]
  {
    hide AllEvents, Delivered;
    var before, sent := s.store.blocks, t.log[|s.log|..];
    var made := t.store.blocks[|before|..];
    assert t.store.blocks == before + made;
    AllEventsConcat(before, made);
    DeliveredHas(made, e);
    assert multiset(s.store.pool)[e] == 0;
    assert (multiset(s.store.pool) + multiset(sent))[e] == (multiset(Delivered(made)) + multiset(t.store.pool))[e];
    assert e in sent <==> multiset(sent)[e] > 0;
    assert e in Delivered(made) <==> multiset(Delivered(made))[e] > 0;
    assert e in t.store.pool <==> multiset(t.store.pool)[e] > 0;
  }

  lemma DistinctExtends(es: seq<Event>, e: Event)
    requires Distinct(es)
    ensures Distinct(es + [e]) <==> e !in es
  {
    if e in es {
      var i :| 0 <= i < |es| && es[i] == e;
      assert (es + [e])[i] == (es + [e])[|es|];
    }
  }

  lemma AddStored(env: Env, t: System, e: Event)
    requires Inv(env, t)
    ensures NextAdd(t, e, true).store == t.store.(pool := t.store.pool + [e])
  {
    hide HistoryOk, MakerOk, CandidatesOk, RegistryOk, IsGenesis;
    LoadShows(env, t);
  }

  lemma ShowsIsWindow(cfg: Config, v: View, blocks: seq<Block>, pool: seq<Event>)
    requires blocks != [] && IsGenesis(blocks[0]) && Shows(cfg, v, blocks, pool)
    ensures Window(v, blocks, pool) && Base(v, blocks) == LatestSnapshot(blocks) && v.streamId == StreamIdOf(blocks)
  {
    hide IsGenesis;
  }

  lemma LaterExtends(s: System, t: System)
    requires Later(s, t)
    ensures |s.log| <= |t.log| && |s.store.blocks| <= |t.store.blocks|
    ensures t.store.blocks[..|s.store.blocks|] == s.store.blocks
  {
  }

  /** Storage after adding in a later state: the new event beside everything added since genesis. */
  lemma AddedAgain(env: Env, t: System, e: Event)
    requires Inv(env, t) && e !in t.store.blocks[0].events
    ensures
      var u := NextAdd(t, e, true).store;
      && u.blocks != [] && u.blocks[0] == t.store.blocks[0]
      && (Distinct(AddedEvents(u.blocks) + u.pool) <==> e !in AllEvents(t.store.blocks) + t.store.pool)
      && (Distinct(AllEvents(u.blocks) + u.pool) <==>
          Distinct(u.blocks[0].events) && Distinct(AddedEvents(u.blocks) + u.pool))
  {
    hide Shows, MakerOk, CandidatesOk, RegistryOk, IsGenesis, AllEvents, AddedEvents, Chain, NextAdd, Distinct;
    AddStored(env, t, e);
    var g, added, pool := t.store.blocks[0].events, AddedEvents(t.store.blocks), t.store.pool;
    SplitGenesis(t.store.blocks);
    assert added + (pool + [e]) == added + pool + [e];
    DistinctExtends(added + pool, e);
    assert AllEvents(t.store.blocks) + (pool + [e]) == g + (added + pool + [e]);
    if Distinct(added + pool + [e]) {
      forall x | x in added + pool + [e] ensures x !in g {
        if x != e {
          AddedAfterGenesis(env, t, x);
        }
      }
      DistinctParts(g, added + pool + [e]);
    } else if Distinct(g + (added + pool + [e])) {
      PoolDistinct(g, added + pool + [e]);
    }
  }

  /**
   * An event validated in one state and added in a later one repeats nothing added since genesis exactly when it was
   * not itself sent in between; with a genesis block free of repeats, nothing in the whole history.
   */
  lemma StaleAddExactly(env: Env, s: System, steps: seq<Step>, e: Event, now: Timestamp)
    requires Inv(env, s) && Admissible(env, s, Add(e, now, true)) && AdmissibleRun(env, s, steps)
    ensures
      var t := Run(env, s, steps);
      var u := NextAdd(t, e, true).store;
      && |s.log| <= |t.log| && u.blocks != []
      && (Distinct(AddedEvents(u.blocks) + u.pool) <==> e !in t.log[|s.log|..])
      && (Distinct(AllEvents(u.blocks) + u.pool) <==> Distinct(u.blocks[0].events) && e !in t.log[|s.log|..])
  {
    hide Shows, MakerOk, CandidatesOk, RegistryOk, IsGenesis, AllEvents, Later, NextAdd, Run, AdmissibleRun, Validate;
    hide AddedEvents, Distinct, Chain;
    LoadShows(env, s);
    ShowsIsWindow(env.cfg, Loaded(s).value, s.store.blocks, s.store.pool);
    ValidatedIsNew(Loaded(s).value, env.cfg, e, now, s.store.blocks, s.store.pool, ThresholdOf(env, s));
    SplitGenesis(s.store.blocks);
    RunIsLater(env, s, steps);
    FirstBlockStays(env, s, steps);
    var t := Run(env, s, steps);
    LaterExtends(s, t);
    SentInBetween(s, t, e);
    AddedAgain(env, t, e);
  }

  // ---------- a write that lands but is reported as failed ----------

  /** The row is written, the call returns an error, and the cached view stays as it is. */
  function AddUnreported(s: System, e: Event): System {
    match Loaded(s)
    case None => s
    case Some(v) =>
      match WriteEvent(s.store, v.generation, |v.pool|, e)
      case Err(_) => s.(view := Some(v))
      case Ok(st) => s.(view := Some(v), store := st)
  }

  /**
   * Stored and cached pool then differ by exactly that event, and every later add is refused. A reload heals it: the
   * invariant holds again, with the event pending once.
   */
  lemma UnreportedAdd(env: Env, s: System, e: Event, now: Timestamp)
    requires Inv(env, s) && Admissible(env, s, Add(e, now, true))
    ensures
      var t := AddUnreported(s, e);
      && t.view.Some? && t.store == s.store.(pool := s.store.pool + [e]) && t.view.value.pool == s.store.pool
      && (forall x :: NextAdd(t, x, true) == t)
      && Inv(env, t.(view := None)) && t.(view := None).store == NextAdd(s, e, true).store
  {
    hide HistoryOk, MakerOk, CandidatesOk, RegistryOk, IsGenesis, Validate, LatestSnapshot;
    LoadShows(env, s);
    AddedIsPending(env, s, e, now);
    AddKeeps(env, s, e, now, true);
    var t, u := AddUnreported(s, e), NextAdd(s, e, true);
    assert t.(view := None) == u.(view := None, log := s.log);
    assert |t.store.pool| == |t.view.value.pool| + 1;
  }

  /** A commit heals it too, by forgetting the event: it leaves exactly what it leaves without the unreported write. */
  lemma UnreportedAddForgotten(env: Env, s: System, e: Event)
    requires Inv(env, s) && s.maker.Registered?
    ensures NextCommit(env, AddUnreported(s, e), true) == NextCommit(env, s.(view := Loaded(s)), true)
    ensures Inv(env, NextCommit(env, AddUnreported(s, e), true))
  {
    hide HistoryOk, MakerOk, CandidatesOk, RegistryOk, IsGenesis, LatestSnapshot, ApplyBlock, CandidateOk;
    LoadShows(env, s);
    LoadKeeps(env, s);
    CommitKeeps(env, s.(view := Loaded(s)), true);
    CommitResult(env, s.(view := Loaded(s)));
    assert |NextCommit(env, s.(view := Loaded(s)), true).store.blocks| == |s.store.blocks| + 1;
  }

  /** The promotion is written, the call returns an error, and the cached view stays at the old tip. */
  function CommitUnreported(env: Env, s: System): System {
    NextCommit(env, s, true).(view := Loaded(s), log := s.log)
  }

  /**
   * Then every add is refused, and so is storing any candidate built for the old tip, until a reload heals it: the
   * block is committed, once. The registry agrees throughout.
   */
  lemma UnreportedCommit(env: Env, s: System)
    requires Inv(env, s) && s.maker.Registered?
    ensures
      var t := CommitUnreported(env, s);
      && t.store.blocks == s.store.blocks + [s.maker.b] && t.store.blocks != []
      && (forall x :: NextAdd(t, x, true) == t)
      && (forall b: Block :: b.header.num == |s.store.blocks| ==> WriteCandidate(t.store, b).Err?)
      && RegistryOk(t.store, t.registry) && Inv(env, t.(view := None))
  {
    hide HistoryOk, MakerOk, CandidatesOk, RegistryOk, IsGenesis, LatestSnapshot, ApplyBlock, NextCommit, CandidateOk;
    LoadShows(env, s);
    CommitResult(env, s);
    CommitKeeps(env, s, true);
    var t, u := CommitUnreported(env, s), NextCommit(env, s, true);
    assert t.(view := None) == u.(view := None, log := s.log);
    assert t.view.value.generation == |s.store.blocks|;
  }

  // ---------- a registration that lands late ----------

  /** What the contract holds after this block's registration lands. */
  function Registers(r: Registry, b: Block): Registry {
    Registry(b.header.num, b.Hash(), r.accepted + {b.Hash()})
  }

  lemma {:induction false} RegistrationAgrees(env: Env, t: System, b: Block)
    requires Inv(env, t) && b.header.eventHashes == Hashes(b.events)
    ensures RegistryOk(t.store, Registers(t.registry, b)) <==> IsCandidate(t.store, b) || b == Last(t.store.blocks)
  {
    hide Shows, MakerOk, IsGenesis, Hashes, Chain, CandidateOk;
    var blocks, key, threshold := t.store.blocks, (b.header.num, b.Hash()), ThresholdOf(env, t);
    NumberAt(blocks, threshold, |blocks| - 1);
    BlockFacts(blocks, threshold, |blocks| - 1);
    if key in t.store.candidates {
      CandidateHashes(t.store.candidates[key], blocks, t.store.pool, threshold);
      HashFixesBlock(t.store.candidates[key], b);
    }
    if b.Hash() == Last(blocks).Hash() {
      HashFixesBlock(Last(blocks), b);
    }
  }

  /** A candidate stays stored while no block is committed. */
  lemma StepKeepsCandidate(env: Env, s: System, step: Step, b: Block)
    requires Inv(env, s) && Admissible(env, s, step) && IsCandidate(s.store, b)
    ensures |Next(env, s, step).store.blocks| == |s.store.blocks| ==> IsCandidate(Next(env, s, step).store, b)
  {
    hide Inv, Admissible, Validate, ApplyBlock, BuildBlock, Views.Propose, Loaded, Views.AddEvent;
  }

  lemma {:induction false} RunKeepsCandidate(env: Env, s: System, steps: seq<Step>, b: Block)
    requires Inv(env, s) && AdmissibleRun(env, s, steps) && IsCandidate(s.store, b)
    ensures |Run(env, s, steps).store.blocks| == |s.store.blocks| ==> IsCandidate(Run(env, s, steps).store, b)
  {
    hide Inv, Next, IsCandidate, Admissible, Later;
    if steps != [] {
      var init := Init(steps);
      assert forall i :: 0 <= i < |init| ==> init[..i] == steps[..i] && init[i] == steps[i];
      assert steps[..|steps| - 1] == init;
      RunKeepsCandidate(env, s, init, b);
      RunIsLater(env, s, init);
      LaterExtends(s, Run(env, s, init));
      NextIsLater(env, Run(env, s, init), Last(steps));
      LaterExtends(Run(env, s, init), Run(env, s, steps));
      if |Run(env, s, init).store.blocks| == |s.store.blocks| {
        StepKeepsCandidate(env, Run(env, s, init), Last(steps), b);
      }
    }
  }

  lemma CandidateFacts(env: Env, s: System, b: Block)
    requires Inv(env, s) && IsCandidate(s.store, b)
    ensures b.header.num == |s.store.blocks| && b.header.eventHashes == Hashes(b.events)
  {
    hide Shows, MakerOk, IsGenesis, HistoryOk, Hashes, RegistryOk, Replay, Addable;
  }

  lemma TipNumber(env: Env, t: System)
    requires Inv(env, t)
    ensures Last(t.store.blocks).header.num == |t.store.blocks| - 1
  {
    hide Shows, MakerOk, IsGenesis, CandidatesOk, RegistryOk, Chain;
    NumberAt(t.store.blocks, ThresholdOf(env, t), |t.store.blocks| - 1);
  }

  /**
   * A candidate stored in some state is registered in any later one, by whoever sends it: agreement holds afterwards
   * exactly when no block was committed since, or just that one.
   */
  lemma LateRegistrationExactly(env: Env, s: System, steps: seq<Step>, b: Block)
    requires Inv(env, s) && AdmissibleRun(env, s, steps) && IsCandidate(s.store, b)
    ensures
      var t, n := Run(env, s, steps), |s.store.blocks|;
      t.store.blocks != [] &&
      (RegistryOk(t.store, Registers(t.registry, b)) <==>
       |t.store.blocks| == n || (|t.store.blocks| == n + 1 && Last(t.store.blocks) == b))
  {
    hide Shows, MakerOk, IsGenesis, HistoryOk, Hashes, Run, AdmissibleRun, RegistryOk, Later;
    var t, n := Run(env, s, steps), |s.store.blocks|;
    CandidateFacts(env, s, b);
    RunKeepsCandidate(env, s, steps, b);
    RunIsLater(env, s, steps);
    LaterExtends(s, t);
    RegistrationAgrees(env, t, b);
    if IsCandidate(t.store, b) {
      CandidateFacts(env, t, b);
    }
    TipNumber(env, t);
  }

  /** The contract's own successor check, which is commented out. */
  predicate SuccessorOnChain(r: Registry, b: Block) {
    r.num + 1 == b.header.num && r.hash == b.header.prevHash
  }

  lemma StoredIsCandidate(env: Env, s: System)
    requires Inv(env, s) && s.maker.Stored?
    ensures s.store.blocks != [] && IsCandidate(s.store, s.maker.b)
  {
    hide Shows, IsGenesis, HistoryOk, RegistryOk, CandidatesOk;
  }

  lemma NoAdds(env: Env, s: System, now: Timestamp)
    ensures AdmissibleRun(env, s, [Register(Outcome.Refused)] + MakeBlock(now))
  {
    hide Run;
  }

  lemma CandidateIsLater(env: Env, s: System, b: Block)
    requires Inv(env, s) && IsCandidate(s.store, b)
    ensures Last(s.store.blocks).header.timestamp.Before(b.header.timestamp)
  {
    hide Shows, MakerOk, IsGenesis, HistoryOk, Hashes, RegistryOk, Replay, Addable;
  }

  lemma HeadNumber(env: Env, t: System)
    requires Inv(env, t)
    ensures t.registry.num >= |t.store.blocks| - 1
  {
    hide Shows, MakerOk, IsGenesis, HistoryOk, Hashes, Replay, Addable;
  }

  /**
   * It can happen: a stored candidate is refused, a block of a later time is committed in its place, and then the
   * first one's registration lands after all. A node sends its transactions in nonce order, so that takes another
   * sender; the contract takes the call from every registered node, and its disabled check would refuse this one.
   */
  lemma LateRegistrationBreaksAgreement(env: Env, s: System, now: Timestamp)
    requires Inv(env, s) && s.maker.Stored? && s.view.Some? && s.store.pool != []
    requires s.maker.b.header.timestamp.Before(now)
    ensures
      var t, b := Run(env, s, [Register(Outcome.Refused)] + MakeBlock(now)), s.maker.b;
      && Inv(env, t) && Last(t.store.blocks).header.num == b.header.num
      && !RegistryOk(t.store, Registers(t.registry, b)) && !SuccessorOnChain(t.registry, b)
  {
    hide Inv, Hashes, Run, MakeBlock, Later, AllEvents, Registers, RegistryOk, IsCandidate;
    StoredIsCandidate(env, s);
    var steps := [Register(Outcome.Refused)] + MakeBlock(now);
    var u, b, n := NextRegister(s, Outcome.Refused), s.maker.b, |s.store.blocks|;
    RegisterKeeps(env, s, Outcome.Refused);
    MakeBlockCommits(env, u, now);
    RunOne(env, s, Register(Outcome.Refused));
    RunConcat(env, s, [Register(Outcome.Refused)], MakeBlock(now));
    var t := Run(env, s, steps);
    assert AdmissibleRun(env, s, steps) by { NoAdds(env, s, now); }
    LateRegistrationExactly(env, s, steps, b);
    CandidateFacts(env, s, b);
    CandidateIsLater(env, s, b);
    TipNumber(env, t);
    HeadNumber(env, t);
  }

  // ---------- what a reload changes ----------

  lemma {:induction false} ReferencedSuffix(blocks: seq<Block>, k: nat, h: Hash)
    requires k <= |blocks|
    ensures var f := Referenced(blocks, h);
      Referenced(blocks[k..], h) == if f.Some? && f.value >= k then Some(f.value - k) else None
  {
    var tail := blocks[k..];
    if tail != [] {
      assert Last(tail) == Last(blocks) && Init(tail) == Init(blocks)[k..];
      ReferencedSuffix(Init(blocks), k, h);
    }
  }

  /**
   * A window that starts later validates an event alike exactly when the block it refers to is in neither window or in
   * both, or the block after it is no longer recent.
   */
  lemma ShorterWindowValidates(v: View, w: View, cfg: Config, e: Event, now: Timestamp, k: nat)
    requires k < |v.blocks| && w.blocks == v.blocks[k..] && w.pool == v.pool
    ensures var f := Referenced(v.blocks, e.prevHash);
      Validate(w, cfg, e, now) == Validate(v, cfg, e, now) <==>
      f.None? || f.value >= k || !IsRecent(cfg, v.blocks[f.value + 1], now)
  {
    hide Referenced, AllEvents, IsRecent;
    ReferencedSuffix(v.blocks, k, e.prevHash);
    var f := Referenced(v.blocks, e.prevHash);
    if f.Some? && f.value >= k {
      assert w.blocks[f.value - k + 1..] == v.blocks[f.value + 1..];
      assert f.value + 1 < |v.blocks| ==> w.blocks[f.value - k + 1] == v.blocks[f.value + 1];
    }
  }

  lemma ReloadedBlocks(u: System)
    requires u.view.None? && Loaded(u).Some?
    ensures 0 <= u.store.lastSnapshot < |u.store.blocks|
    ensures Loaded(u).value.blocks == u.store.blocks[u.store.lastSnapshot..]
  {
  }

  /** The rebuilt view is the cached one without the blocks before its snapshot. */
  lemma Reloaded(env: Env, s: System)
    requires Inv(env, s) && s.view.Some?
    ensures var v, r := s.view.value, Loaded(s.(view := None));
      && r.Some? && 0 <= v.snapshotIndex < |v.blocks|
      && r.value == View(v.streamId, v.blocks[v.snapshotIndex..], v.pool, v.generation, v.snapshot, 0)
  {
    hide MakerOk, CandidatesOk, RegistryOk, IsGenesis, Chain, LatestSnapshot;
    var u := s.(view := None);
    LoadShows(env, s);
    assert Inv(env, u);
    LoadShows(env, u);
    var v, r, blocks := s.view.value, Loaded(u).value, s.store.blocks;
    assert r.blocks == blocks[s.store.lastSnapshot..] by { ReloadedBlocks(u); }
    assert v.blocks[v.snapshotIndex..] == blocks[s.store.lastSnapshot..];
    assert v.blocks[v.snapshotIndex] == blocks[s.store.lastSnapshot] && r.blocks[0] == blocks[s.store.lastSnapshot];
  }

  /**
   * Storage returns no block before the latest snapshot, whatever number is asked for. So after a reload an event is
   * validated as before exactly when it does not refer to a kept block before the snapshot whose successor is recent.
   */
  lemma ReloadValidates(env: Env, s: System, e: Event, now: Timestamp)
    requires Inv(env, s) && s.view.Some?
    ensures var v, r := s.view.value, Loaded(s.(view := None));
      && r.Some? && 0 <= v.snapshotIndex < |v.blocks|
      && var f := Referenced(v.blocks, e.prevHash);
         Validate(r.value, env.cfg, e, now) == Validate(v, env.cfg, e, now) <==>
         f.None? || f.value >= v.snapshotIndex || !IsRecent(env.cfg, v.blocks[f.value + 1], now)
  {
    hide Inv, Loaded, Validate, Referenced, IsRecent;
    Reloaded(env, s);
    ShorterWindowValidates(
      s.view.value, Loaded(s.(view := None)).value, env.cfg, e, now, s.view.value.snapshotIndex);
  }

  /** A cookie of this node and stream whose block the view keeps although it is before the snapshot. */
  predicate BeforeSnapshot(env: Env, v: View, c: Cookie)
    requires v.blocks != []
  {
    && c.node == env.node && c.streamId == v.streamId && c.slot >= 0
    && v.generation - |v.blocks| <= c.generation < v.generation - |v.blocks| + v.snapshotIndex
  }

  lemma IndexFound(v: View, start: int, num: int)
    requires v.blocks != [] && forall i :: 0 <= i < |v.blocks| ==> v.blocks[i].header.num == start + i
    ensures IndexOfBlock(v, num) ==
      if start <= num < start + |v.blocks| then Ok(num - start) else Err(InvalidArgument)
  {
  }

  /** The first response after a reload differs exactly for such a cookie: it is a reset instead of a delivery. */
  lemma ShorterWindowResponds(env: Env, v: View, w: View, start: int, c: Cookie)
    requires 0 <= v.snapshotIndex < |v.blocks| && v.generation == start + |v.blocks|
    requires forall i :: 0 <= i < |v.blocks| ==> v.blocks[i].header.num == start + i
    requires w == View(v.streamId, v.blocks[v.snapshotIndex..], v.pool, v.generation, v.snapshot, 0)
    ensures FirstResponse(env, w, c) == FirstResponse(env, v, c) <==> !BeforeSnapshot(env, v, c)
    ensures BeforeSnapshot(env, v, c) ==>
      && FirstResponse(env, v, c).Some? && !FirstResponse(env, v, c).value.reset
      && FirstResponse(env, w, c).Some? && FirstResponse(env, w, c).value.reset
  {
    hide IndexOfBlock, Delivered;
    var k := v.snapshotIndex;
    IndexFound(v, start, c.generation);
    IndexFound(w, start + k, c.generation) by {
      assert forall i :: 0 <= i < |w.blocks| ==> w.blocks[i] == v.blocks[k + i];
    }
    assert w.blocks[0..] == v.blocks[k..] && Last(w.blocks) == Last(v.blocks);
    if start + k <= c.generation < v.generation {
      assert w.blocks[c.generation - start - k..] == v.blocks[c.generation - start..];
    }
  }

  lemma ReloadResponds(env: Env, s: System, c: Cookie)
    requires Inv(env, s) && s.view.Some?
    ensures var v, r := s.view.value, Loaded(s.(view := None));
      && r.Some? && 0 <= v.snapshotIndex < |v.blocks| && r.value.blocks != [] && r.value.snapshotIndex == 0
      && (FirstResponse(env, r.value, c) == FirstResponse(env, v, c) <==> !BeforeSnapshot(env, v, c))
      && (BeforeSnapshot(env, v, c) ==>
            FirstResponse(env, v, c).Some? && !FirstResponse(env, v, c).value.reset
            && FirstResponse(env, r.value, c).Some? && FirstResponse(env, r.value, c).value.reset)
  {
    hide MakerOk, CandidatesOk, RegistryOk, IsGenesis, Chain, LatestSnapshot, Loaded, FirstResponse;
    Reloaded(env, s);
    var v, blocks := s.view.value, s.store.blocks;
    var start := |blocks| - |v.blocks|;
    NumbersAreIndices(blocks, ThresholdOf(env, s));
    assert forall i :: 0 <= i < |v.blocks| ==> v.blocks[i] == blocks[start + i];
    ShorterWindowResponds(env, v, Loaded(s.(view := None)).value, start, c);
  }

  /** What a node serves in any state: the blocks from its snapshot on, which the receiver can rebuild from. */
  lemma ServedResponseRebuilds(env: Env, s: System)
    requires Inv(env, s)
    ensures
      var v := Loaded(s);
      && v.Some? && 0 <= v.value.snapshotIndex < |v.value.blocks|
      && var r := MakeRemoteView(v.value.blocks[v.value.snapshotIndex..], v.value.pool);
         r.Ok? && Window(r.value, s.store.blocks, s.store.pool)
  {
    hide MakerOk, CandidatesOk, RegistryOk, IsGenesis, Chain, LatestSnapshot, Loaded, MakeRemoteView, ValidStreamId;
    LoadShows(env, s);
    var v, blocks, threshold := Loaded(s).value, s.store.blocks, ThresholdOf(env, s);
    ShowsIsWindow(env.cfg, v, blocks, s.store.pool);
    assert blocks[Base(v, blocks)] == v.blocks[v.snapshotIndex];
    SnapshotInception(blocks, Base(v, blocks), threshold);
    ServedResponseIsConsistent(v, blocks, s.store.pool, threshold);
  }

  // ---------- failed attempts ----------

  /** A step of the block maker that fails: no view to build from, a failed write, or no acceptance reported. */
  predicate Fails(s: System, step: Step) {
    match step
    case Build(_) => s.maker.Proposed? && s.view.None?
    case StoreCandidate(writeOk) => s.maker.Built? && !writeOk
    case Register(outcome) => s.maker.Stored? && !outcome.Accepted?
    case Commit(writeOk) => s.maker.Registered? && !writeOk
    case _ => false
  }

  /**
   * In every state a failed step ends the attempt: the maker is free for the next one, nothing stored or sent changes,
   * and the registry moves to the block exactly if it was accepted without being reported.
   */
  lemma FailureEndsAttempt(env: Env, s: System, step: Step)
    requires Inv(env, s) && Fails(s, step)
    ensures
      var t := Next(env, s, step);
      && t.maker.Idle? && t.store == s.store && t.log == s.log && t.receivers == s.receivers
      && (if step.Register? && step.outcome.AcceptedUnreported?
          then t.registry.hash == s.maker.b.Hash() && t.registry.num == s.maker.b.header.num
          else t.registry == s.registry)
  {
    hide HistoryOk, CandidatesOk, RegistryOk, IsGenesis, LatestSnapshot, ApplyBlock, BuildBlock, Shows, MakeView;
    LoadShows(env, s);
    ShowsWindow(env.cfg, Loaded(s).value, s.store.blocks, s.store.pool);
  }

  /** Without a failure every step of the maker leads to the next one. */
  lemma SuccessGoesOn(env: Env, s: System, step: Step)
    requires Inv(env, s) && !Fails(s, step)
    ensures
      var m := Next(env, s, step).maker;
      match step
      case Build(_) => s.maker.Proposed? ==> m.Built?
      case StoreCandidate(_) => s.maker.Built? ==> m == Stored(s.maker.b)
      case Register(_) => s.maker.Stored? ==> m == Registered(s.maker.b)
      case _ => true
  {
    hide HistoryOk, CandidatesOk, RegistryOk, IsGenesis, Shows, MakerOk, NextBuild, NextStore;
    match step {
      case Build(now) => BuildKeeps(env, s, now);
      case StoreCandidate(writeOk) => StoreKeeps(env, s, writeOk);
      case _ =>
    }
  }

  // ---------- subscribing and unloading ----------

  /**
   * In every state a cookie is refused exactly if it is for another node or stream, has a negative slot, or is for the
   * present generation beyond the end of the pool; and a receiver is added exactly for the others, which all get a
   * first response.
   */
  lemma SubscribedExactly(env: Env, s: System, id: nat, c: Cookie)
    requires Inv(env, s)
    ensures
      var v, blocks, pool := Loaded(s), s.store.blocks, s.store.pool;
      && v.Some? && 0 <= v.value.snapshotIndex < |v.value.blocks|
      && var refused :=
           || c.node != env.node || c.streamId != StreamIdOf(blocks) || c.slot < 0
           || (c.generation == |blocks| && c.slot > |pool|);
         && (FirstResponse(env, v.value, c).None? <==> refused)
         && NextSubscribe(env, s, id, c).receivers == (if refused then s.receivers else s.receivers + {id})
         && NextSubscribe(env, s, id, c).store == s.store && NextSubscribe(env, s, id, c).log == s.log
  {
    hide HistoryOk, MakerOk, CandidatesOk, RegistryOk, IsGenesis, LatestSnapshot, Loaded, EventsFrom;
    LoadShows(env, s);
    ShowsIsWindow(env.cfg, Loaded(s).value, s.store.blocks, s.store.pool);
  }

  /** A view is unloaded exactly if it is expired, nobody listens, and nothing is pending in storage either. */
  lemma UnloadedExactly(env: Env, s: System, expired: bool)
    requires Inv(env, s)
    ensures
      var t := NextEvict(s, expired);
      && t == s.(view := t.view)
      && (t.view.None? <==> s.view.None? || (expired && |s.receivers| == 0 && |s.store.pool| == 0))
      && (t.view.Some? ==> t.view == s.view)
  {
    hide HistoryOk, MakerOk, CandidatesOk, RegistryOk, IsGenesis, LatestSnapshot;
  }
}
