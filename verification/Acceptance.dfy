/** Which events a node accepts, in terms of the whole chain and the clock. */
module Acceptance {
  import opened Wrappers
  import opened Messages
  import opened Chains
  import opened Views
  import opened ViewTheorems
  import opened Engine
  import opened EngineProofs
  import opened Sync
  import opened EngineLimits

  /** `now` is at most this many seconds after `t`; a clock that is behind counts as in time. */
  predicate AtMostAfter(t: Timestamp, now: Timestamp, seconds: int) {
    (now.seconds - t.seconds) * 1_000_000_000 + (now.nanos - t.nanos) <= seconds * 1_000_000_000
  }

  function AllowedSeconds(cfg: Config): int {
    if cfg.ageSeconds == 0 then 5 else cfg.ageSeconds
  }

  /** Block `f` of the chain is the tip, or the block after it came at most the allowed time ago. */
  predicate InTime(cfg: Config, blocks: seq<Block>, f: nat, now: Timestamp)
    requires f < |blocks|
  {
    f == |blocks| - 1 || AtMostAfter(blocks[f + 1].header.timestamp, now, AllowedSeconds(cfg))
  }

  /** The event refers to a block among the last `kept` of the chain, in time. */
  ghost predicate RefersInTime(cfg: Config, blocks: seq<Block>, kept: nat, e: Event, now: Timestamp) {
    exists f: nat :: |blocks| - kept <= f < |blocks| && e.prevHash == blocks[f].Hash() && InTime(cfg, blocks, f, now)
  }

  lemma RecentIsInTime(cfg: Config, b: Block, now: Timestamp)
    ensures IsRecent(cfg, b, now) <==> AtMostAfter(b.header.timestamp, now, AllowedSeconds(cfg))
  {
  }

  /** The one block of the chain the event refers to decides. */
  lemma ReferenceDecides(
    cfg: Config, blocks: seq<Block>, threshold: int, kept: nat, e: Event, now: Timestamp, f: nat)
    requires Chain(blocks, threshold) && f < |blocks| && e.prevHash == blocks[f].Hash()
    ensures RefersInTime(cfg, blocks, kept, e, now) <==> |blocks| - kept <= f && InTime(cfg, blocks, f, now)
  {
    hide Chain, InTime;
    if RefersInTime(cfg, blocks, kept, e, now) {
      var g: nat :| |blocks| - kept <= g < |blocks| && e.prevHash == blocks[g].Hash() && InTime(cfg, blocks, g, now);
      HashFixesPosition(blocks, threshold, f, g);
    }
  }

  /**
   * For every window of every chain, every event and every clock: the event is accepted if and only if it refers in
   * time to a block of the window and is new to the whole history; otherwise the code says which of the two failed.
   */
  lemma AcceptedExactly(
    v: View, cfg: Config, e: Event, now: Timestamp, blocks: seq<Block>, pool: seq<Event>, threshold: int)
    requires Chain(blocks, threshold) && Window(v, blocks, pool)
    ensures
      var known := e in AllEvents(blocks) + pool;
      Validate(v, cfg, e, now) ==
        if !RefersInTime(cfg, blocks, |v.blocks|, e, now) then Some(BadPrevHash)
        else if known then Some(DuplicateEvent) else None
  {
    hide Chain, AllEvents, IsRecent, AtMostAfter;
    var start := |blocks| - |v.blocks|;
    assert forall i :: 0 <= i < |v.blocks| ==> v.blocks[i] == blocks[start + i];
    match Referenced(v.blocks, e.prevHash) {
      case None => assert forall f :: start <= f < |blocks| ==> blocks[f] == v.blocks[f - start];
      case Some(i) =>
        var f := start + i;
        assert blocks[f] == v.blocks[i];
        ReferenceDecides(cfg, blocks, threshold, |v.blocks|, e, now, f);
        BoundedCheckIsExact(v, e, i, blocks, pool, threshold);
        if i < |v.blocks| - 1 {
          RecentIsInTime(cfg, v.blocks[i + 1], now);
        }
    }
  }

  /** An event that refers to the tip is in no block yet. */
  lemma NewAtTip(env: Env, s: System, e: Event)
    requires Inv(env, s) && e.prevHash == Last(s.store.blocks).Hash() && e !in s.store.pool
    ensures e !in AllEvents(s.store.blocks) + s.store.pool
  {
    hide Shows, MakerOk, CandidatesOk, RegistryOk, IsGenesis, AllEvents, Chain;
    var blocks := s.store.blocks;
    if e in AllEvents(blocks) {
      EventInBlock(blocks, e);
      var q :| 0 <= q < |blocks| && e in blocks[q].events;
      NotBeforeReference(blocks, ThresholdOf(env, s), e, |blocks| - 1, q);
    }
  }

  /**
   * An event made for the tip of one state, in any later state of a run: it is accepted if and only if it was not
   * itself sent in between and either no block was made since, or its block is still in the window and the block
   * after it came at most the allowed time ago.
   */
  lemma AcceptedLater(env: Env, s: System, steps: seq<Step>, e: Event, now: Timestamp)
    requires Inv(env, s) && AdmissibleRun(env, s, steps)
    requires !e.IsHeader() && e !in s.store.pool && e.prevHash == Last(s.store.blocks).Hash()
    ensures
      var t, n := Run(env, s, steps), |s.store.blocks|;
      && Loaded(t).Some? && |s.log| <= |t.log| && n <= |t.store.blocks|
      && (Validate(Loaded(t).value, env.cfg, e, now).None? <==>
          && e !in t.log[|s.log|..]
          && (|t.store.blocks| == n ||
              (&& |t.store.blocks| - |Loaded(t).value.blocks| < n
               && AtMostAfter(t.store.blocks[n].header.timestamp, now, AllowedSeconds(env.cfg)))))
  {
    hide Shows, MakerOk, CandidatesOk, RegistryOk, IsGenesis, AllEvents, Later, Run, AdmissibleRun, Validate, Chain;
    hide AddedEvents, Distinct, Loaded, AtMostAfter, Window;
    var t, n := Run(env, s, steps), |s.store.blocks|;
    RunIsLater(env, s, steps);
    LaterExtends(s, t);
    LoadShows(env, t);
    var v, blocks, threshold := Loaded(t).value, t.store.blocks, ThresholdOf(env, t);
    ShowsIsWindow(env.cfg, v, blocks, t.store.pool);
    NewAtTip(env, s, e);
    SentInBetween(s, t, e);
    AcceptedExactly(v, env.cfg, e, now, blocks, t.store.pool, threshold);
    assert blocks[n - 1] == Last(s.store.blocks);
    ReferenceDecides(env.cfg, blocks, threshold, |v.blocks|, e, now, n - 1);
    assert v.blocks != [] by { ShowsWindow(env.cfg, v, blocks, t.store.pool); }
  }
}
