/**
 * The stream object: its methods update the cached view, the receivers and the stored rows in place. Each is proved to
 * take exactly the engine's step, so what holds of every engine run holds of every sequence of calls.
 */
module Streams {
  import opened Wrappers
  import opened ByteStrings
  import opened Messages
  import opened Chains
  import opened Views
  import opened ViewProcedures
  import opened Storage
  import opened Engine
  import opened EngineProofs
  import opened EngineTheorems
  import opened Sync

  lemma PoolIsDistinct(env: Env, s: System)
    requires Inv(env, s)
    ensures Distinct(s.store.pool)
  {
    hide Chain, Shows, MakerOk, CandidatesOk, RegistryOk, IsGenesis;
    PoolDistinct(AddedEvents(s.store.blocks), s.store.pool);
  }

  /** The stream's id is the one in its first event. */
  ghost predicate InvStreamId(env: Env, s: System, streamId: Bytes)
    requires Inv(env, s)
  {
    streamId == StreamIdOf(s.store.blocks)
  }

  lemma SameStreamId(env: Env, s: System, t: System, streamId: Bytes)
    requires Inv(env, s) && Inv(env, t) && s.store.blocks <= t.store.blocks && InvStreamId(env, s, streamId)
    ensures InvStreamId(env, t, streamId)
  {
    hide HistoryOk, Shows, MakerOk, CandidatesOk, RegistryOk, IsGenesis;
    assert t.store.blocks[0] == s.store.blocks[0];
  }

  /** What iterating over the window from a block visits: block events, the header, then the pool. */
  method ForEachEvent(v: View, start: nat) returns (events: seq<Event>)
    requires start <= |v.blocks|
    ensures events == EventsFrom(v, start)
  {
    events := [];
    var tail := v.blocks[start..];
    var i := 0;
    while i < |tail|
      invariant 0 <= i <= |tail|
      invariant events == Delivered(tail[..i])
    {
      assert Init(tail[..i + 1]) == tail[..i] && Last(tail[..i + 1]) == tail[i];
      events := events + tail[i].events + [tail[i].HeaderEvent()];
      i := i + 1;
    }
    assert tail[..|tail|] == tail;
    events := events + v.pool;
  }

  /** The first three of them. */
  function Proposing(env: Env, s: System, force: bool, now: Timestamp, storeOk: bool): System {
    NextStore(NextBuild(env, NextPropose(env, s, force), now), storeOk)
  }

  /** A step whose turn has not come changes nothing; one whose turn it is moves the maker on or stops it. */
  lemma MakerMoves(env: Env, force: bool, now: Timestamp, storeOk: bool)
    ensures forall t: System :: !t.maker.Proposed? ==> NextBuild(env, t, now) == t
    ensures forall t: System :: !t.maker.Built? ==> NextStore(t, storeOk) == t
    ensures forall t: System :: t.maker.Idle? ==>
      NextPropose(env, t, force).maker.Idle? || NextPropose(env, t, force).maker.Proposed?
    ensures forall t: System :: t.maker.Proposed? ==>
      NextBuild(env, t, now).maker.Idle? || NextBuild(env, t, now).maker.Built?
    ensures forall t: System :: t.maker.Built? ==>
      NextStore(t, storeOk).maker.Idle? || NextStore(t, storeOk).maker.Stored?
  {
  }

  /** The steps that make one block. */
  function Pipeline(force: bool, now: Timestamp, storeOk: bool, outcome: Outcome, commitOk: bool): seq<Step> {
    [Propose(force), Build(now), Step.StoreCandidate(storeOk), Register(outcome), Commit(commitOk)]
  }

  /** When there is nothing to propose: the last block of a loaded view, if the caller does not know it yet. */
  function NewerThan(view: Option<View>, lastKnown: int): Option<(Hash, int)> {
    if lastKnown > -1 && view.Some? && view.value.blocks != [] && Last(view.value.blocks).header.num > lastKnown
    then Some((Last(view.value.blocks).Hash(), Last(view.value.blocks).header.num)) else None
  }

  lemma RunAppend(env: Env, s: System, steps: seq<Step>, step: Step)
    ensures Run(env, s, steps + [step]) == Next(env, Run(env, s, steps), step)
  {
    assert Init(steps + [step]) == steps;
  }

  lemma PipelineSteps(
    env: Env, s: System, force: bool, now: Timestamp, storeOk: bool, outcome: Outcome, commitOk: bool)
    ensures Run(env, s, Pipeline(force, now, storeOk, outcome, commitOk)) ==
      NextCommit(env, NextRegister(Proposing(env, s, force, now, storeOk), outcome), commitOk)
  {
    hide Run, NextPropose, NextBuild, NextStore, NextRegister, NextCommit;
    var steps := Pipeline(force, now, storeOk, outcome, commitOk);
    RunOne(env, s, Propose(force));
    RunAppend(env, s, steps[..1], Build(now));
    RunAppend(env, s, steps[..2], Step.StoreCandidate(storeOk));
    RunAppend(env, s, steps[..3], Register(outcome));
    RunAppend(env, s, steps[..4], Commit(commitOk));
    assert steps[..1] == [Propose(force)] && steps[..2] == steps[..1] + [Build(now)];
    assert steps[..3] == steps[..2] + [Step.StoreCandidate(storeOk)] && steps[..4] == steps[..3] + [Register(outcome)];
    assert steps == steps[..4] + [Commit(commitOk)];
  }

  lemma CommitMoves(env: Env, outcome: Outcome, commitOk: bool)
    ensures forall t: System :: !t.maker.Stored? ==> NextRegister(t, outcome) == t
    ensures forall t: System :: !t.maker.Registered? ==> NextCommit(env, t, commitOk) == t
    ensures forall t: System :: t.maker.Stored? ==>
      NextRegister(t, outcome).maker.Idle? || NextRegister(t, outcome).maker.Registered?
    ensures forall t: System :: t.maker.Registered? ==> NextCommit(env, t, commitOk).maker.Idle?
  {
  }

  class Stream {
    const env: Env
    const streamId: Bytes
    var store: Store
    var registry: Registry
    var view: Option<View>
    var receivers: set<nat>
    var maker: Maker
    var log: seq<Event>

    ghost function State(): System
      reads this
    {
      System(store, registry, view, receivers, maker, log)
    }

    ghost predicate Valid()
      reads this
    {
      Inv(env, State()) && InvStreamId(env, State(), streamId)
    }

    constructor (e: Env, genesis: Block)
      requires Genesis(genesis)
      ensures env == e && State() == Created(genesis) && Valid()
    {
      env, streamId := e, genesis.events[0].payload.content.inception.streamId;
      store := CreateStream(genesis);
      registry := Registry(0, genesis.Hash(), {});
      view, receivers, maker, log := None, {}, Idle, [];
      new;
      CreatedInv(e, genesis);
    }

    method Load()
      requires Valid()
      modifies this`view
      ensures State() == Next(env, old(State()), Step.Load) && Valid()
      ensures view.Some? && view == Loaded(old(State()))
    {
      hide Inv, Shows, MakeView;
      LoadShows(env, State());
      LoadKeeps(env, State());
      if view.None? {
        match ReadFromLastSnapshot(store) {
          case Ok((blocks, pool)) =>
            PoolIsDistinct(env, State());
            var v := MakeStreamView(blocks, pool);
            view := Some(v.value);
        }
      }
    }

    /** The caller validates the event; without that the write to storage can leave storage and view apart. */
    method AddEvent(e: Event, writeOk: bool, ghost now: Timestamp) returns (ok: bool)
      requires Valid()
      modifies this`store, this`view, this`log
      ensures State() == NextAdd(old(State()), e, writeOk)
      ensures old(Admissible(env, State(), Add(e, now, writeOk))) ==> Valid() && ok == writeOk
    {
      hide Inv, Admissible, Shows;
      if Admissible(env, State(), Add(e, now, writeOk)) {
        AddKeeps(env, State(), e, now, writeOk);
        LoadShows(env, State());
        if writeOk {
          AddedIsPending(env, State(), e, now);
        }
      }
      Load();
      if !writeOk {
        return false;
      }
      var w := WriteEvent(store, view.value.generation, |view.value.pool|, e);
      if w.Err? {
        return false;
      }
      store := w.value;
      var r := Views.AddEvent(view.value, e);
      if !r.Added? {
        return false;
      }
      view := Some(r.view);
      log := log + [e];
      ok := true;
    }

    method GenerateProposal(force: bool)
      requires Valid() && maker.Idle?
      modifies this`maker
      ensures State() == NextPropose(env, old(State()), force) && Valid()
    {
      hide Inv, EventsSince, Hashes;
      ProposeKeeps(env, State(), force);
      if view.None? || view.value.blocks == [] {
        return;
      }
      var v := view.value;
      if v.pool == [] && !force {
        return;
      }
      var snapshot := ShouldSnapshotScan(v, env.cfg);
      maker := Proposed(Proposal(Hashes(v.pool), v.generation, Last(v.blocks).Hash(), force || snapshot));
    }

    method ConstructMiniblock(now: Timestamp)
      requires Valid() && maker.Proposed?
      modifies this`maker
      ensures State() == NextBuild(env, old(State()), now) && Valid()
    {
      hide Inv, BuildBlock;
      BuildKeeps(env, State(), now);
      if view.None? {
        maker := Idle;
        return;
      }
      ViewsAreUsable(env, State());
      var r := MakeMiniblock(view.value, maker.p, env.node, now);
      maker := if r.Ok? then Built(r.value) else Idle;
    }

    method StoreCandidate(writeOk: bool)
      requires Valid() && maker.Built?
      modifies this`maker, this`store
      ensures State() == NextStore(old(State()), writeOk) && Valid()
      ensures store.blocks == old(store.blocks) && store.pool == old(store.pool)
      ensures writeOk ==> maker == Stored(old(maker.b))
    {
      hide Inv;
      StoreKeeps(env, State(), writeOk);
      var w := WriteCandidate(store, maker.b);
      if !writeOk || w.Err? {
        maker := Idle;
        return;
      }
      store := w.value;
      maker := Stored(maker.b);
    }

    method SetStreamLastMiniblock(outcome: Outcome)
      requires Valid() && maker.Stored?
      modifies this`maker, this`registry
      ensures State() == NextRegister(old(State()), outcome) && Valid()
    {
      hide Inv;
      RegisterKeeps(env, State(), outcome);
      var b := maker.b;
      if !outcome.Refused? {
        registry := Registry(b.header.num, b.Hash(), registry.accepted + {b.Hash()});
      }
      maker := if outcome.Accepted? then Registered(b) else Idle;
    }

    method ApplyMiniblock(writeOk: bool) returns (ok: bool)
      requires Valid() && maker.Registered?
      modifies this`maker, this`store, this`view, this`log
      ensures State() == NextCommit(env, old(State()), writeOk) && Valid()
      ensures ok == writeOk
      ensures if ok then store.blocks == old(store.blocks) + [old(maker.b)] else store == old(store)
    {
      hide Inv, ApplyBlock, Shows, CandidateOk, LatestSnapshot;
      var b := maker.b;
      LoadShows(env, State());
      CommitKeeps(env, State(), writeOk);
      CommitResult(env, State());
      BlockUnderWayApplies(env, State());
      Load();
      maker := Idle;
      var r := CopyAndApplyBlock(view.value, b, env.cfg);
      if r.Err? || !writeOk {
        return false;
      }
      var w := Promote(store, view.value.generation, b.Hash(), b.header.snapshot.Some?, r.value.pool);
      if w.Err? {
        return false;
      }
      store, view := w.value, Some(r.value);
      log := log + [b.HeaderEvent()];
      ok := true;
      SameStreamId(env, old(State()), State(), streamId);
    }

    method ProposeNextMiniblock(force: bool, now: Timestamp, storeOk: bool) returns (proposed: bool)
      requires Valid() && maker.Idle?
      modifies this`maker, this`store
      ensures State() == Proposing(env, old(State()), force, now, storeOk) && Valid()
      ensures maker.Idle? || maker.Stored?
      ensures store.blocks == old(store.blocks)
      ensures proposed <==> NextPropose(env, old(State()), force).maker.Proposed?
      ensures maker.Stored? ==> proposed
    {
      hide Inv, NextPropose, NextBuild, NextStore;
      MakerMoves(env, force, now, storeOk);
      GenerateProposal(force);
      proposed := maker.Proposed?;
      if maker.Proposed? {
        ConstructMiniblock(now);
      }
      if maker.Built? {
        StoreCandidate(storeOk);
      }
    }

    /** Propose, build, store, register, commit: the five engine steps, whatever fails on the way. */
    method MakeMiniblockImpl(
      force: bool, lastKnown: int, now: Timestamp, storeOk: bool, outcome: Outcome, commitOk: bool)
      returns (r: Option<(Hash, int)>)
      requires Valid() && maker.Idle?
      modifies this
      ensures State() == Run(env, old(State()), Pipeline(force, now, storeOk, outcome, commitOk))
      ensures Valid() && maker.Idle?
      ensures |store.blocks| > |old(store.blocks)| ==>
        r == Some((Last(store.blocks).Hash(), Last(store.blocks).header.num))
      ensures |store.blocks| == |old(store.blocks)| ==>
        r == if NextPropose(env, old(State()), force).maker.Proposed? then None else NewerThan(view, lastKnown)
    {
      hide Inv, NextPropose, NextBuild, NextStore, NextRegister, NextCommit;
      PipelineSteps(env, State(), force, now, storeOk, outcome, commitOk);
      CommitMoves(env, outcome, commitOk);
      var proposed := ProposeNextMiniblock(force, now, storeOk);
      if maker.Idle? {
        return if proposed then None else NewerThan(view, lastKnown);
      }
      SetStreamLastMiniblock(outcome);
      if maker.Idle? {
        return None;
      }
      var b := maker.b;
      var ok := ApplyMiniblock(commitOk);
      r := if ok then Some((b.Hash(), b.header.num)) else None;
    }

    method TryCleanup(expired: bool) returns (unloaded: bool)
      requires Valid()
      modifies this`view
      ensures State() == NextEvict(old(State()), expired) && Valid()
      ensures unloaded <==> old(view.Some?) && view.None?
    {
      hide HistoryOk, Shows, MakerOk, CandidatesOk, RegistryOk;
      if view.None? {
        return false;
      }
      if expired && receivers == {} && view.value.pool == [] {
        view := None;
        return true;
      }
      unloaded := false;
    }

    method Subscribe(id: nat, cookie: Cookie) returns (r: Option<Response>)
      requires Valid()
      modifies this`view, this`receivers
      ensures State() == NextSubscribe(env, old(State()), id, cookie) && Valid()
      ensures Loaded(old(State())).Some?
      ensures var v := Loaded(old(State())).value;
        v.blocks != [] && 0 <= v.snapshotIndex < |v.blocks| && r == FirstResponse(env, v, cookie)
      ensures r.Some? <==> id in NextSubscribe(env, old(State()).(receivers := {}), id, cookie).receivers
    {
      hide Inv, EventsFrom;
      LoadShows(env, State());
      SubscribeKeeps(env, State(), id, cookie);
      if cookie.node != env.node || cookie.streamId != streamId || cookie.slot < 0 {
        return None;
      }
      Load();
      var v := view.value;
      if cookie.generation == v.generation {
        if cookie.slot > |v.pool| {
          return None;
        }
        receivers := receivers + {id};
        return Some(Response(v.pool[cookie.slot..], SyncCookie(v, env.node), [], false));
      }
      receivers := receivers + {id};
      var index := IndexOfBlock(v, cookie.generation);
      if index.Err? {
        return Some(Response(v.pool, SyncCookie(v, env.node), v.blocks[v.snapshotIndex..], true));
      }
      var events := ForEachEvent(v, index.value);
      r := Some(Response(events, SyncCookie(v, env.node), [], false));
    }

    /** Every receiver is sent an error. */
    method ForceFlush() returns (failed: set<nat>)
      requires Valid()
      modifies this`view, this`receivers
      ensures State() == Next(env, old(State()), Flush) && Valid()
      ensures failed == old(receivers)
    {
      hide HistoryOk, Shows, MakerOk, CandidatesOk, RegistryOk;
      failed := receivers;
      view, receivers := None, {};
    }

    method Unsubscribe(id: nat)
      requires Valid()
      modifies this`receivers
      ensures State() == Next(env, old(State()), Step.Unsubscribe(id)) && Valid()
    {
      hide HistoryOk, Shows, MakerOk, CandidatesOk, RegistryOk;
      receivers := receivers - {id};
    }
  }

  // ---------- the batch ----------

  /** What the environment does to one stream during a batch. */
  datatype Turn = Turn(now: Timestamp, storeOk: bool, outcome: Outcome, commitOk: bool)

  /** A stream whose maker is busy is skipped; every other one takes its own five steps, whatever the rest do. */
  function Batched(env: Env, s: System, t: Turn): System {
    if !s.maker.Idle? then s else Run(env, s, Pipeline(false, t.now, t.storeOk, t.outcome, t.commitOk))
  }

  ghost predicate AllValid(streams: seq<Stream>)
    reads streams
  {
    forall i :: 0 <= i < |streams| ==> streams[i].Valid()
  }

  /** After proposing in a batch; the stream is the batch's own if its maker was free. */
  function Tried(env: Env, s: System, t: Turn): System {
    if s.maker.Idle? then Proposing(env, s, false, t.now, t.storeOk) else s
  }

  method ProposeAll(streams: seq<Stream>, turns: seq<Turn>) returns (mine: seq<bool>)
    requires |turns| == |streams| && AllValid(streams)
    requires forall i, j :: 0 <= i < j < |streams| ==> streams[i] != streams[j]
    modifies streams
    ensures AllValid(streams) && |mine| == |streams|
    ensures forall i :: 0 <= i < |streams| ==>
      && (mine[i] <==> old(streams[i].maker.Idle?))
      && streams[i].State() == Tried(streams[i].env, old(streams[i].State()), turns[i])
  {
    hide Inv, Proposing;
    mine := [];
    var i := 0;
    while i < |streams|
      invariant 0 <= i <= |streams| && |mine| == i && AllValid(streams)
      invariant forall j :: i <= j < |streams| ==> streams[j].State() == old(streams[j].State())
      invariant forall j :: 0 <= j < i ==>
        && (mine[j] <==> old(streams[j].maker.Idle?))
        && streams[j].State() == Tried(streams[j].env, old(streams[j].State()), turns[j])
    {
      var s := streams[i];
      assert s.State() == old(s.State());
      mine := mine + [s.maker.Idle?];
      if s.maker.Idle? {
        var _ := s.ProposeNextMiniblock(false, turns[i].now, turns[i].storeOk);
      }
      i := i + 1;
    }
  }

  lemma TriedMaker(env: Env, s: System, t: Turn)
    requires s.maker.Idle?
    ensures Tried(env, s, t).maker.Idle? || Tried(env, s, t).maker.Stored?
  {
    hide NextPropose, NextBuild, NextStore;
    MakerMoves(env, false, t.now, t.storeOk);
  }

  lemma RegisteredMaker(s: System, outcome: Outcome)
    ensures var t := NextRegister(s, outcome);
      if s.maker.Stored? then t.maker.Idle? || t.maker.Registered? else t == s
  {
  }

  method RegisterAll(streams: seq<Stream>, turns: seq<Turn>, mine: seq<bool>)
    requires |turns| == |streams| == |mine| && AllValid(streams)
    requires forall i, j :: 0 <= i < j < |streams| ==> streams[i] != streams[j]
    requires forall i :: 0 <= i < |streams| && mine[i] ==> streams[i].maker.Idle? || streams[i].maker.Stored?
    modifies streams
    ensures AllValid(streams)
    ensures forall i :: 0 <= i < |streams| && mine[i] ==> streams[i].maker.Idle? || streams[i].maker.Registered?
    ensures forall i :: 0 <= i < |streams| ==>
      streams[i].State() ==
        if mine[i] then NextRegister(old(streams[i].State()), turns[i].outcome) else old(streams[i].State())
  {
    hide Inv, NextRegister;
    var i := 0;
    while i < |streams|
      invariant 0 <= i <= |streams| && AllValid(streams)
      invariant forall j :: i <= j < |streams| ==> streams[j].State() == old(streams[j].State())
      invariant forall j :: 0 <= j < i ==>
        streams[j].State() ==
          if mine[j] then NextRegister(old(streams[j].State()), turns[j].outcome) else old(streams[j].State())
    {
      var s := streams[i];
      assert s.State() == old(s.State());
      RegisteredMaker(s.State(), turns[i].outcome);
      if mine[i] && s.maker.Stored? {
        s.SetStreamLastMiniblock(turns[i].outcome);
      }
      i := i + 1;
    }
    forall j | 0 <= j < |streams| && mine[j] ensures streams[j].maker.Idle? || streams[j].maker.Registered? {
      RegisteredMaker(old(streams[j].State()), turns[j].outcome);
    }
  }

  method ApplyAll(streams: seq<Stream>, turns: seq<Turn>, mine: seq<bool>)
    requires |turns| == |streams| == |mine| && AllValid(streams)
    requires forall i, j :: 0 <= i < j < |streams| ==> streams[i] != streams[j]
    requires forall i :: 0 <= i < |streams| && mine[i] ==> streams[i].maker.Idle? || streams[i].maker.Registered?
    modifies streams
    ensures AllValid(streams)
    ensures forall i :: 0 <= i < |streams| ==>
      streams[i].State() ==
        if mine[i] then NextCommit(streams[i].env, old(streams[i].State()), turns[i].commitOk)
        else old(streams[i].State())
  {
    hide Inv, Loaded, ApplyBlock, Promote;
    var i := 0;
    while i < |streams|
      invariant 0 <= i <= |streams| && AllValid(streams)
      invariant forall j :: i <= j < |streams| ==> streams[j].State() == old(streams[j].State())
      invariant forall j :: 0 <= j < i ==>
        streams[j].State() ==
          if mine[j] then NextCommit(streams[j].env, old(streams[j].State()), turns[j].commitOk)
          else old(streams[j].State())
    {
      var s := streams[i];
      assert s.State() == old(s.State());
      if mine[i] && s.maker.Registered? {
        var _ := s.ApplyMiniblock(turns[i].commitOk);
      }
      i := i + 1;
    }
  }

  /** Propose all, register all, then apply those whose registration was reported. */
  method ProcessMiniblockProposalBatch(streams: seq<Stream>, turns: seq<Turn>)
    requires |turns| == |streams| && AllValid(streams)
    requires forall i, j :: 0 <= i < j < |streams| ==> streams[i] != streams[j]
    modifies streams
    ensures AllValid(streams)
    ensures forall i :: 0 <= i < |streams| ==>
      streams[i].State() == Batched(streams[i].env, old(streams[i].State()), turns[i])
  {
    hide Inv, Proposing, NextRegister, NextCommit, Run;
    var mine := ProposeAll(streams, turns);
    forall i | 0 <= i < |streams| && mine[i] ensures streams[i].maker.Idle? || streams[i].maker.Stored? {
      TriedMaker(streams[i].env, old(streams[i].State()), turns[i]);
    }
    RegisterAll(streams, turns, mine);
    ApplyAll(streams, turns, mine);
    forall i | 0 <= i < |streams|
      ensures streams[i].State() == Batched(streams[i].env, old(streams[i].State()), turns[i])
    {
      var t := turns[i];
      PipelineSteps(streams[i].env, old(streams[i].State()), false, t.now, t.storeOk, t.outcome, t.commitOk);
    }
  }
}
