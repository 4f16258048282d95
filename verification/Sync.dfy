/** Subscribing with a cookie: what is delivered, and why a client that keeps resuming never misses an event. */
module Sync {
  import opened Wrappers
  import opened Messages
  import opened Snapshots
  import opened Chains
  import opened Views
  import opened ViewTheorems
  import opened Engine
  import opened EngineProofs
  import opened EngineTheorems

  datatype Response = Response(events: seq<Event>, cookie: Cookie, blocks: seq<Block>, reset: bool)

  /** The first message to a new subscriber; None is an error. */
  function FirstResponse(env: Env, v: View, c: Cookie): Option<Response>
    requires v.blocks != [] && 0 <= v.snapshotIndex < |v.blocks|
  {
    if c.node != env.node || c.streamId != v.streamId || c.slot < 0 then None
    else if c.generation == v.generation then
      if c.slot > |v.pool| then None
      else Some(Response(v.pool[c.slot..], SyncCookie(v, env.node), [], false))
    else match IndexOfBlock(v, c.generation)
      case Err(_) => Some(Response(v.pool, SyncCookie(v, env.node), v.blocks[v.snapshotIndex..], true))
      case Ok(i) =>
        if 0 <= i <= |v.blocks| then Some(Response(EventsFrom(v, i), SyncCookie(v, env.node), [], false)) else None
  }

  /** The events themselves, without the block headers between them. */
  function WithoutHeaders(es: seq<Event>): seq<Event> {
    if es == [] then []
    else WithoutHeaders(Init(es)) + if Last(es).IsHeader() then [] else [Last(es)]
  }

  // ---------- from an earlier state to a later one ----------

  ghost predicate Extends(s: System, t: System) {
    && |s.store.blocks| <= |t.store.blocks| && t.store.blocks[..|s.store.blocks|] == s.store.blocks
    && |s.log| <= |t.log| && t.log[..|s.log|] == s.log
  }

  /** What was pending plus what was sent since is what the new blocks deliver plus what is pending now. */
  ghost predicate Conserves(s: System, t: System)
    requires Extends(s, t)
  {
    multiset(s.store.pool) + multiset(t.log[|s.log|..]) ==
    multiset(Delivered(t.store.blocks[|s.store.blocks|..])) + multiset(t.store.pool)
  }

  /** Without a new block the pool just grew by what was sent. */
  ghost predicate Accumulates(s: System, t: System)
    requires Extends(s, t)
  {
    |t.store.blocks| == |s.store.blocks| ==> t.store.pool == s.store.pool + t.log[|s.log|..]
  }

  /** What lies between two states of a run. */
  ghost predicate Later(s: System, t: System) {
    Extends(s, t) && Conserves(s, t) && Accumulates(s, t)
  }

  lemma {:induction false} DeliveredConcat(a: seq<Block>, b: seq<Block>)
    ensures Delivered(a + b) == Delivered(a) + Delivered(b)
  {
    if b == [] {
      assert a + b == a;
    } else {
      assert Init(a + b) == a + Init(b) && Last(a + b) == Last(b);
      DeliveredConcat(a, Init(b));
    }
  }

  lemma LaterReflexive(s: System)
    ensures Later(s, s)
  {
    assert s.store.blocks[|s.store.blocks|..] == [];
  }

  lemma Balance(
    a: multiset<Event>, x: multiset<Event>, d: multiset<Event>, b: multiset<Event>,
    y: multiset<Event>, e: multiset<Event>, c: multiset<Event>)
    requires a + x == d + b && b + y == e + c
    ensures a + (x + y) == (d + e) + c
  {
    forall z ensures (a + (x + y))[z] == ((d + e) + c)[z] {
      assert (a + x)[z] == (d + b)[z] && (b + y)[z] == (e + c)[z];
    }
  }

  lemma SliceJoin<T>(a: seq<T>, b: seq<T>, m: nat)
    requires m <= |a| <= |b| && b[..|a|] == a
    ensures b[m..] == a[m..] + b[|a|..] && b[..m] == a[..m]
  {
    assert b == a + b[|a|..];
    assert b[..m] == b[..|a|][..m];
  }

  lemma ExtendsTransitive(s: System, t: System, u: System)
    requires Extends(s, t) && Extends(t, u)
    ensures Extends(s, u)
    ensures u.log[|s.log|..] == t.log[|s.log|..] + u.log[|t.log|..]
    ensures u.store.blocks[|s.store.blocks|..] ==
      t.store.blocks[|s.store.blocks|..] + u.store.blocks[|t.store.blocks|..]
  {
    SliceJoin(t.store.blocks, u.store.blocks, |s.store.blocks|);
    SliceJoin(t.log, u.log, |s.log|);
  }

  lemma ConservesTransitive(s: System, t: System, u: System)
    requires Extends(s, t) && Extends(t, u) && Conserves(s, t) && Conserves(t, u)
    ensures Extends(s, u) && Conserves(s, u)
  {
    hide Extends, Delivered;
    ExtendsTransitive(s, t, u);
    var front, back := t.store.blocks[|s.store.blocks|..], u.store.blocks[|t.store.blocks|..];
    var x, y := t.log[|s.log|..], u.log[|t.log|..];
    DeliveredConcat(front, back);
    Balance(
      multiset(s.store.pool), multiset(x), multiset(Delivered(front)), multiset(t.store.pool),
      multiset(y), multiset(Delivered(back)), multiset(u.store.pool));
    assert multiset(x + y) == multiset(x) + multiset(y);
  }

  lemma LaterTransitive(s: System, t: System, u: System)
    requires Later(s, t) && Later(t, u)
    ensures Later(s, u)
  {
    hide Conserves;
    ExtendsTransitive(s, t, u);
    ConservesTransitive(s, t, u);
  }

  lemma SameIsLater(s: System, t: System)
    requires t.store.blocks == s.store.blocks && t.store.pool == s.store.pool && t.log == s.log
    ensures Later(s, t)
  {
    LaterReflexive(s);
  }

  lemma AddIsLater(env: Env, s: System, e: Event, now: Timestamp, writeOk: bool)
    requires Inv(env, s) && Admissible(env, s, Add(e, now, writeOk))
    ensures Later(s, NextAdd(s, e, writeOk))
  {
    hide Inv, Admissible;
    var t := NextAdd(s, e, writeOk);
    if writeOk {
      hide NextAdd;
      AddedIsPending(env, s, e, now);
      assert t.store.blocks[|s.store.blocks|..] == [];
      assert t.log[|s.log|..] == [e];
    } else {
      SameIsLater(s, t);
    }
  }

  lemma CandidatePrefix(b: Block, blocks: seq<Block>, pool: seq<Event>, threshold: int)
    requires blocks != [] && IsGenesis(blocks[0]) && CandidateOk(b, blocks, pool, threshold)
    ensures |b.events| <= |pool| && b.events == pool[..|b.events|]
  {
  }

  lemma DeliveredOne(b: Block)
    ensures Delivered([b]) == b.events + [b.HeaderEvent()]
  {
    assert Init([b]) == [] && Last([b]) == b;
  }

  lemma CommitIsLater(env: Env, s: System, writeOk: bool)
    requires Inv(env, s)
    ensures Later(s, NextCommit(env, s, writeOk))
  {
    hide Delivered, HistoryOk, IsGenesis, Shows, MakerOk, CandidatesOk, RegistryOk, Loaded, ApplyBlock;
    var t := NextCommit(env, s, writeOk);
    if writeOk && s.maker.Registered? {
      hide NextCommit, CandidateOk, LatestSnapshot, ApplyBlock;
      CommitResult(env, s);
      var b, pool := s.maker.b, s.store.pool;
      CandidatePrefix(b, s.store.blocks, pool, ThresholdOf(env, s));
      assert t.store.blocks[|s.store.blocks|..] == [b];
      assert t.log[|s.log|..] == [b.HeaderEvent()];
      DeliveredOne(b);
      assert pool == b.events + pool[|b.events|..];
    } else {
      SameIsLater(s, t);
    }
  }

  lemma NextIsLater(env: Env, s: System, step: Step)
    requires Inv(env, s) && Admissible(env, s, step)
    ensures Later(s, Next(env, s, step))
  {
    hide Inv, Later, NextAdd, NextCommit, Admissible, Loaded;
    match step {
      case Add(e, now, writeOk) => AddIsLater(env, s, e, now, writeOk);
      case Commit(writeOk) => CommitIsLater(env, s, writeOk);
      case _ => SameIsLater(s, Next(env, s, step));
    }
  }

  lemma {:induction false} RunIsLater(env: Env, s: System, steps: seq<Step>)
    requires Inv(env, s) && AdmissibleRun(env, s, steps)
    ensures Inv(env, Run(env, s, steps)) && Later(s, Run(env, s, steps))
  {
    hide Inv, Later, Next, Admissible;
    if steps == [] {
      LaterReflexive(s);
    } else {
      var init := Init(steps);
      assert forall i :: 0 <= i < |init| ==> init[..i] == steps[..i] && init[i] == steps[i];
      assert steps[..|steps| - 1] == init;
      RunIsLater(env, s, init);
      var t := Run(env, s, init);
      NextIsLater(env, t, Last(steps));
      NextKeeps(env, t, Last(steps));
      LaterTransitive(s, t, Next(env, t, Last(steps)));
    }
  }

  // ---------- resuming ----------

  /** Where the cookie's generation is found in the view. */
  lemma IndexInWindow(v: View, blocks: seq<Block>, pool: seq<Event>, threshold: int, num: int)
    requires Chain(blocks, threshold) && Window(v, blocks, pool) && 0 <= num < |blocks|
    ensures var start := |blocks| - |v.blocks|;
      IndexOfBlock(v, num) == if start <= num then Ok(num - start) else Err(InvalidArgument)
  {
    hide Chain;
    NumbersAreIndices(blocks, threshold);
  }

  ghost predicate NoHeaders(es: seq<Event>) {
    forall i :: 0 <= i < |es| ==> !es[i].IsHeader()
  }

  lemma {:induction false} PlainStays(es: seq<Event>)
    requires NoHeaders(es)
    ensures WithoutHeaders(es) == es
  {
    if es != [] {
      var init, last := Init(es), Last(es);
      assert es == init + [last];
      assert forall i :: 0 <= i < |init| ==> init[i] == es[i];
      PlainStays(init);
    }
  }

  lemma {:induction false} WithoutConcat(a: seq<Event>, b: seq<Event>)
    ensures WithoutHeaders(a + b) == WithoutHeaders(a) + WithoutHeaders(b)
  {
    if b == [] {
      assert a + b == a;
    } else {
      assert Init(a + b) == a + Init(b) && Last(a + b) == Last(b);
      WithoutConcat(a, Init(b));
    }
  }

  lemma HeaderGoes(b: Block)
    ensures WithoutHeaders([b.HeaderEvent()]) == []
  {
    assert Init([b.HeaderEvent()]) == [];
  }

  lemma {:induction false} DeliveredPlain(blocks: seq<Block>)
    requires forall i :: 0 <= i < |blocks| ==> NoHeaders(blocks[i].events)
    ensures WithoutHeaders(Delivered(blocks)) == AllEvents(blocks)
  {
    hide WithoutHeaders;
    if blocks != [] {
      var init, last := Init(blocks), Last(blocks);
      assert forall i :: 0 <= i < |init| ==> init[i] == blocks[i];
      assert blocks[|blocks| - 1] == last;
      DeliveredPlain(init);
      WithoutConcat(Delivered(init) + last.events, [last.HeaderEvent()]);
      WithoutConcat(Delivered(init), last.events);
      PlainStays(last.events);
      HeaderGoes(last);
    } else {
      PlainStays([]);
    }
  }

  lemma {:induction false} DeliveredLength(blocks: seq<Block>)
    ensures |Delivered(blocks)| == Count(blocks)
  {
    if blocks != [] {
      DeliveredLength(Init(blocks));
    }
  }

  /** Block `i` in what is delivered: its events, then its header. */
  ghost predicate BlockAt(es: seq<Event>, blocks: seq<Block>, i: nat)
    requires i < |blocks|
  {
    var b, n := blocks[i], Count(blocks[..i + 1]);
    && |b.events| < n <= |es| && es[n - 1] == b.HeaderEvent()
    && es[n - 1 - |b.events|..n - 1] == b.events
  }

  lemma Middle<T>(a: seq<T>, es: seq<T>, h: T, rest: seq<T>)
    ensures
      var whole := a + (es + [h]) + rest;
      |whole| > |a| + |es| && whole[|a| + |es|] == h && whole[|a|..|a| + |es|] == es
  {
  }

  lemma Grouped<T>(a: seq<T>, b: seq<T>, c: seq<T>, d: seq<T>)
    ensures a + b + c + d == a + b + (c + d)
  {
  }

  lemma DeliveredSplit(blocks: seq<Block>, pool: seq<Event>, i: nat)
    requires i < |blocks|
    ensures Delivered(blocks) + pool ==
      Delivered(blocks[..i]) + (blocks[i].events + [blocks[i].HeaderEvent()]) + (Delivered(blocks[i + 1..]) + pool)
    ensures Count(blocks[..i + 1]) == |Delivered(blocks[..i])| + |blocks[i].events| + 1
  {
    hide Delivered, Count;
    var b, front, part, rest := blocks[i], blocks[..i], blocks[..i + 1], blocks[i + 1..];
    assert blocks == part + rest && part == front + [b];
    DeliveredConcat(part, rest);
    DeliveredConcat(front, [b]);
    DeliveredOne(b);
    DeliveredLength(part);
    Grouped(Delivered(front), b.events + [b.HeaderEvent()], Delivered(rest), pool);
  }

  lemma DeliveredAt(blocks: seq<Block>, pool: seq<Event>, i: nat)
    requires i < |blocks|
    ensures BlockAt(Delivered(blocks) + pool, blocks, i)
  {
    hide Delivered, Count;
    DeliveredSplit(blocks, pool, i);
    Middle(Delivered(blocks[..i]), blocks[i].events, blocks[i].HeaderEvent(), Delivered(blocks[i + 1..]) + pool);
  }

  /** The events of the blocks and the pool in this order, each block's header right after its events. */
  ghost predicate InOrder(es: seq<Event>, blocks: seq<Block>, pool: seq<Event>) {
    WithoutHeaders(es) == AllEvents(blocks) + pool && forall i :: 0 <= i < |blocks| ==> BlockAt(es, blocks, i)
  }

  lemma DeliveredInOrder(blocks: seq<Block>, pool: seq<Event>)
    requires (forall i :: 0 <= i < |blocks| ==> NoHeaders(blocks[i].events)) && NoHeaders(pool)
    ensures InOrder(Delivered(blocks) + pool, blocks, pool)
  {
    hide Delivered, BlockAt, WithoutHeaders, AllEvents, NoHeaders;
    DeliveredPlain(blocks);
    WithoutConcat(Delivered(blocks), pool);
    PlainStays(pool);
    forall i | 0 <= i < |blocks| ensures BlockAt(Delivered(blocks) + pool, blocks, i) {
      DeliveredAt(blocks, pool, i);
    }
  }

  lemma {:induction false} StrictFoldPlain(s: Snapshot, es: seq<Event>, firstNum: int)
    requires StrictFold(s, es, firstNum).Updated?
    ensures NoHeaders(es)
  {
    hide UpdateContent, UpdateMembers;
    if es != [] {
      var init := es[..|es| - 1];
      StrictFoldPlain(s, init, firstNum);
      assert forall i :: 0 <= i < |init| ==> init[i] == es[i];
    }
  }

  /** No block of a chain holds a header among its events. */
  lemma ChainPlain(blocks: seq<Block>, threshold: int, i: nat)
    requires Chain(blocks, threshold) && i < |blocks|
    ensures NoHeaders(blocks[i].events)
  {
    hide FoldEvents, Replay, Hashes, UpdateContent, UpdateMembers;
    if i == 0 {
      ChainPrefix(blocks, threshold, 1);
      var es := blocks[0].events;
      StrictFoldPlain(Initial(es[0]).value, es[1..], 1);
      assert forall j :: 0 < j < |es| ==> es[j] == es[1..][j - 1];
    } else {
      hide GenesisSnapshot, Chain;
      ChainPrefix(blocks, threshold, i);
      assert forall j :: 0 <= j < |blocks[i].events| ==> blocks[i].events[j] in blocks[i].events;
    }
  }

  lemma HistoryPlain(blocks: seq<Block>, pool: seq<Event>, threshold: int)
    requires HistoryOk(blocks, pool, threshold)
    ensures forall i :: 0 <= i < |blocks| ==> NoHeaders(blocks[i].events)
    ensures NoHeaders(pool)
  {
    hide Chain, IsGenesis, Distinct, AddedEvents, RefersTo;
    forall i | 0 <= i < |blocks| ensures NoHeaders(blocks[i].events) {
      ChainPlain(blocks, threshold, i);
    }
    assert forall j :: 0 <= j < |pool| ==> pool[j] in pool;
  }

  /** A response to cookie `c` when `pending` was the pool at the cookie and `sent` everything sent since. */
  ghost predicate Resumed(
    env: Env, c: Cookie, pending: seq<Event>, sent: seq<Event>, v: View, blocks: seq<Block>, pool: seq<Event>)
    requires v.blocks != [] && 0 <= v.snapshotIndex < |v.blocks|
    requires blocks != [] && IsGenesis(blocks[0])
  {
    var r := FirstResponse(env, v, c);
    var start := |blocks| - |v.blocks|;
    && r.Some? && r.value.cookie == SyncCookie(v, env.node)
    && (c.generation == v.generation ==> r.value.events == sent && !r.value.reset)
    && (c.generation != v.generation && 0 <= start <= c.generation <= |blocks| ==>
          && !r.value.reset && multiset(r.value.events) == multiset(pending) + multiset(sent)
          && InOrder(r.value.events, blocks[c.generation..], pool))
    && (c.generation < start ==>
          && r.value.reset && r.value.events == pool
          && |r.value.blocks| == BlocksSince(blocks) + 1 <= |blocks|
          && r.value.blocks == blocks[|blocks| - |r.value.blocks|..]
          && r.value.blocks[0].header.snapshot.Some?
          && FoldTail(r.value.blocks[0].header.snapshot.value, r.value.blocks[1..]) == Replay(blocks))
  }

  lemma ResumeSame(env: Env, c: Cookie, pending: seq<Event>, sent: seq<Event>, v: View, blocks: seq<Block>)
    requires blocks != [] && IsGenesis(blocks[0]) && Window(v, blocks, pending + sent)
    requires c.node == env.node && c.streamId == v.streamId && c.generation == |blocks| && c.slot == |pending|
    ensures Resumed(env, c, pending, sent, v, blocks, pending + sent)
  {
    hide IsGenesis, FoldTail, Replay, EventsFrom, IndexOfBlock, InOrder, BlocksSince;
    assert (pending + sent)[|pending|..] == sent;
  }

  lemma ResumeWindow(
    env: Env, c: Cookie, pending: seq<Event>, sent: seq<Event>, v: View, blocks: seq<Block>, pool: seq<Event>,
    threshold: int)
    requires Chain(blocks, threshold) && Window(v, blocks, pool)
    requires c.node == env.node && c.streamId == v.streamId && 0 <= c.slot
    requires |blocks| - |v.blocks| <= c.generation < |blocks|
    requires multiset(pending) + multiset(sent) == multiset(Delivered(blocks[c.generation..])) + multiset(pool)
    requires (forall i :: 0 <= i < |blocks| ==> NoHeaders(blocks[i].events)) && NoHeaders(pool)
    ensures Resumed(env, c, pending, sent, v, blocks, pool)
  {
    hide IsGenesis, FoldTail, Replay, IndexOfBlock, Delivered, Chain, InOrder, NoHeaders, BlocksSince;
    IndexInWindow(v, blocks, pool, threshold, c.generation);
    var i, later := c.generation - (|blocks| - |v.blocks|), blocks[c.generation..];
    assert v.blocks[i..] == later;
    assert forall k :: 0 <= k < |later| ==> later[k] == blocks[c.generation + k];
    DeliveredInOrder(later, pool);
  }

  lemma ResumeReset(
    env: Env, c: Cookie, pending: seq<Event>, sent: seq<Event>, v: View, blocks: seq<Block>, pool: seq<Event>,
    threshold: int)
    requires Chain(blocks, threshold) && Window(v, blocks, pool)
    requires c.node == env.node && c.streamId == v.streamId && 0 <= c.slot
    requires 0 <= c.generation < |blocks| - |v.blocks| && Base(v, blocks) == LatestSnapshot(blocks)
    ensures Resumed(env, c, pending, sent, v, blocks, pool)
  {
    hide IsGenesis, FoldTail, Replay, IndexOfBlock, EventsFrom, Chain, InOrder, BlocksSince;
    IndexInWindow(v, blocks, pool, threshold, c.generation);
    WindowReplay(v, blocks, pool, threshold);
    assert v.blocks[v.snapshotIndex..][1..] == v.blocks[v.snapshotIndex + 1..];
    assert v.blocks[v.snapshotIndex..] == blocks[Base(v, blocks)..];
  }

  lemma ResumeCases(env: Env, s: System, t: System)
    requires Inv(env, s) && s.view.Some? && Inv(env, t) && Later(s, t)
    ensures s.view.value.blocks != []
    ensures var v := Loaded(t);
      && v.Some? && v.value.blocks != [] && 0 <= v.value.snapshotIndex < |v.value.blocks|
      && Resumed(env, SyncCookie(s.view.value, env.node), s.store.pool, t.log[|s.log|..], v.value,
                 t.store.blocks, t.store.pool)
  {
    hide IsGenesis, Delivered, MakerOk, CandidatesOk, RegistryOk, LatestSnapshot, Resumed, Chain, NoHeaders;
    LoadShows(env, t);
    var v, blocks, pool := Loaded(t).value, t.store.blocks, t.store.pool;
    assert s.store.blocks[0] == blocks[0];
    var c := SyncCookie(s.view.value, env.node);
    var pending, sent := s.store.pool, t.log[|s.log|..];
    if c.generation == |blocks| {
      ResumeSame(env, c, pending, sent, v, blocks);
    } else if |blocks| - |v.blocks| <= c.generation {
      HistoryPlain(blocks, pool, ThresholdOf(env, t));
      ResumeWindow(env, c, pending, sent, v, blocks, pool, ThresholdOf(env, t));
    } else {
      ResumeReset(env, c, pending, sent, v, blocks, pool, ThresholdOf(env, t));
    }
  }

  /**
   * Resuming with a cookie issued anywhere earlier in a run. If no block was made since, exactly the envelopes sent
   * since are delivered, in order. If the cookie's block is still in the window, the delivery is exactly what was
   * pending at the cookie plus everything sent since, in the order of the chain. Otherwise it is a reset whose blocks
   * start with the latest snapshot and replay, with the pool, to the present.
   */
  lemma ResumeDelivers(env: Env, s: System, steps: seq<Step>)
    requires Inv(env, s) && s.view.Some? && AdmissibleRun(env, s, steps)
    ensures s.view.value.blocks != []
    ensures var t := Run(env, s, steps); var v := Loaded(t);
      && t.store.blocks != [] && IsGenesis(t.store.blocks[0]) && |s.log| <= |t.log|
      && v.Some? && v.value.blocks != [] && 0 <= v.value.snapshotIndex < |v.value.blocks|
      && Resumed(env, SyncCookie(s.view.value, env.node), s.store.pool, t.log[|s.log|..], v.value,
                 t.store.blocks, t.store.pool)
  {
    hide AdmissibleRun, Loaded, Run, IsGenesis, Resumed, HistoryOk, MakerOk, CandidatesOk, RegistryOk, Shows;
    RunIsLater(env, s, steps);
    ResumeCases(env, s, Run(env, s, steps));
  }
}
