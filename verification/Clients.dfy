/**
 * A client that subscribes, receives live notifications, is cut off at any time, and resumes with the last cookie it
 * was given. It never misses an event.
 */
module Clients {
  import opened Wrappers
  import opened Messages
  import opened Chains
  import opened Views
  import opened Engine
  import opened EngineProofs
  import opened EngineTheorems
  import opened Sync

  /**
   * `base` is the block whose snapshot the client started from or was last reset to, `seen` every envelope received
   * since, in the order received. `held` and `pending` are the chain length and the pool when the cookie was issued.
   */
  datatype Client = Client(
    id: nat, live: bool, cookie: Cookie, base: nat, seen: seq<Event>, held: nat, pending: seq<Event>)

  /** A client that fetched the stream: the blocks from the latest snapshot, the pool, and a cookie. */
  function Fetched(env: Env, id: nat, v: View): Client
    requires v.blocks != [] && 0 <= v.snapshotIndex < |v.blocks|
  {
    Client(id, false, SyncCookie(v, env.node), Max(0, v.generation - |v.blocks| + v.snapshotIndex),
           Delivered(v.blocks[v.snapshotIndex..]) + v.pool, Max(0, v.generation), v.pool)
  }

  /** The first response: a reset replaces what the client has, anything else adds to it. */
  function Resume(env: Env, c: Client, v: View): Client
    requires v.blocks != [] && 0 <= v.snapshotIndex < |v.blocks|
  {
    match FirstResponse(env, v, c.cookie)
    case None => c
    case Some(r) =>
      if r.reset then Fetched(env, c.id, v).(live := true)
      else c.(live := true, cookie := r.cookie, seen := c.seen + r.events,
              held := Max(0, v.generation), pending := v.pool)
  }

  datatype ClientStep = Engine(step: Step) | Connect

  /** What the client makes of an engine step: a notification carries one envelope and the new cookie. */
  function Notified(env: Env, c: Client, s: System, t: System): Client {
    if !c.live then c
    else if c.id !in t.receivers then c.(live := false)
    else if t.log != s.log && t.log != [] && t.view.Some? && t.view.value.blocks != [] then
      c.(cookie := SyncCookie(t.view.value, env.node), seen := c.seen + [Last(t.log)],
         held := |t.store.blocks|, pending := t.store.pool)
    else c
  }

  function ClientNext(env: Env, s: System, c: Client, step: ClientStep): (System, Client) {
    match step
    case Engine(st) => var t := Next(env, s, st); (t, Notified(env, c, s, t))
    case Connect =>
      var v := Loaded(s);
      if v.Some? && 0 <= v.value.snapshotIndex < |v.value.blocks|
      then (NextSubscribe(env, s, c.id, c.cookie), Resume(env, c, v.value)) else (s, c)
  }

  function ClientRun(env: Env, s: System, c: Client, steps: seq<ClientStep>): (System, Client) {
    if steps == [] then (s, c)
    else var p := ClientRun(env, s, c, Init(steps)); ClientNext(env, p.0, p.1, Last(steps))
  }

  ghost predicate AdmissibleSteps(env: Env, s: System, c: Client, steps: seq<ClientStep>) {
    forall i :: 0 <= i < |steps| && steps[i].Engine? ==>
      Admissible(env, ClientRun(env, s, c, steps[..i]).0, steps[i].step)
  }

  // ---------- what was received, in order ----------

  /** The first occurrence of everything: what was new when it was received. */
  function Firsts(es: seq<Event>): (r: seq<Event>)
    ensures forall e :: e in r <==> e in es
  {
    if es == [] then []
    else
      assert es == Init(es) + [Last(es)];
      if Last(es) in Init(es) then Firsts(Init(es)) else Firsts(Init(es)) + [Last(es)]
  }

  function OnlyHeaders(es: seq<Event>): seq<Event> {
    if es == [] then [] else OnlyHeaders(Init(es)) + if Last(es).IsHeader() then [Last(es)] else []
  }

  function HeadersOf(blocks: seq<Block>): seq<Event> {
    seq(|blocks|, i requires 0 <= i < |blocks| => blocks[i].HeaderEvent())
  }

  lemma {:induction false} FirstsCongruent(a: seq<Event>, b: seq<Event>, c: seq<Event>)
    requires Firsts(a) == Firsts(b)
    ensures Firsts(a + c) == Firsts(b + c)
  {
    if c == [] {
      assert a + c == a && b + c == b;
    } else {
      var init, last := Init(c), Last(c);
      assert Init(a + c) == a + init && Init(b + c) == b + init && Last(a + c) == Last(b + c) == last;
      FirstsCongruent(a, b, init);
      assert last in a + init <==> last in Firsts(a + init);
      assert last in b + init <==> last in Firsts(b + init);
    }
  }

  lemma {:induction false} FirstsKnown(a: seq<Event>, b: seq<Event>)
    requires forall e :: e in b ==> e in a
    ensures Firsts(a + b) == Firsts(a)
  {
    if b == [] {
      assert a + b == a;
    } else {
      assert b == Init(b) + [Last(b)];
      assert Init(a + b) == a + Init(b) && Last(a + b) == Last(b);
      FirstsKnown(a, Init(b));
    }
  }

  /** Receiving again what is known, then something more, is receiving that alone. */
  lemma FirstsAgain(a: seq<Event>, b: seq<Event>, c: seq<Event>)
    requires forall e :: e in b ==> e in a
    ensures Firsts(a + (b + c)) == Firsts(a + c)
  {
    FirstsKnown(a, b);
    FirstsCongruent(a + b, a, c);
    assert a + b + c == a + (b + c);
  }

  lemma {:induction false} FirstsDistinct(es: seq<Event>)
    requires Distinct(es)
    ensures Firsts(es) == es
  {
    if es != [] {
      var init, last := Init(es), Last(es);
      assert es == init + [last];
      assert forall i :: 0 <= i < |init| ==> init[i] == es[i] != es[|es| - 1];
      FirstsDistinct(init);
    }
  }

  lemma {:induction false} OnlyConcat(a: seq<Event>, b: seq<Event>)
    ensures OnlyHeaders(a + b) == OnlyHeaders(a) + OnlyHeaders(b)
  {
    if b == [] {
      assert a + b == a;
    } else {
      assert Init(a + b) == a + Init(b) && Last(a + b) == Last(b);
      OnlyConcat(a, Init(b));
    }
  }

  lemma {:induction false} OnlyNone(es: seq<Event>)
    requires NoHeaders(es)
    ensures OnlyHeaders(es) == []
  {
    if es != [] {
      assert forall i :: 0 <= i < |Init(es)| ==> Init(es)[i] == es[i];
      OnlyNone(Init(es));
    }
  }

  lemma OneEnvelope(e: Event)
    ensures OnlyHeaders([e]) == (if e.IsHeader() then [e] else [])
    ensures WithoutHeaders([e]) == if e.IsHeader() then [] else [e]
  {
    assert Init([e]) == [];
  }

  ghost predicate AllPlain(blocks: seq<Block>) {
    forall i :: 0 <= i < |blocks| ==> NoHeaders(blocks[i].events)
  }

  lemma HeadersOfSnoc(blocks: seq<Block>)
    requires blocks != []
    ensures HeadersOf(blocks) == HeadersOf(Init(blocks)) + [Last(blocks).HeaderEvent()]
  {
  }

  lemma NoBlocks()
    ensures OnlyHeaders(Delivered([])) == HeadersOf([])
  {
  }

  lemma DeliveredSnoc(blocks: seq<Block>)
    requires blocks != [] && NoHeaders(Last(blocks).events)
    ensures OnlyHeaders(Delivered(blocks)) == OnlyHeaders(Delivered(Init(blocks))) + [Last(blocks).HeaderEvent()]
  {
    hide OnlyHeaders, NoHeaders;
    var init, last := Delivered(Init(blocks)), Last(blocks);
    OnlyConcat(init + last.events, [last.HeaderEvent()]);
    OnlyConcat(init, last.events);
    OnlyNone(last.events);
    OneEnvelope(last.HeaderEvent());
  }

  lemma {:induction false} DeliveredHeaders(blocks: seq<Block>)
    requires AllPlain(blocks)
    ensures OnlyHeaders(Delivered(blocks)) == HeadersOf(blocks)
  {
    hide OnlyHeaders, NoHeaders, HeadersOf, Delivered;
    if blocks == [] {
      NoBlocks();
    } else {
      var init := Init(blocks);
      assert forall i :: 0 <= i < |init| ==> init[i] == blocks[i];
      DeliveredHeaders(init);
      HeadersOfSnoc(blocks);
      DeliveredSnoc(blocks);
    }
  }

  /** What the delivery of some blocks and the pool holds. */
  lemma DeliveryParts(blocks: seq<Block>, pool: seq<Event>)
    requires AllPlain(blocks) && NoHeaders(pool)
    ensures WithoutHeaders(Delivered(blocks) + pool) == AllEvents(blocks) + pool
    ensures OnlyHeaders(Delivered(blocks) + pool) == HeadersOf(blocks)
  {
    hide Delivered, WithoutHeaders, OnlyHeaders, AllEvents, HeadersOf, NoHeaders;
    DeliveredPlain(blocks);
    DeliveredHeaders(blocks);
    WithoutConcat(Delivered(blocks), pool);
    OnlyConcat(Delivered(blocks), pool);
    PlainStays(pool);
    OnlyNone(pool);
  }

  // ---------- the invariant ----------

  /** What was new came in the order of the chain, from the base block up to the cookie; so did the headers. */
  ghost predicate Received(c: Client, blocks: seq<Block>)
    requires c.base <= c.held <= |blocks|
  {
    && Firsts(WithoutHeaders(c.seen)) == Firsts(AllEvents(blocks[c.base..c.held]) + c.pending)
    && OnlyHeaders(c.seen) == HeadersOf(blocks[c.base..c.held])
  }

  ghost predicate ClientOk(env: Env, s: System, c: Client) {
    var blocks := s.store.blocks;
    && blocks != [] && IsGenesis(blocks[0])
    && c.base < c.held <= |blocks| && blocks[c.base].header.snapshot.Some?
    && c.cookie == Cookie(env.node, StreamIdOf(blocks), c.held, |c.pending|, blocks[c.held - 1].Hash())
    && Received(c, blocks)
    && c.pending <= AllEvents(blocks[c.held..]) + s.store.pool
    && (c.live ==> c.id in s.receivers && c.held == |blocks| && c.pending == s.store.pool)
  }

  lemma NothingLater(blocks: seq<Block>, pool: seq<Event>)
    ensures AllEvents(blocks[|blocks|..]) + pool == pool
  {
    assert blocks[|blocks|..] == [];
  }

  lemma FetchedOk(env: Env, s: System, id: nat)
    requires Inv(env, s)
    ensures Loaded(s).Some? && 0 <= Loaded(s).value.snapshotIndex < |Loaded(s).value.blocks|
    ensures ClientOk(env, s, Fetched(env, id, Loaded(s).value))
    ensures Fetched(env, id, Loaded(s).value).held == |s.store.blocks|
    ensures Fetched(env, id, Loaded(s).value).pending == s.store.pool
  {
    hide IsGenesis, Delivered, HistoryOk, MakerOk, CandidatesOk, RegistryOk, LatestSnapshot, Loaded;
    hide WithoutHeaders, OnlyHeaders, AllEvents, HeadersOf, NoHeaders, Firsts;
    LoadShows(env, s);
    var v, blocks := Loaded(s).value, s.store.blocks;
    var c := Fetched(env, id, v);
    assert blocks[c.base] == v.blocks[v.snapshotIndex];
    var part := blocks[c.base..c.held];
    assert part == v.blocks[v.snapshotIndex..];
    assert Last(v.blocks) == blocks[c.held - 1];
    HistoryPlain(blocks, s.store.pool, ThresholdOf(env, s));
    assert forall i :: 0 <= i < |part| ==> part[i] == blocks[c.base + i];
    DeliveryParts(part, s.store.pool);
    NothingLater(blocks, s.store.pool);
  }

  lemma ShowsTip(cfg: Config, v: View, blocks: seq<Block>, pool: seq<Event>)
    requires blocks != [] && IsGenesis(blocks[0]) && Shows(cfg, v, blocks, pool)
    ensures v.blocks != [] && Last(v.blocks) == Last(blocks) && v.pool == pool && v.generation == |blocks|
    ensures v.streamId == StreamIdOf(blocks)
  {
    hide IsGenesis, LatestSnapshot;
  }

  /** The client goes on from what it had, with the present cookie. */
  ghost predicate GoesOn(env: Env, c: Client, d: Client, v: View)
    requires v.blocks != []
  {
    && d.live && d.id == c.id && d.base == c.base && d.held == Max(0, v.generation)
    && d.pending == v.pool && d.cookie == SyncCookie(v, env.node)
  }

  /** Receiving envelopes whose events, added to what the client knows, make up what it should know. */
  lemma ReceivedMore(c: Client, d: Client, blocks: seq<Block>, es: seq<Event>)
    requires c.base <= c.held <= d.held <= |blocks| && Received(c, blocks)
    requires d.base == c.base && d.seen == c.seen + es
    requires OnlyHeaders(es) == HeadersOf(blocks[c.held..d.held])
    requires
      var known := AllEvents(blocks[c.base..c.held]) + c.pending;
      Firsts(known + WithoutHeaders(es)) == Firsts(AllEvents(blocks[c.base..d.held]) + d.pending)
    ensures Received(d, blocks)
  {
    hide Firsts, WithoutHeaders, OnlyHeaders, AllEvents;
    var known := AllEvents(blocks[c.base..c.held]) + c.pending;
    WithoutConcat(c.seen, es);
    OnlyConcat(c.seen, es);
    FirstsCongruent(WithoutHeaders(c.seen), known, WithoutHeaders(es));
    assert HeadersOf(blocks[c.base..d.held]) == HeadersOf(blocks[c.base..c.held]) + HeadersOf(blocks[c.held..d.held]);
  }

  lemma Nothing(blocks: seq<Block>)
    ensures AllEvents(blocks[|blocks|..]) == [] && HeadersOf(blocks[|blocks|..]) == []
  {
    assert blocks[|blocks|..] == [];
  }

  lemma ResumedSame(env: Env, c: Client, v: View, blocks: seq<Block>, pool: seq<Event>)
    requires Window(v, blocks, pool) && c.base <= c.held == |blocks| && Received(c, blocks)
    requires c.pending <= pool && NoHeaders(pool)
    requires c.cookie.node == env.node && c.cookie.streamId == v.streamId
    requires c.cookie.generation == c.held && c.cookie.slot == |c.pending|
    ensures var d := Resume(env, c, v); GoesOn(env, c, d, v) && Received(d, blocks)
  {
    hide Received, IndexOfBlock, EventsFrom, AllEvents, Firsts, WithoutHeaders, OnlyHeaders, HeadersOf;
    var rest := pool[|c.pending|..];
    var events := AllEvents(blocks[c.base..c.held]);
    assert pool == c.pending + rest;
    assert events + c.pending + rest == events + pool;
    assert NoHeaders(rest);
    PlainStays(rest);
    OnlyNone(rest);
    Nothing(blocks);
    assert blocks[c.held..c.held] == blocks[|blocks|..];
    ReceivedMore(c, Resume(env, c, v), blocks, rest);
  }

  /** The delivery repeats what was pending at the cookie, then goes on. */
  lemma WindowFirsts(blocks: seq<Block>, base: nat, held: nat, pending: seq<Event>, pool: seq<Event>)
    requires base <= held <= |blocks| && pending <= AllEvents(blocks[held..]) + pool
    ensures
      var known := AllEvents(blocks[base..held]) + pending;
      Firsts(known + (AllEvents(blocks[held..]) + pool)) == Firsts(AllEvents(blocks[base..]) + pool)
  {
    hide Firsts, AllEvents;
    var events, more := AllEvents(blocks[base..held]), AllEvents(blocks[held..]) + pool;
    var rest := more[|pending|..];
    assert more == pending + rest;
    assert blocks[base..] == blocks[base..held] + blocks[held..];
    AllEventsConcat(blocks[base..held], blocks[held..]);
    assert events + AllEvents(blocks[held..]) + pool == events + more;
    assert events + (pending + rest) == events + pending + rest;
    FirstsAgain(events + pending, pending, rest);
  }

  lemma ResumedInWindow(env: Env, c: Client, v: View, blocks: seq<Block>, pool: seq<Event>)
    requires Window(v, blocks, pool) && c.base <= c.held < |blocks| && Received(c, blocks)
    requires c.pending <= AllEvents(blocks[c.held..]) + pool && AllPlain(blocks) && NoHeaders(pool)
    requires c.cookie.node == env.node && c.cookie.streamId == v.streamId
    requires c.cookie.generation == c.held && 0 <= c.cookie.slot
    requires |blocks| - |v.blocks| <= c.held && IndexOfBlock(v, c.held) == Ok(c.held - (|blocks| - |v.blocks|))
    ensures var d := Resume(env, c, v); GoesOn(env, c, d, v) && Received(d, blocks)
  {
    hide Received, IndexOfBlock, Delivered, AllEvents, Firsts, WithoutHeaders, OnlyHeaders, HeadersOf, NoHeaders;
    var later := blocks[c.held..];
    assert v.blocks[c.held - (|blocks| - |v.blocks|)..] == later;
    assert forall i :: 0 <= i < |later| ==> later[i] == blocks[c.held + i];
    DeliveryParts(later, pool);
    WindowFirsts(blocks, c.base, c.held, c.pending, pool);
    assert blocks[c.held..|blocks|] == later && blocks[c.base..|blocks|] == blocks[c.base..];
    ReceivedMore(c, Resume(env, c, v), blocks, Delivered(later) + pool);
  }

  lemma ResumedByReset(env: Env, c: Client, v: View, n: nat)
    requires v.blocks != [] && 0 <= v.snapshotIndex < |v.blocks| && v.generation == n && c.held < n
    requires c.cookie.node == env.node && c.cookie.streamId == v.streamId
    requires c.cookie.generation == c.held && 0 <= c.cookie.slot && IndexOfBlock(v, c.held).Err?
    ensures Resume(env, c, v) == Fetched(env, c.id, v).(live := true)
  {
    hide IndexOfBlock, Fetched;
  }

  lemma SameReceived(c: Client, d: Client, blocks: seq<Block>)
    requires c.base <= c.held <= |blocks| && Received(c, blocks)
    requires d.(live := false) == c.(live := false)
    ensures Received(d, blocks)
  {
  }

  lemma ResumeOk(env: Env, s: System, c: Client, v: View)
    requires Inv(env, s) && ClientOk(env, s, c) && Shows(env.cfg, v, s.store.blocks, s.store.pool)
    requires ClientOk(env, s, Fetched(env, c.id, v)) && Loaded(s) == Some(v)
    requires Fetched(env, c.id, v).held == |s.store.blocks| && Fetched(env, c.id, v).pending == s.store.pool
    ensures var d := Resume(env, c, v);
      && ClientOk(env, s.(receivers := s.receivers + {c.id}), d) && d.live
      && c.id in NextSubscribe(env, s, c.id, c.cookie).receivers
  {
    hide IsGenesis, HistoryOk, MakerOk, CandidatesOk, RegistryOk, LatestSnapshot, IndexOfBlock, Received, Loaded;
    hide FirstResponse, EventsFrom, AllEvents, NoHeaders, Delivered;
    var blocks, pool := s.store.blocks, s.store.pool;
    var start := |blocks| - |v.blocks|;
    ShowsTip(env.cfg, v, blocks, pool);
    HistoryPlain(blocks, pool, ThresholdOf(env, s));
    NothingLater(blocks, pool);
    if c.held == |blocks| {
      ResumedSame(env, c, v, blocks, pool);
    } else {
      var threshold := ThresholdOf(env, s);
      IndexInWindow(v, blocks, pool, threshold, c.held) by { HistoryChain(blocks, pool, threshold); }
      if start <= c.held {
        ResumedInWindow(env, c, v, blocks, pool);
      } else {
        ResumedByReset(env, c, v, |blocks|);
        var f := Fetched(env, c.id, v);
        SameReceived(f, f.(live := true), blocks);
      }
    }
  }

  lemma ConnectOk(env: Env, s: System, c: Client)
    requires Inv(env, s) && ClientOk(env, s, c)
    ensures var p := ClientNext(env, s, c, Connect);
      Inv(env, p.0) && ClientOk(env, p.0, p.1) && p.1.live && p.0.store == s.store
  {
    hide IsGenesis, HistoryOk, MakerOk, CandidatesOk, RegistryOk, LatestSnapshot, Loaded, FirstResponse, Received;
    hide Fetched, Shows;
    FetchedOk(env, s, c.id);
    LoadShows(env, s);
    SubscribeKeeps(env, s, c.id, c.cookie);
    ResumeOk(env, s, c, Loaded(s).value);
  }

  // ---------- engine steps ----------

  /** Between the states of one step the chain and log grow by at most one entry. */
  ghost predicate Advances(s: System, t: System) {
    || (t.store.blocks == s.store.blocks && t.store.pool == s.store.pool && t.log == s.log)
    || (exists e :: t.store.blocks == s.store.blocks && t.store.pool == s.store.pool + [e] && t.log == s.log + [e])
    || (exists b :: t.store.blocks == s.store.blocks + [b] && b.events + t.store.pool == s.store.pool
                    && t.log == s.log + [b.HeaderEvent()])
  }

  lemma AddAdvances(env: Env, s: System, e: Event, now: Timestamp, writeOk: bool)
    requires Inv(env, s) && Admissible(env, s, Add(e, now, writeOk))
    ensures var t := NextAdd(s, e, writeOk);
      Advances(s, t) && (t.log != s.log ==> t.view.Some? && t.receivers == s.receivers)
  {
    hide Inv, Loaded, Admissible;
    if writeOk {
      hide NextAdd;
      AddedIsPending(env, s, e, now);
    }
  }

  lemma CommitAdvances(env: Env, s: System, writeOk: bool)
    requires Inv(env, s)
    ensures var t := NextCommit(env, s, writeOk);
      Advances(s, t) && (t.log != s.log ==> t.view.Some? && t.receivers == s.receivers)
  {
    hide IsGenesis, HistoryOk, Shows, MakerOk, CandidatesOk, RegistryOk, Loaded, ApplyBlock, CandidateOk;
    hide LatestSnapshot;
    var t := NextCommit(env, s, writeOk);
    if writeOk && s.maker.Registered? {
      assert t.receivers == s.receivers;
      hide NextCommit;
      CommitResult(env, s);
      var b, pool := s.maker.b, s.store.pool;
      CandidatePrefix(b, s.store.blocks, pool, ThresholdOf(env, s));
      assert b.events + t.store.pool == pool;
    }
  }

  lemma NextAdvances(env: Env, s: System, step: Step)
    requires Inv(env, s) && Admissible(env, s, step)
    ensures var t := Next(env, s, step);
      && Advances(s, t)
      && (t.log != s.log ==> t.view.Some? && t.receivers == s.receivers)
  {
    hide IsGenesis, HistoryOk, Shows, MakerOk, CandidatesOk, RegistryOk, Loaded, Admissible, NextAdd, NextCommit;
    var t := Next(env, s, step);
    match step {
      case Add(e, now, writeOk) =>
        AddAdvances(env, s, e, now, writeOk);
      case Commit(writeOk) => CommitAdvances(env, s, writeOk);
      case _ =>
    }
  }

  lemma PoolReceived(c: Client, d: Client, blocks: seq<Block>, e: Event)
    requires c.base <= c.held == |blocks| && Received(c, blocks) && !e.IsHeader()
    requires d.base == c.base && d.held == c.held && d.pending == c.pending + [e] && d.seen == c.seen + [e]
    ensures Received(d, blocks)
  {
    hide Received, AllEvents, Firsts, WithoutHeaders, OnlyHeaders, HeadersOf;
    OneEnvelope(e);
    Nothing(blocks);
    assert blocks[c.held..c.held] == blocks[|blocks|..];
    var events := AllEvents(blocks[c.base..c.held]);
    assert events + c.pending + [e] == events + d.pending;
    ReceivedMore(c, d, blocks, [e]);
  }

  lemma LongerReceived(c: Client, blocks: seq<Block>, b: Block)
    requires c.base <= c.held <= |blocks| && Received(c, blocks)
    ensures Received(c, blocks + [b])
  {
    hide Firsts, WithoutHeaders, OnlyHeaders, HeadersOf, AllEvents;
    assert (blocks + [b])[c.base..c.held] == blocks[c.base..c.held];
  }

  /** Moving the front of the pool into a block does not change the order of what comes after any block. */
  lemma FlatMoves(blocks: seq<Block>, b: Block, pool: seq<Event>, rest: seq<Event>)
    requires b.events + rest == pool
    ensures AllEvents(blocks + [b]) + rest == AllEvents(blocks) + pool
  {
    assert Init(blocks + [b]) == blocks && Last(blocks + [b]) == b;
    assert AllEvents(blocks) + b.events + rest == AllEvents(blocks) + (b.events + rest);
  }

  lemma HeadersOfOne(b: Block)
    ensures HeadersOf([b]) == [b.HeaderEvent()]
  {
  }

  /** The events of a new block were pending, so the header completes what the client has. */
  lemma BlockReceived(c: Client, d: Client, blocks: seq<Block>, b: Block)
    requires c.base <= c.held == |blocks| && Received(c, blocks)
    requires b.events + d.pending == c.pending
    requires d.base == c.base && d.held == |blocks| + 1 && d.seen == c.seen + [b.HeaderEvent()]
    ensures Received(d, blocks + [b])
  {
    hide Received, AllEvents, Firsts, WithoutHeaders, OnlyHeaders, HeadersOf;
    var longer := blocks + [b];
    LongerReceived(c, blocks, b);
    OneEnvelope(b.HeaderEvent());
    HeadersOfOne(b);
    assert longer[c.held..d.held] == [b];
    assert longer[c.base..d.held] == blocks[c.base..c.held] + [b] && longer[c.base..c.held] == blocks[c.base..c.held];
    FlatMoves(blocks[c.base..c.held], b, c.pending, d.pending);
    var known := AllEvents(blocks[c.base..c.held]) + c.pending;
    assert known + [] == known;
    ReceivedMore(c, d, longer, [b.HeaderEvent()]);
  }

  lemma StillPending(pending: seq<Event>, blocks: seq<Block>, held: nat, b: Block, pool: seq<Event>, rest: seq<Event>)
    requires held <= |blocks| && b.events + rest == pool && pending <= AllEvents(blocks[held..]) + pool
    ensures pending <= AllEvents((blocks + [b])[held..]) + rest
  {
    hide AllEvents;
    assert (blocks + [b])[held..] == blocks[held..] + [b];
    FlatMoves(blocks[held..], b, pool, rest);
  }

  lemma NotifiedAdd(env: Env, s: System, t: System, c: Client, e: Event)
    requires ClientOk(env, s, c) && Inv(env, t)
    requires t.store.blocks == s.store.blocks && t.store.pool == s.store.pool + [e] && t.log == s.log + [e]
    requires t.view.Some? && t.receivers == s.receivers
    ensures ClientOk(env, t, Notified(env, c, s, t))
  {
    hide IsGenesis, Received, MakerOk, CandidatesOk, RegistryOk, LatestSnapshot, Shows, AllEvents, HistoryOk;
    var d, blocks, pool := Notified(env, c, s, t), s.store.blocks, t.store.pool;
    ShowsTip(env.cfg, t.view.value, blocks, pool);
    var later := AllEvents(blocks[c.held..]);
    assert later + pool == later + s.store.pool + [e];
    if c.live {
      HistoryPlain(blocks, pool, ThresholdOf(env, t));
      assert pool[|pool| - 1] == e;
      PoolReceived(c, d, blocks, e);
      NothingLater(blocks, pool);
    }
  }

  lemma NotifiedBlock(env: Env, s: System, t: System, c: Client, b: Block)
    requires ClientOk(env, s, c) && Inv(env, t)
    requires t.store.blocks == s.store.blocks + [b] && b.events + t.store.pool == s.store.pool
    requires t.log == s.log + [b.HeaderEvent()] && t.view.Some? && t.receivers == s.receivers
    ensures ClientOk(env, t, Notified(env, c, s, t))
  {
    hide IsGenesis, Received, MakerOk, CandidatesOk, RegistryOk, LatestSnapshot, Shows, AllEvents, HistoryOk;
    var d, blocks := Notified(env, c, s, t), s.store.blocks;
    ShowsTip(env.cfg, t.view.value, t.store.blocks, t.store.pool);
    assert t.store.blocks[0] == blocks[0] && t.store.blocks[c.base] == blocks[c.base];
    assert t.store.blocks[c.held - 1] == blocks[c.held - 1];
    if c.live {
      BlockReceived(c, d, blocks, b);
      NothingLater(t.store.blocks, t.store.pool);
    } else {
      LongerReceived(c, blocks, b);
      StillPending(c.pending, blocks, c.held, b, s.store.pool, t.store.pool);
    }
  }

  lemma NotifiedOk(env: Env, s: System, t: System, c: Client)
    requires ClientOk(env, s, c) && Inv(env, t) && Advances(s, t)
    requires t.log != s.log ==> t.view.Some? && t.receivers == s.receivers
    ensures ClientOk(env, t, Notified(env, c, s, t))
  {
    hide IsGenesis, Received, HistoryOk, MakerOk, CandidatesOk, RegistryOk, LatestSnapshot, AllEvents, Shows;
    if t.log == s.log {
      SameReceived(c, Notified(env, c, s, t), s.store.blocks);
    } else if t.store.blocks == s.store.blocks {
      var e :| t.store.pool == s.store.pool + [e] && t.log == s.log + [e];
      NotifiedAdd(env, s, t, c, e);
    } else {
      var b :| t.store.blocks == s.store.blocks + [b] && b.events + t.store.pool == s.store.pool
               && t.log == s.log + [b.HeaderEvent()];
      NotifiedBlock(env, s, t, c, b);
    }
  }

  lemma EngineStepOk(env: Env, s: System, c: Client, step: Step)
    requires Inv(env, s) && ClientOk(env, s, c) && Admissible(env, s, step)
    ensures var p := ClientNext(env, s, c, ClientStep.Engine(step)); Inv(env, p.0) && ClientOk(env, p.0, p.1)
  {
    hide Inv, Next, Admissible, Received, Advances, IsGenesis, Notified;
    var t := Next(env, s, step);
    NextKeeps(env, s, step);
    NextAdvances(env, s, step);
    NotifiedOk(env, s, t, c);
  }

  // ---------- the theorem ----------

  lemma {:induction false} ClientRunOk(env: Env, s: System, c: Client, steps: seq<ClientStep>)
    requires Inv(env, s) && ClientOk(env, s, c) && AdmissibleSteps(env, s, c, steps)
    ensures var p := ClientRun(env, s, c, steps); Inv(env, p.0) && ClientOk(env, p.0, p.1)
  {
    hide Inv, ClientOk, ClientNext, Admissible;
    if steps != [] {
      var init := Init(steps);
      assert forall i :: 0 <= i < |init| ==> init[..i] == steps[..i] && init[i] == steps[i];
      assert steps[..|steps| - 1] == init;
      ClientRunOk(env, s, c, init);
      var p := ClientRun(env, s, c, init);
      match Last(steps) {
        case Engine(step) => EngineStepOk(env, p.0, p.1, step);
        case Connect => ConnectOk(env, p.0, p.1);
      }
    }
  }

  lemma {:induction false} EnvelopesSplit(es: seq<Event>, e: Event)
    ensures e in es <==> e in WithoutHeaders(es) || e in OnlyHeaders(es)
  {
    if es != [] {
      assert es == Init(es) + [Last(es)];
      EnvelopesSplit(Init(es), e);
    }
  }

  /** A live client has received exactly what lies between its base block and now. */
  lemma LiveHasExactly(env: Env, s: System, c: Client, e: Event)
    requires Inv(env, s) && ClientOk(env, s, c) && c.live
    ensures c.base < |s.store.blocks|
    ensures e in Delivered(s.store.blocks[c.base..]) + s.store.pool <==> e in c.seen
  {
    hide IsGenesis, Delivered, Shows, MakerOk, CandidatesOk, RegistryOk, HistoryOk, NoHeaders;
    hide WithoutHeaders, OnlyHeaders, AllEvents, HeadersOf;
    var blocks, pool := s.store.blocks, s.store.pool;
    var part := blocks[c.base..];
    assert blocks[c.base..c.held] == part;
    HistoryPlain(blocks, pool, ThresholdOf(env, s));
    assert forall i :: 0 <= i < |part| ==> part[i] == blocks[c.base + i];
    DeliveryParts(part, pool);
    EnvelopesSplit(Delivered(part) + pool, e);
    EnvelopesSplit(c.seen, e);
    assert e in WithoutHeaders(c.seen) <==> e in Firsts(WithoutHeaders(c.seen));
  }

  lemma SuffixDistinct(env: Env, s: System, k: nat)
    requires Inv(env, s) && 0 < k <= |s.store.blocks|
    ensures Distinct(AllEvents(s.store.blocks[k..]) + s.store.pool)
  {
    hide IsGenesis, Shows, MakerOk, CandidatesOk, RegistryOk, Chain, AllEvents;
    var blocks, pool := s.store.blocks, s.store.pool;
    assert blocks[1..] == blocks[1..k] + blocks[k..];
    AllEventsConcat(blocks[1..k], blocks[k..]);
    var front, back := AllEvents(blocks[1..k]), AllEvents(blocks[k..]) + pool;
    assert AddedEvents(blocks) + pool == front + back;
    PoolDistinct(front, back);
  }

  /** Everything a live client was sent, with what each part of it is. */
  ghost predicate HasEverything(s: System, c: Client) {
    var blocks, pool := s.store.blocks, s.store.pool;
    && c.base < |blocks| && blocks[..c.base + 1] != [] && IsGenesis(blocks[..c.base + 1][0])
    && blocks[c.base].header.snapshot == Some(Replay(blocks[..c.base + 1]))
    && (forall e :: e in Delivered(blocks[c.base..]) + pool <==> e in c.seen)
    && Firsts(WithoutHeaders(c.seen)) == Firsts(AllEvents(blocks[c.base..]) + pool)
    && (c.base > 0 ==> Firsts(WithoutHeaders(c.seen)) == AllEvents(blocks[c.base..]) + pool)
    && OnlyHeaders(c.seen) == HeadersOf(blocks[c.base..])
  }

  lemma LiveHasEverything(env: Env, s: System, c: Client)
    requires Inv(env, s) && ClientOk(env, s, c) && c.live
    ensures HasEverything(s, c)
  {
    hide IsGenesis, Delivered, Replay, Shows, MakerOk, CandidatesOk, RegistryOk, Chain, Firsts, AllEvents, HeadersOf;
    hide OnlyHeaders, WithoutHeaders, Distinct, AddedEvents;
    var blocks := s.store.blocks;
    assert blocks[c.base..c.held] == blocks[c.base..];
    SnapshotAt(blocks, ThresholdOf(env, s), c.base);
    forall e ensures e in Delivered(blocks[c.base..]) + s.store.pool <==> e in c.seen {
      LiveHasExactly(env, s, c, e);
    }
    if c.base > 0 {
      SuffixDistinct(env, s, c.base);
      FirstsDistinct(AllEvents(blocks[c.base..]) + s.store.pool);
    }
  }

  /**
   * Whatever the interleaving of adds, blocks, evictions, flushes, restarts and reconnects: a live client has received
   * every envelope from its base block to now and nothing else, the events that were new to it in the order of the
   * chain and the pool, the headers in order and once; and the base block's snapshot is the replay of all before.
   */
  lemma ClientNeverMisses(env: Env, s: System, id: nat, steps: seq<ClientStep>)
    requires Inv(env, s) && Loaded(s).Some?
    requires 0 <= Loaded(s).value.snapshotIndex < |Loaded(s).value.blocks|
    requires AdmissibleSteps(env, s, Fetched(env, id, Loaded(s).value), steps)
    ensures var p := ClientRun(env, s, Fetched(env, id, Loaded(s).value), steps);
      p.1.live ==> HasEverything(p.0, p.1)
  {
    hide Inv, ClientOk, AdmissibleSteps, ClientRun, Fetched, Loaded, HasEverything;
    FetchedOk(env, s, id);
    ClientRunOk(env, s, Fetched(env, id, Loaded(s).value), steps);
    var p := ClientRun(env, s, Fetched(env, id, Loaded(s).value), steps);
    if p.1.live {
      LiveHasEverything(env, p.0, p.1);
    }
  }
}
