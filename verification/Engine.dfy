/**
 * One stream on one node as a state machine: its storage, its on-chain record, the cached view, and the single block
 * maker that proposes, builds, stores, registers and commits while other requests interleave between those steps.
 */
module Engine {
  import opened Wrappers
  import opened ByteStrings
  import opened Messages
  import opened Snapshots
  import opened Chains
  import opened Views
  import opened Storage

  datatype Env = Env(cfg: Config, node: Bytes)

  /** The contract stores whatever it is sent; `accepted` collects the hashes it has announced. */
  datatype Registry = Registry(num: int, hash: Hash, accepted: set<Hash>)

  datatype Maker = Idle | Proposed(p: Proposal) | Built(b: Block) | Stored(b: Block) | Registered(b: Block)

  /** `log` is the sequence of envelopes sent to live subscribers since the stream was created. */
  datatype System = System(
    store: Store, registry: Registry, view: Option<View>, receivers: set<nat>, maker: Maker, log: seq<Event>)

  /** The call can fail although the transaction went through. */
  datatype Outcome = Accepted | Refused | AcceptedUnreported

  datatype Step =
    | Load
    | Add(e: Event, now: Timestamp, writeOk: bool)
    | Propose(force: bool)
    | Build(now: Timestamp)
    | StoreCandidate(writeOk: bool)
    | Register(outcome: Outcome)
    | Commit(writeOk: bool)
    | Evict(expired: bool)
    | Flush
    | Restart
    | Subscribe(id: nat, cookie: Cookie)
    | Unsubscribe(id: nat)

  function Created(genesis: Block): System {
    System(CreateStream(genesis), Registry(0, genesis.Hash(), {}), None, {}, Idle, [])
  }

  /** The cached view, or the one rebuilt from storage. */
  function Loaded(s: System): Option<View> {
    if s.view.Some? then s.view
    else match ReadFromLastSnapshot(s.store)
      case Err(_) => None
      case Ok((blocks, pool)) =>
        match MakeView(blocks, pool)
        case Err(_) => None
        case Ok(v) => Some(v)
  }

  /** The write to storage comes first; a refused or duplicate event is noticed only after it. */
  function NextAdd(s: System, e: Event, writeOk: bool): System {
    match Loaded(s)
    case None => s
    case Some(v) =>
      var t := s.(view := Some(v));
      if !writeOk then t
      else match WriteEvent(t.store, v.generation, |v.pool|, e)
        case Err(_) => t
        case Ok(st) =>
          match Views.AddEvent(v, e)
          case Added(w) => t.(store := st, view := Some(w), log := t.log + [e])
          case _ => t.(store := st)
  }

  function NextPropose(env: Env, s: System, force: bool): System {
    if !s.maker.Idle? || s.view.None? || s.view.value.blocks == [] then s
    else match Views.Propose(s.view.value, env.cfg, force)
      case None => s
      case Some(p) => s.(maker := Proposed(p))
  }

  function NextBuild(env: Env, s: System, now: Timestamp): System {
    if !s.maker.Proposed? then s
    else if s.view.None? || !(0 <= s.view.value.snapshotIndex < |s.view.value.blocks|) then s.(maker := Idle)
    else match BuildBlock(s.view.value, s.maker.p, env.node, now)
      case Err(_) => s.(maker := Idle)
      case Ok(b) => s.(maker := Built(b))
  }

  function NextStore(s: System, writeOk: bool): System {
    if !s.maker.Built? then s
    else if !writeOk then s.(maker := Idle)
    else match WriteCandidate(s.store, s.maker.b)
      case Err(_) => s.(maker := Idle)
      case Ok(st) => s.(store := st, maker := Stored(s.maker.b))
  }

  function NextRegister(s: System, outcome: Outcome): System {
    if !s.maker.Stored? then s
    else
      var b := s.maker.b;
      var registry := Registry(b.header.num, b.Hash(), s.registry.accepted + {b.Hash()});
      match outcome
      case Accepted => s.(registry := registry, maker := Registered(b))
      case AcceptedUnreported => s.(registry := registry, maker := Idle)
      case Refused => s.(maker := Idle)
  }

  function NextCommit(env: Env, s: System, writeOk: bool): System {
    if !s.maker.Registered? then s
    else match Loaded(s)
      case None => s.(maker := Idle)
      case Some(v) =>
        var t := s.(view := Some(v), maker := Idle);
        if v.blocks == [] then t
        else match ApplyBlock(v, s.maker.b, env.cfg)
          case Err(_) => t
          case Ok(w) =>
            if !writeOk then t
            else match Promote(s.store, v.generation, s.maker.b.Hash(), s.maker.b.header.snapshot.Some?, w.pool)
              case Err(_) => t
              case Ok(st) => t.(store := st, view := Some(w), log := s.log + [s.maker.b.HeaderEvent()])
  }

  function NextEvict(s: System, expired: bool): System {
    if s.view.Some? && expired && s.receivers == {} && s.view.value.pool == [] then s.(view := None) else s
  }

  /** A cookie of this node and stream with a usable slot adds a receiver. */
  function NextSubscribe(env: Env, s: System, id: nat, c: Cookie): System {
    match Loaded(s)
    case None => s
    case Some(v) =>
      if c.node != env.node || c.streamId != v.streamId || c.slot < 0 then s
      else if c.generation == v.generation && c.slot > |v.pool| then s.(view := Some(v))
      else s.(view := Some(v), receivers := s.receivers + {id})
  }

  function Next(env: Env, s: System, step: Step): System {
    match step
    case Load => s.(view := Loaded(s))
    case Add(e, _, writeOk) => NextAdd(s, e, writeOk)
    case Propose(force) => NextPropose(env, s, force)
    case Build(now) => NextBuild(env, s, now)
    case StoreCandidate(writeOk) => NextStore(s, writeOk)
    case Register(outcome) => NextRegister(s, outcome)
    case Commit(writeOk) => NextCommit(env, s, writeOk)
    case Evict(expired) => NextEvict(s, expired)
    case Flush => s.(view := None, receivers := {})
    case Restart => s.(view := None, receivers := {}, maker := Idle)
    case Subscribe(id, cookie) => NextSubscribe(env, s, id, cookie)
    case Unsubscribe(id) => s.(receivers := s.receivers - {id})
  }

  function Run(env: Env, s: System, steps: seq<Step>): System {
    if steps == [] then s else Next(env, Run(env, s, Init(steps)), Last(steps))
  }

  /** Every added event passed validation on the view it is added to and belongs in the stream. */
  predicate Admissible(env: Env, s: System, step: Step) {
    step.Add? && Loaded(s).Some? ==>
      && Validate(Loaded(s).value, env.cfg, step.e, step.now).None?
      && step.e.Fits(Loaded(s).value.snapshot.content.Kind())
  }

  ghost predicate AdmissibleRun(env: Env, s: System, steps: seq<Step>) {
    forall i :: 0 <= i < |steps| ==> Admissible(env, Run(env, s, steps[..i]), steps[i])
  }

  // ---------- the invariant ----------

  function StreamIdOf(blocks: seq<Block>): Bytes
    requires blocks != [] && IsGenesis(blocks[0])
  {
    blocks[0].events[0].payload.content.inception.streamId
  }

  function ThresholdOf(env: Env, s: System): int
    requires s.store.blocks != [] && IsGenesis(s.store.blocks[0])
  {
    Threshold(env.cfg, StreamIdOf(s.store.blocks))
  }

  /** The history is a chain, no event added since genesis occurs twice, and every pending event belongs in it. */
  ghost predicate HistoryOk(blocks: seq<Block>, pool: seq<Event>, threshold: int) {
    && Chain(blocks, threshold)
    && Distinct(AddedEvents(blocks) + pool)
    && forall e :: e in pool ==> Addable(e, blocks)
  }

  /** The view is based on the latest snapshot and keeps at most `generations` blocks before it. */
  ghost predicate Shows(cfg: Config, v: View, blocks: seq<Block>, pool: seq<Event>)
    requires blocks != [] && IsGenesis(blocks[0])
  {
    && Window(v, blocks, pool)
    && Base(v, blocks) == LatestSnapshot(blocks)
    && v.streamId == StreamIdOf(blocks)
    && |v.blocks| <= cfg.generations + 1 + BlocksSince(blocks)
  }

  /** A proposal for the current tip and a prefix of the pool. */
  ghost predicate ProposalOk(p: Proposal, blocks: seq<Block>, pool: seq<Event>, threshold: int)
    requires blocks != []
  {
    && p.num == |blocks| && p.prevHash == Last(blocks).Hash()
    && |p.hashes| <= |pool| && p.hashes == Hashes(pool[..|p.hashes|])
    && (!p.shouldSnapshot ==> p.hashes != [] && EventsSince(blocks) + |p.hashes| < threshold)
  }

  /** A block that is a proper successor of the tip and holds a prefix of the pool. */
  ghost predicate CandidateOk(b: Block, blocks: seq<Block>, pool: seq<Event>, threshold: int)
    requires blocks != [] && IsGenesis(blocks[0])
  {
    && Follows(blocks, b, threshold)
    && |b.events| <= |pool| && b.events == pool[..|b.events|]
  }

  ghost predicate CandidatesOk(st: Store, threshold: int)
    requires st.blocks != [] && IsGenesis(st.blocks[0])
  {
    forall k :: k in st.candidates ==>
      && k == (st.candidates[k].header.num, st.candidates[k].Hash())
      && CandidateOk(st.candidates[k], st.blocks, st.pool, threshold)
  }

  predicate IsCandidate(st: Store, b: Block) {
    var k := (b.header.num, b.Hash()); k in st.candidates && st.candidates[k] == b
  }

  ghost predicate MakerOk(m: Maker, st: Store, r: Registry, threshold: int)
    requires st.blocks != [] && IsGenesis(st.blocks[0])
  {
    match m
    case Idle => true
    case Proposed(p) => ProposalOk(p, st.blocks, st.pool, threshold)
    case Built(b) => CandidateOk(b, st.blocks, st.pool, threshold)
    case Stored(b) => IsCandidate(st, b)
    case Registered(b) => IsCandidate(st, b) && r.hash == b.Hash() && r.num == b.header.num && b.Hash() in r.accepted
  }

  /** The on-chain head is the local tip or a stored candidate, and every applied block was accepted on chain. */
  ghost predicate RegistryOk(st: Store, r: Registry)
    requires st.blocks != []
  {
    && ((r.num, r.hash) == (|st.blocks| - 1, Last(st.blocks).Hash()) || (r.num, r.hash) in st.candidates)
    && forall i :: 1 <= i < |st.blocks| ==> st.blocks[i].Hash() in r.accepted
  }

  ghost predicate Inv(env: Env, s: System) {
    && s.store.blocks != [] && IsGenesis(s.store.blocks[0])
    && ValidStreamId(StreamIdOf(s.store.blocks))
    && var threshold := ThresholdOf(env, s);
       && HistoryOk(s.store.blocks, s.store.pool, threshold)
       && s.store.generation == |s.store.blocks|
       && s.store.lastSnapshot == LatestSnapshot(s.store.blocks)
       && (s.view.Some? ==> Shows(env.cfg, s.view.value, s.store.blocks, s.store.pool))
       && CandidatesOk(s.store, threshold)
       && MakerOk(s.maker, s.store, s.registry, threshold)
       && RegistryOk(s.store, s.registry)
  }
}
