/**
 * A stream view: the part of the chain kept in memory, the minipool of pending events, and the snapshot the tail is
 * replayed from. The functions say what each operation yields; the methods of `ViewProcedures` compute it.
 */
module Views {
  import opened Wrappers
  import opened ByteStrings
  import opened Messages
  import opened Snapshots
  import opened Chains

  /** `generations` blocks are kept before a snapshot; per-prefix thresholds override the default. */
  datatype Config = Config(
    generations: nat, ageSeconds: int, minEventsPerSnapshot: map<byte, int>, defaultMinEventsPerSnapshot: int)

  datatype View = View(
    streamId: Bytes, blocks: seq<Block>, pool: seq<Event>, generation: int, snapshot: Snapshot, snapshotIndex: int)

  datatype Proposal = Proposal(hashes: seq<Hash>, num: int, prevHash: Hash, shouldSnapshot: bool)

  datatype Cookie = Cookie(node: Bytes, streamId: Bytes, generation: int, slot: int, prevHash: Hash)

  // ---------- building a view from stored blocks ----------

  function FirstSnapshot(blocks: seq<Block>): Option<nat> {
    if blocks == [] then None
    else match FirstSnapshot(Init(blocks))
      case Some(i) => Some(i)
      case None => if Last(blocks).header.snapshot.Some? then Some(|blocks| - 1) else None
  }

  /** Each block has the number after the one before it; a negative expectation is not enforced. */
  predicate Consecutive(blocks: seq<Block>) {
    forall i :: 0 < i < |blocks| && blocks[i - 1].header.num + 1 >= 0 ==>
      blocks[i].header.num == blocks[i - 1].header.num + 1
  }

  ghost predicate Distinct(es: seq<Event>) {
    forall i, j :: 0 <= i < j < |es| ==> es[i] != es[j]
  }

  /** A minipool with a repeated event makes the ordered map panic; that is the caller's obligation in `LoadView`. */
  function MakeView(blocks: seq<Block>, pool: seq<Event>): Result<View> {
    if blocks == [] then Err(StreamEmpty)
    else if !Consecutive(blocks) then Err(BadEvent)
    else match FirstSnapshot(blocks)
      case None => Err(NoSnapshot)
      case Some(i) =>
        if i >= |blocks| || blocks[i].header.snapshot.None? then Err(NoSnapshot)
        else
          var snapshot := blocks[i].header.snapshot.value;
          if !ValidStreamId(snapshot.content.inception.streamId) then Err(BadStreamId)
          else Ok(View(snapshot.content.inception.streamId, blocks, pool, Last(blocks).header.num + 1, snapshot, i))
  }

  // ---------- adding an event ----------

  datatype AddResult = Added(view: View) | Refused | PanicsOnDuplicate

  function AddEvent(v: View, e: Event): AddResult {
    if e.IsHeader() then Refused
    else if e in v.pool then PanicsOnDuplicate
    else Added(v.(pool := v.pool + [e]))
  }

  // ---------- proposing and building a block ----------

  function Threshold(cfg: Config, streamId: Bytes): int {
    if |streamId| > 0 && streamId[0] in cfg.minEventsPerSnapshot then cfg.minEventsPerSnapshot[streamId[0]]
    else if cfg.defaultMinEventsPerSnapshot != 0 then cfg.defaultMinEventsPerSnapshot
    else 100
  }

  predicate ShouldSnapshot(v: View, cfg: Config) {
    |v.pool| + EventsSince(v.blocks) >= Threshold(cfg, v.streamId)
  }

  function Propose(v: View, cfg: Config, force: bool): Option<Proposal>
    requires v.blocks != []
  {
    if v.pool == [] && !force then None
    else Some(Proposal(Hashes(v.pool), v.generation, Last(v.blocks).Hash(), force || ShouldSnapshot(v, cfg)))
  }

  function NextTimestamp(prev: Timestamp, now: Timestamp): (t: Timestamp)
    ensures prev.Before(t)
    ensures prev.Before(now) ==> t == now
  {
    if now.seconds < prev.seconds || (now.seconds == prev.seconds && now.nanos <= prev.nanos)
    then Timestamp(prev.seconds + 1, 0) else now
  }

  /** When the clock is not after the previous timestamp, the next whole second after it is taken. */
  lemma NextTimestampIsLeast(prev: Timestamp, now: Timestamp, s: int)
    requires prev.nanos >= 0 && !prev.Before(now)
    ensures NextTimestamp(prev, now).nanos == 0
    ensures prev.Before(Timestamp(s, 0)) <==> NextTimestamp(prev, now).seconds <= s
  {
  }

  /** The pooled events with these hashes, if all are there. */
  function Collect(pool: seq<Event>, hashes: seq<Hash>): (r: Option<seq<Event>>)
    ensures r.Some? <==> forall h :: h in hashes ==> h.HashOf? && h.event in pool
    ensures r.Some? ==> Hashes(r.value) == hashes && forall e :: e in r.value ==> e in pool
  {
    if hashes == [] then Some([])
    else match Collect(pool, Init(hashes))
      case None => None
      case Some(es) =>
        var h := Last(hashes);
        assert hashes == Init(hashes) + [h];
        if h.HashOf? && h.event in pool then Some(es + [h.event]) else None
  }

  function NextHeader(v: View, events: seq<Event>, shouldSnapshot: bool, now: Timestamp): Header
    requires v.blocks != [] && 0 <= v.snapshotIndex < |v.blocks|
  {
    var last := Last(v.blocks);
    var num, offset := last.header.num + 1, last.header.eventNumOffset + |last.events| + 1;
    Header(
      num, NextTimestamp(last.header.timestamp, now), Hashes(events), last.Hash(),
      if shouldSnapshot
      then Some(FoldEvents(FoldTail(v.snapshot, v.blocks[v.snapshotIndex + 1..]), events, num, offset)) else None,
      offset,
      if last.header.snapshot.Some? then last.header.num else last.header.prevSnapshotNum)
  }

  function BuildBlock(v: View, p: Proposal, signer: Bytes, now: Timestamp): Result<Block>
    requires v.blocks != [] && 0 <= v.snapshotIndex < |v.blocks|
  {
    if v.generation != p.num || p.prevHash != Last(v.blocks).Hash() then Err(BlockMismatch)
    else match Collect(v.pool, p.hashes)
      case None => Err(MissingEvents)
      case Some(events) => Ok(Block(signer, NextHeader(v, events, p.shouldSnapshot, now), events))
  }

  // ---------- applying a block ----------

  function Minus(pool: seq<Event>, es: seq<Event>): (r: seq<Event>)
    ensures forall e :: e in r <==> e in pool && e !in es
  {
    if pool == [] then []
    else
      var rest := Minus(Init(pool), es);
      assert pool == Init(pool) + [Last(pool)];
      if Last(pool) in es then rest else rest + [Last(pool)]
  }

  function Max(a: int, b: int): int { if a < b then b else a }

  /** Decidable form of `Distinct` plus membership: the block deletes each of its events from the pool exactly once. */
  predicate Takes(pool: seq<Event>, es: seq<Event>) {
    (forall e :: e in es ==> e in pool) && forall i, j :: 0 <= i < j < |es| ==> es[i] != es[j]
  }

  function ApplyBlock(v: View, b: Block, cfg: Config): Result<View>
    requires v.blocks != []
  {
    if b.header.num != Last(v.blocks).header.num + 1 then Err(BadBlock)
    else if Last(v.blocks).Hash() != b.header.prevHash then Err(BadBlock)
    else if !Takes(v.pool, b.events) then Err(BadBlock)
    else
      var start := if b.header.snapshot.Some? then Max(0, |v.blocks| - cfg.generations) else 0;
      Ok(View(
        v.streamId, v.blocks[start..] + [b], Minus(v.pool, b.events), b.header.num + 1,
        if b.header.snapshot.Some? then b.header.snapshot.value else v.snapshot,
        if b.header.snapshot.Some? then |v.blocks| - start else v.snapshotIndex))
  }

  // ---------- reading ----------

  function SyncCookie(v: View, node: Bytes): Cookie
    requires v.blocks != []
  {
    Cookie(node, v.streamId, v.generation, |v.pool|, Last(v.blocks).Hash())
  }

  /** Position in the window of the block with this number. */
  function IndexOfBlock(v: View, num: int): Result<int> {
    if v.blocks == [] then Err(InvalidArgument)
    else
      var diff := num - v.blocks[0].header.num;
      if 0 <= diff < |v.blocks| then
        if v.blocks[diff].header.num != num then Err(BadEvent) else Ok(diff)
      else Err(InvalidArgument)
  }

  /** Events of these blocks in order, each block followed by its header event. */
  function Delivered(blocks: seq<Block>): seq<Event> {
    if blocks == [] then []
    else Delivered(Init(blocks)) + Last(blocks).events + [Last(blocks).HeaderEvent()]
  }

  /** What iteration from a block of the window visits. */
  function EventsFrom(v: View, start: nat): seq<Event>
    requires start <= |v.blocks|
  {
    Delivered(v.blocks[start..]) + v.pool
  }

  /** Position of the last block with this hash. */
  function Referenced(blocks: seq<Block>, h: Hash): (r: Option<nat>)
    ensures r.Some? ==> r.value < |blocks| && blocks[r.value].Hash() == h
    ensures r.None? ==> forall i :: 0 <= i < |blocks| ==> blocks[i].Hash() != h
  {
    if blocks == [] then None
    else if Last(blocks).Hash() == h then Some(|blocks| - 1)
    else Referenced(Init(blocks), h)
  }

  const DEFAULT_AGE_SECONDS := 5

  predicate IsRecent(cfg: Config, b: Block, now: Timestamp) {
    var age := if cfg.ageSeconds == 0 then DEFAULT_AGE_SECONDS else cfg.ageSeconds;
    now.Nanoseconds() - b.header.timestamp.Nanoseconds() <= age * 1_000_000_000
  }

  /** None when the event may be added, otherwise the error. */
  function Validate(v: View, cfg: Config, e: Event, now: Timestamp): Option<Code> {
    match Referenced(v.blocks, e.prevHash)
    case None => Some(BadPrevHash)
    case Some(f) =>
      if f < |v.blocks| - 1 && !IsRecent(cfg, v.blocks[f + 1], now) then Some(BadPrevHash)
      else if e in AllEvents(v.blocks[f + 1..]) || e in v.pool then Some(DuplicateEvent)
      else None
  }

  datatype Stats = Stats(
    firstNum: int, lastNum: int, eventsInBlocks: nat, snapshotsInBlocks: nat, eventsInPool: nat, totalEver: int)

  function SnapshotCount(blocks: seq<Block>): nat {
    if blocks == [] then 0
    else SnapshotCount(Init(blocks)) + if Last(blocks).header.snapshot.Some? then 1 else 0
  }

  function GetStats(v: View): Stats
    requires v.blocks != [] && 0 <= v.snapshotIndex < |v.blocks|
  {
    Stats(
      v.blocks[0].header.num, Last(v.blocks).header.num, Count(v.blocks), SnapshotCount(v.blocks), |v.pool|,
      v.blocks[v.snapshotIndex].header.eventNumOffset + Count(v.blocks[v.snapshotIndex..]) + |v.pool|)
  }

  // ---------- a view of a chain ----------

  /** `v` shows a suffix of the chain and the pool, and replays from some block that carries a snapshot. */
  ghost predicate Window(v: View, blocks: seq<Block>, pool: seq<Event>) {
    && 0 < |v.blocks| <= |blocks|
    && v.blocks == blocks[|blocks| - |v.blocks|..]
    && v.pool == pool
    && v.generation == |blocks|
    && 0 <= v.snapshotIndex < |v.blocks|
    && v.blocks[v.snapshotIndex].header.snapshot == Some(v.snapshot)
  }

  /** Where the window's snapshot sits in the chain. */
  ghost function Base(v: View, blocks: seq<Block>): int {
    |blocks| - |v.blocks| + v.snapshotIndex
  }
}
