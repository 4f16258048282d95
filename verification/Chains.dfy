/**
 * The whole history of a stream: every miniblock ever made, trimmed from memory or not. `Chain` says each block is a
 * proper successor of all blocks before it; the lemmas spell out what that means position by position.
 */
module Chains {
  import opened Wrappers
  import opened Messages
  import opened Snapshots

  function Init<T>(s: seq<T>): seq<T>
    requires s != []
  {
    s[..|s| - 1]
  }

  function Last<T>(s: seq<T>): T
    requires s != []
  {
    s[|s| - 1]
  }

  /** Events and headers together, as events are numbered over the life of the stream. */
  function Count(blocks: seq<Block>): nat {
    if blocks == [] then 0 else Count(Init(blocks)) + |Last(blocks).events| + 1
  }

  function AllEvents(blocks: seq<Block>): seq<Event> {
    if blocks == [] then [] else AllEvents(Init(blocks)) + Last(blocks).events
  }

  /** Blocks, and events in them, after the latest block that carries a snapshot. */
  function BlocksSince(blocks: seq<Block>): (n: nat)
    ensures n <= |blocks|
  {
    if blocks == [] || Last(blocks).header.snapshot.Some? then 0 else 1 + BlocksSince(Init(blocks))
  }

  function EventsSince(blocks: seq<Block>): nat {
    if blocks == [] || Last(blocks).header.snapshot.Some? then 0
    else EventsSince(Init(blocks)) + |Last(blocks).events|
  }

  function LatestSnapshot(blocks: seq<Block>): int {
    |blocks| - 1 - BlocksSince(blocks)
  }

  predicate IsGenesis(b: Block) {
    && GenesisSnapshot(b.events).Updated?
    && b.header.num == 0
    && b.header.prevHash == NoHash
    && b.header.eventHashes == Hashes(b.events)
    && b.header.snapshot == Some(GenesisSnapshot(b.events).snapshot)
    && b.header.eventNumOffset == 0
    && b.header.prevSnapshotNum == 0
    && forall e :: e in b.events ==> e.prevHash == NoHash
  }

  function Kind(blocks: seq<Block>): StreamKind
    requires blocks != [] && IsGenesis(blocks[0])
  {
    blocks[0].events[0].payload.kind
  }

  /**
   * The reference every snapshot is measured against: all events since genesis applied in order, each with the number
   * of its block and its own number in the stream. No header field is consulted.
   */
  function Replay(blocks: seq<Block>): Snapshot
    requires blocks != [] && IsGenesis(blocks[0])
  {
    if |blocks| == 1 then GenesisSnapshot(blocks[0].events).snapshot
    else FoldEvents(Replay(Init(blocks)), Last(blocks).events, |blocks| - 1, Count(Init(blocks)))
  }

  ghost predicate RefersTo(e: Event, blocks: seq<Block>) {
    exists r :: 0 <= r < |blocks| && e.prevHash == blocks[r].Hash()
  }

  ghost predicate Addable(e: Event, blocks: seq<Block>)
    requires blocks != [] && IsGenesis(blocks[0])
  {
    RefersTo(e, blocks) && e.Fits(Kind(blocks))
  }

  /** `b` is a proper next block; `threshold` is the configured number of events that forces a snapshot. */
  ghost predicate Follows(blocks: seq<Block>, b: Block, threshold: int)
    requires blocks != [] && IsGenesis(blocks[0])
  {
    && b.header.num == |blocks|
    && b.header.prevHash == Last(blocks).Hash()
    && Last(blocks).header.timestamp.Before(b.header.timestamp)
    && b.header.eventHashes == Hashes(b.events)
    && b.header.eventNumOffset == Count(blocks)
    && b.header.prevSnapshotNum == LatestSnapshot(blocks)
    && (b.header.snapshot.Some? ==>
          b.header.snapshot.value == FoldEvents(Replay(blocks), b.events, |blocks|, Count(blocks)))
    && (b.header.snapshot.None? ==> b.events != [] && EventsSince(blocks) + |b.events| < threshold)
    && forall e :: e in b.events ==> Addable(e, blocks)
  }

  ghost predicate Chain(blocks: seq<Block>, threshold: int) {
    && blocks != []
    && if |blocks| == 1 then IsGenesis(blocks[0])
       else Chain(Init(blocks), threshold) && IsGenesis(blocks[0]) && Follows(Init(blocks), Last(blocks), threshold)
  }

  lemma ChainAppend(blocks: seq<Block>, b: Block, threshold: int)
    requires Chain(blocks, threshold) && Follows(blocks, b, threshold)
    ensures Chain(blocks + [b], threshold)
    ensures Init(blocks + [b]) == blocks && Last(blocks + [b]) == b
  {
    hide FoldEvents, Replay, IsGenesis;
  }

  lemma {:induction false} ChainPrefix(blocks: seq<Block>, threshold: int, i: nat)
    requires Chain(blocks, threshold) && 1 <= i <= |blocks|
    ensures Chain(blocks[..i], threshold)
    ensures i < |blocks| ==> Follows(blocks[..i], blocks[i], threshold)
  {
    if i < |blocks| {
      assert blocks[..i] == Init(blocks)[..i];
      if i < |blocks| - 1 {
        ChainPrefix(Init(blocks), threshold, i);
      } else {
        assert Init(blocks)[..i] == Init(blocks);
      }
    } else {
      assert blocks[..i] == blocks;
    }
  }

  // ---------- what a chain looks like, position by position ----------

  lemma {:induction false} LatestSnapshotIsLatest(blocks: seq<Block>, threshold: int)
    requires Chain(blocks, threshold)
    ensures var p := LatestSnapshot(blocks);
      && 0 <= p < |blocks| && blocks[p].header.snapshot.Some?
      && forall k :: p < k < |blocks| ==> blocks[k].header.snapshot.None?
  {
    if Last(blocks).header.snapshot.None? {
      LatestSnapshotIsLatest(Init(blocks), threshold);
    }
  }

  /** A block that carries a snapshot carries the replay of everything up to and including itself. */
  lemma SnapshotAt(blocks: seq<Block>, threshold: int, i: nat)
    requires Chain(blocks, threshold) && i < |blocks| && blocks[i].header.snapshot.Some?
    ensures blocks[..i + 1] != [] && IsGenesis(blocks[..i + 1][0])
    ensures blocks[i].header.snapshot.value == Replay(blocks[..i + 1])
  {
    hide FoldEvents, GenesisSnapshot;
    ChainPrefix(blocks, threshold, i + 1);
    var prefix := blocks[..i + 1];
    if i > 0 {
      assert Init(prefix) == blocks[..i];
    }
  }

  lemma BlockFacts(blocks: seq<Block>, threshold: int, i: nat)
    requires Chain(blocks, threshold) && i < |blocks|
    ensures blocks[i].header.num == i && blocks[i].header.eventNumOffset == Count(blocks[..i])
    ensures blocks[i].header.eventHashes == Hashes(blocks[i].events)
    ensures i > 0 ==> blocks[i].header.prevHash == blocks[i - 1].Hash()
    ensures i > 0 ==>
      var p := blocks[i].header.prevSnapshotNum;
      && 0 <= p < i && blocks[p].header.snapshot.Some?
      && forall k :: p < k < i ==> blocks[k].header.snapshot.None?
  {
    hide FoldEvents, Replay, GenesisSnapshot, Hashes, LatestSnapshot, EventsSince, Addable;
    if i == 0 {
      ChainPrefix(blocks, threshold, 1);
    } else {
      hide IsGenesis, Chain;
      ChainPrefix(blocks, threshold, i);
      LatestSnapshotIsLatest(blocks[..i], threshold);
      assert Last(blocks[..i]) == blocks[i - 1];
      assert forall k :: 0 <= k < i ==> blocks[..i][k] == blocks[k];
    }
  }

  /**
   * The chain invariant: consecutive numbers, linked hashes, strictly increasing timestamps, offsets that count every
   * earlier event and header, and a pointer to the latest earlier snapshot.
   */
  lemma ChainFacts(blocks: seq<Block>, threshold: int)
    requires Chain(blocks, threshold)
    ensures forall i :: 0 <= i < |blocks| ==> blocks[i].header.num == i
    ensures forall i :: 0 < i < |blocks| ==> blocks[i].header.prevHash == blocks[i - 1].Hash()
    ensures forall i :: 0 <= i < |blocks| ==> blocks[i].header.eventNumOffset == Count(blocks[..i])
    ensures forall i :: 0 <= i < |blocks| ==> blocks[i].header.eventHashes == Hashes(blocks[i].events)
    ensures forall i :: 0 < i < |blocks| ==>
      var p := blocks[i].header.prevSnapshotNum;
      && 0 <= p < i && blocks[p].header.snapshot.Some?
      && forall k :: p < k < i ==> blocks[k].header.snapshot.None?
  {
    hide *;
    forall i | 0 <= i < |blocks|
      ensures blocks[i].header.num == i && blocks[i].header.eventNumOffset == Count(blocks[..i])
      ensures blocks[i].header.eventHashes == Hashes(blocks[i].events)
      ensures i > 0 ==> blocks[i].header.prevHash == blocks[i - 1].Hash()
      ensures i > 0 ==>
        var p := blocks[i].header.prevSnapshotNum;
        && 0 <= p < i && blocks[p].header.snapshot.Some?
        && forall k :: p < k < i ==> blocks[k].header.snapshot.None?
    {
      BlockFacts(blocks, threshold, i);
    }
  }

  lemma {:induction false} TimestampsIncrease(blocks: seq<Block>, threshold: int, i: nat, j: nat)
    requires Chain(blocks, threshold) && i < j < |blocks|
    ensures blocks[i].header.timestamp.Before(blocks[j].header.timestamp)
  {
    hide FoldEvents, Replay, GenesisSnapshot, Hashes;
    ChainPrefix(blocks, threshold, j);
    assert Last(blocks[..j]) == blocks[j - 1];
    if i < j - 1 {
      TimestampsIncrease(blocks, threshold, i, j - 1);
    }
  }

  /** Equal hashes mean the same block of the chain. */
  lemma HashFixesPosition(blocks: seq<Block>, threshold: int, i: nat, j: nat)
    requires Chain(blocks, threshold) && i < |blocks| && j < |blocks|
    requires blocks[i].Hash() == blocks[j].Hash()
    ensures i == j
  {
    hide FoldEvents, Replay, GenesisSnapshot, Hashes;
    ChainFacts(blocks, threshold);
  }

  lemma {:induction false} AllEventsConcat(a: seq<Block>, b: seq<Block>)
    ensures AllEvents(a + b) == AllEvents(a) + AllEvents(b)
  {
    if b == [] {
      assert a + b == a;
    } else {
      var init, last := Init(b), Last(b).events;
      assert Init(a + b) == a + init && Last(a + b) == Last(b);
      AllEventsConcat(a, init);
      assert AllEvents(a) + AllEvents(init) + last == AllEvents(a) + (AllEvents(init) + last);
    }
  }

  lemma AllEventsOne(b: Block)
    ensures AllEvents([b]) == b.events
  {
    assert Init([b]) == [] && Last([b]) == b;
  }

  /** Everything after genesis: what the engine itself ever added. */
  function AddedEvents(blocks: seq<Block>): seq<Event> {
    if blocks == [] then [] else AllEvents(blocks[1..])
  }

  lemma SplitGenesis(blocks: seq<Block>)
    requires blocks != []
    ensures AllEvents(blocks) == blocks[0].events + AddedEvents(blocks)
  {
    hide AllEvents;
    assert blocks == [blocks[0]] + blocks[1..];
    AllEventsConcat([blocks[0]], blocks[1..]);
    AllEventsOne(blocks[0]);
  }

  lemma {:induction false} EventInBlock(blocks: seq<Block>, e: Event)
    requires e in AllEvents(blocks)
    ensures exists q :: 0 <= q < |blocks| && e in blocks[q].events
  {
    if e in Last(blocks).events {
      assert blocks[|blocks| - 1] == Last(blocks);
    } else {
      EventInBlock(Init(blocks), e);
      var q :| 0 <= q < |Init(blocks)| && e in Init(blocks)[q].events;
      assert blocks[q] == Init(blocks)[q];
    }
  }

  lemma {:induction false} BlockInEvents(blocks: seq<Block>, q: nat, e: Event)
    requires q < |blocks| && e in blocks[q].events
    ensures e in AllEvents(blocks)
  {
    if q < |blocks| - 1 {
      BlockInEvents(Init(blocks), q, e);
    }
  }

  /** Blocks without a snapshot are never empty, so both windows since the latest snapshot stay below the threshold. */
  lemma {:induction false} SinceIsBounded(blocks: seq<Block>, threshold: int)
    requires Chain(blocks, threshold) && threshold >= 1
    ensures BlocksSince(blocks) <= EventsSince(blocks) < threshold
  {
    hide FoldEvents, Replay, GenesisSnapshot, Hashes;
    if Last(blocks).header.snapshot.None? {
      SinceIsBounded(Init(blocks), threshold);
    }
  }

  lemma {:induction false} ReplayIsWellFormed(blocks: seq<Block>, threshold: int)
    requires Chain(blocks, threshold)
    ensures WellFormed(Replay(blocks)) && Replay(blocks).content.Kind() == Kind(blocks)
    ensures Replay(blocks).content.inception == blocks[0].events[0].payload.content.inception
  {
    hide FoldEvents, GenesisSnapshot, Hashes;
    if |blocks| == 1 {
      GenesisSnapshotIsFold(blocks[0].events);
    } else {
      ReplayIsWellFormed(Init(blocks), threshold);
      FoldEventsKeeps(Replay(Init(blocks)), Last(blocks).events, |blocks| - 1, Count(Init(blocks)));
    }
  }

  // ---------- replaying a tail from header fields ----------

  /** What the header builder computes: the blocks after a snapshot, numbered by their own header fields. */
  function FoldTail(s: Snapshot, tail: seq<Block>): Snapshot {
    if tail == [] then s
    else FoldEvents(FoldTail(s, Init(tail)), Last(tail).events, Last(tail).header.num, Last(tail).header.eventNumOffset)
  }

  lemma InitSplits(blocks: seq<Block>, k: nat)
    requires k < |blocks|
    ensures Init(blocks)[..k] == blocks[..k] && Init(blocks)[k..] == Init(blocks[k..])
    ensures Last(blocks[k..]) == Last(blocks)
  {
  }

  lemma LastNumbers(blocks: seq<Block>, threshold: int)
    requires Chain(blocks, threshold) && |blocks| > 1
    ensures Last(blocks).header.num == |blocks| - 1 && Last(blocks).header.eventNumOffset == Count(Init(blocks))
  {
    hide FoldEvents, GenesisSnapshot, Hashes, Addable, EventsSince, LatestSnapshot, IsGenesis, Replay;
  }

  /** From any block's replay, the tail by header fields gives the replay of everything. */
  lemma {:induction false} FoldTailIsReplay(blocks: seq<Block>, threshold: int, i: nat)
    requires Chain(blocks, threshold) && i < |blocks|
    ensures blocks[..i + 1] != [] && IsGenesis(blocks[..i + 1][0])
    ensures FoldTail(Replay(blocks[..i + 1]), blocks[i + 1..]) == Replay(blocks)
  {
    hide FoldEvents, GenesisSnapshot, Hashes, Addable, EventsSince, LatestSnapshot, IsGenesis, Follows;
    ChainPrefix(blocks, threshold, i + 1);
    if i == |blocks| - 1 {
      assert blocks[..i + 1] == blocks;
    } else {
      FoldTailIsReplay(Init(blocks), threshold, i);
      LastNumbers(blocks, threshold);
      InitSplits(blocks, i + 1);
    }
  }
}
