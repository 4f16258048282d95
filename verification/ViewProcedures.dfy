/** The loops of the view operations, each proved to compute the function of the same purpose in `Views`. */
module ViewProcedures {
  import opened Wrappers
  import opened ByteStrings
  import opened Messages
  import opened Snapshots
  import opened Chains
  import opened Views

  /** No update of the tail or the pool can panic, and the snapshot's lists are in order. */
  ghost predicate Usable(v: View) {
    && v.blocks != [] && 0 <= v.snapshotIndex < |v.blocks|
    && WellFormed(v.snapshot)
    && (forall i, e :: v.snapshotIndex < i < |v.blocks| && e in v.blocks[i].events ==>
          !Panics(e, v.snapshot.content.Kind()))
    && forall e :: e in v.pool ==> !Panics(e, v.snapshot.content.Kind())
  }

  lemma {:induction false} NoFirstSnapshot(blocks: seq<Block>)
    requires forall k :: 0 <= k < |blocks| ==> blocks[k].header.snapshot.None?
    ensures FirstSnapshot(blocks) == None
  {
    if blocks != [] {
      NoFirstSnapshot(Init(blocks));
    }
  }

  lemma {:induction false} FirstSnapshotIs(blocks: seq<Block>, i: nat)
    requires i < |blocks| && blocks[i].header.snapshot.Some?
    requires forall k :: 0 <= k < i ==> blocks[k].header.snapshot.None?
    ensures FirstSnapshot(blocks) == Some(i)
  {
    if i < |blocks| - 1 {
      FirstSnapshotIs(Init(blocks), i);
    } else {
      NoFirstSnapshot(Init(blocks));
    }
  }

  method MakeStreamView(blocks: seq<Block>, pool: seq<Event>) returns (r: Result<View>)
    requires Distinct(pool)
    ensures r == MakeView(blocks, pool)
  {
    if |blocks| <= 0 {
      return Err(StreamEmpty);
    }
    var lastNum, snapshotIndex := -2, -1;
    var i := 0;
    while i < |blocks|
      invariant 0 <= i <= |blocks|
      invariant i == 0 ==> lastNum == -2
      invariant i > 0 ==> lastNum == blocks[i - 1].header.num
      invariant forall k :: 0 < k < i && blocks[k - 1].header.num + 1 >= 0 ==>
        blocks[k].header.num == blocks[k - 1].header.num + 1
      invariant -1 <= snapshotIndex < i
      invariant snapshotIndex == -1 ==> forall k :: 0 <= k < i ==> blocks[k].header.snapshot.None?
      invariant snapshotIndex >= 0 ==> blocks[snapshotIndex].header.snapshot.Some?
      invariant forall k :: 0 <= k < snapshotIndex ==> blocks[k].header.snapshot.None?
    {
      var header := blocks[i].header;
      if lastNum + 1 >= 0 && header.num != lastNum + 1 {
        return Err(BadEvent);
      }
      lastNum := header.num;
      if snapshotIndex == -1 && header.snapshot.Some? {
        snapshotIndex := i;
      }
      i := i + 1;
    }
    if snapshotIndex == -1 {
      NoFirstSnapshot(blocks);
      return Err(NoSnapshot);
    }
    FirstSnapshotIs(blocks, snapshotIndex);
    var snapshot := blocks[snapshotIndex].header.snapshot.value;
    if !ValidStreamId(snapshot.content.inception.streamId) {
      return Err(BadStreamId);
    }
    r := Ok(View(
      snapshot.content.inception.streamId, blocks, pool, Last(blocks).header.num + 1, snapshot, snapshotIndex));
  }

  /** Count back to the latest snapshot, stopping as soon as the threshold is reached. */
  method ShouldSnapshotScan(v: View, cfg: Config) returns (b: bool)
    ensures b <==> ShouldSnapshot(v, cfg)
  {
    var threshold := Threshold(cfg, v.streamId);
    var count := |v.pool|;
    if count >= threshold {
      return true;
    }
    var i := |v.blocks| - 1;
    assert v.blocks[..i + 1] == v.blocks;
    while i >= 0
      invariant -1 <= i < |v.blocks|
      invariant count < threshold
      invariant count + EventsSince(v.blocks[..i + 1]) == |v.pool| + EventsSince(v.blocks)
      decreases i
    {
      var block := v.blocks[i];
      assert Init(v.blocks[..i + 1]) == v.blocks[..i] && Last(v.blocks[..i + 1]) == block;
      if block.header.snapshot.Some? {
        break;
      }
      count := count + |block.events|;
      if count >= threshold {
        return true;
      }
      i := i - 1;
    }
    b := false;
  }

  lemma {:induction false} ReferencedIs(blocks: seq<Block>, h: Hash, f: int)
    requires -1 <= f < |blocks| && (f >= 0 ==> blocks[f].Hash() == h)
    requires forall k :: f < k < |blocks| ==> blocks[k].Hash() != h
    ensures Referenced(blocks, h) == if f == -1 then None else Some(f)
  {
    if f < |blocks| - 1 {
      ReferencedIs(Init(blocks), h, f);
    }
  }

  method ValidateNextEvent(v: View, cfg: Config, e: Event, now: Timestamp) returns (r: Option<Code>)
    ensures r == Validate(v, cfg, e, now)
  {
    var f := |v.blocks| - 1;
    while f >= 0 && v.blocks[f].Hash() != e.prevHash
      invariant -1 <= f < |v.blocks|
      invariant forall k :: f < k < |v.blocks| ==> v.blocks[k].Hash() != e.prevHash
    {
      f := f - 1;
    }
    ReferencedIs(v.blocks, e.prevHash, f);
    if f == -1 {
      return Some(BadPrevHash);
    }
    if f < |v.blocks| - 1 && !IsRecent(cfg, v.blocks[f + 1], now) {
      return Some(BadPrevHash);
    }
    var tail := v.blocks[f + 1..];
    var i := 0;
    while i < |tail|
      invariant 0 <= i <= |tail|
      invariant e !in AllEvents(tail[..i])
    {
      assert Init(tail[..i + 1]) == tail[..i] && Last(tail[..i + 1]) == tail[i];
      var j := 0;
      while j < |tail[i].events|
        invariant 0 <= j <= |tail[i].events|
        invariant e !in tail[i].events[..j]
      {
        if tail[i].events[j].Hash() == e.Hash() {
          BlockInEvents(tail, i, e);
          return Some(DuplicateEvent);
        }
        j := j + 1;
      }
      i := i + 1;
    }
    assert tail[..|tail|] == tail;
    var p := 0;
    while p < |v.pool|
      invariant 0 <= p <= |v.pool|
      invariant e !in v.pool[..p]
    {
      if v.pool[p].Hash() == e.Hash() {
        return Some(DuplicateEvent);
      }
      p := p + 1;
    }
    r := None;
  }

  /** Fetch the proposed events from the pool in the proposal's order. */
  method CollectEvents(pool: seq<Event>, hashes: seq<Hash>) returns (r: Option<seq<Event>>)
    ensures r == Collect(pool, hashes)
  {
    var events: seq<Event> := [];
    var i := 0;
    assert hashes[..0] == [];
    while i < |hashes|
      invariant 0 <= i <= |hashes|
      invariant Collect(pool, hashes[..i]) == Some(events)
    {
      assert Init(hashes[..i + 1]) == hashes[..i] && Last(hashes[..i + 1]) == hashes[i];
      if !(hashes[i].HashOf? && hashes[i].event in pool) {
        return None;
      }
      events := events + [hashes[i].event];
      i := i + 1;
    }
    assert hashes[..|hashes|] == hashes;
    r := Some(events);
  }

  /** Apply one block's events to the cloned snapshot; errors are skipped. */
  method UpdateAll(cell: SnapshotCell, es: seq<Event>, miniblockNum: int, firstNum: int)
    requires WellFormed(cell.Value()) && forall e :: e in es ==> !Panics(e, cell.content.Kind())
    modifies cell
    ensures cell.Value() == FoldEvents(old(cell.Value()), es, miniblockNum, firstNum)
    ensures WellFormed(cell.Value()) && cell.content.Kind() == old(cell.content.Kind())
  {
    hide Apply, WellFormed, Update;
    var j := 0;
    assert es[..0] == [];
    while j < |es|
      invariant 0 <= j <= |es|
      invariant cell.Value() == FoldEvents(old(cell.Value()), es[..j], miniblockNum, firstNum)
      invariant WellFormed(cell.Value()) && cell.content.Kind() == old(cell.content.Kind())
    {
      assert es[..j + 1][..j] == es[..j];
      var _ := cell.UpdateSnapshot(es[j], miniblockNum, firstNum + j);
      j := j + 1;
    }
    assert es[..|es|] == es;
  }

  method BuildSnapshot(v: View, events: seq<Event>, num: int, offset: int) returns (s: Snapshot)
    requires Usable(v) && forall e :: e in events ==> e in v.pool
    ensures s == FoldEvents(FoldTail(v.snapshot, v.blocks[v.snapshotIndex + 1..]), events, num, offset)
  {
    hide FoldEvents, WellFormed;
    var cell := new SnapshotCell(v.snapshot);
    ghost var tail := v.blocks[v.snapshotIndex + 1..];
    var i := v.snapshotIndex + 1;
    assert tail[..0] == [];
    while i < |v.blocks|
      invariant v.snapshotIndex < i <= |v.blocks|
      invariant cell.Value() == FoldTail(v.snapshot, tail[..i - v.snapshotIndex - 1])
      invariant WellFormed(cell.Value()) && cell.content.Kind() == v.snapshot.content.Kind()
    {
      ghost var k := i - v.snapshotIndex - 1;
      assert Init(tail[..k + 1]) == tail[..k] && Last(tail[..k + 1]) == v.blocks[i];
      var block := v.blocks[i];
      UpdateAll(cell, block.events, block.header.num, block.header.eventNumOffset);
      i := i + 1;
    }
    assert tail[..|tail|] == tail;
    UpdateAll(cell, events, num, offset);
    s := Snapshot(cell.content, cell.joined);
  }

  method MakeMiniblock(v: View, p: Proposal, signer: Bytes, now: Timestamp) returns (r: Result<Block>)
    requires Usable(v)
    ensures r == BuildBlock(v, p, signer, now)
  {
    hide FoldEvents, WellFormed;
    if v.generation != p.num || p.prevHash != Last(v.blocks).Hash() {
      return Err(BlockMismatch);
    }
    var events := CollectEvents(v.pool, p.hashes);
    if events.None? {
      return Err(MissingEvents);
    }
    var last := Last(v.blocks);
    var num, offset := last.header.num + 1, last.header.eventNumOffset + |last.events| + 1;
    var prevSnapshot := if last.header.snapshot.Some? then last.header.num else last.header.prevSnapshotNum;
    var snapshot: Option<Snapshot> := None;
    if p.shouldSnapshot {
      var s := BuildSnapshot(v, events.value, num, offset);
      snapshot := Some(s);
    }
    r := Ok(Block(
      signer,
      Header(num, NextTimestamp(last.header.timestamp, now), Hashes(events.value), last.Hash(),
             snapshot, offset, prevSnapshot),
      events.value));
  }

  /** Delete the block's events one by one from a copy of the pool's map. */
  method DeleteEvents(pool: seq<Event>, es: seq<Event>) returns (ok: bool, remaining: set<Event>)
    ensures ok <==> Takes(pool, es)
    ensures ok ==> forall e :: e in remaining <==> e in pool && e !in es
  {
    remaining := set e | e in pool;
    var i := 0;
    while i < |es|
      invariant 0 <= i <= |es|
      invariant forall k :: 0 <= k < i ==> es[k] in pool
      invariant forall e :: e in remaining <==> e in pool && e !in es[..i]
      invariant forall k, l :: 0 <= k < l < i ==> es[k] != es[l]
    {
      if es[i] !in remaining {
        assert es[i] in pool ==> es[i] in es[..i];
        return false, remaining;
      }
      assert forall k :: 0 <= k < i ==> es[k] in es[..i];
      remaining := remaining - {es[i]};
      i := i + 1;
    }
    ok := true;
  }

  /** Rebuild the pool in order from the events that remain. */
  method KeepRemaining(pool: seq<Event>, remaining: set<Event>, ghost es: seq<Event>) returns (r: seq<Event>)
    requires forall e :: e in remaining <==> e in pool && e !in es
    ensures r == Minus(pool, es)
  {
    r := [];
    var p := 0;
    while p < |pool|
      invariant 0 <= p <= |pool|
      invariant r == Minus(pool[..p], es)
    {
      assert Init(pool[..p + 1]) == pool[..p] && Last(pool[..p + 1]) == pool[p];
      if pool[p] in remaining {
        r := r + [pool[p]];
      }
      p := p + 1;
    }
    assert pool[..|pool|] == pool;
  }

  method CopyAndApplyBlock(v: View, b: Block, cfg: Config) returns (r: Result<View>)
    requires v.blocks != []
    ensures r == ApplyBlock(v, b, cfg)
  {
    hide Minus, Takes;
    var last := Last(v.blocks);
    if b.header.num != last.header.num + 1 || last.Hash() != b.header.prevHash {
      return Err(BadBlock);
    }
    var ok, remaining := DeleteEvents(v.pool, b.events);
    if !ok {
      return Err(BadBlock);
    }
    var pool := KeepRemaining(v.pool, remaining, b.events);
    var start, snapshotIndex, snapshot := 0, v.snapshotIndex, v.snapshot;
    if b.header.snapshot.Some? {
      snapshot := b.header.snapshot.value;
      start := Max(0, |v.blocks| - cfg.generations);
      snapshotIndex := |v.blocks| - start;
    }
    r := Ok(View(v.streamId, v.blocks[start..] + [b], pool, b.header.num + 1, snapshot, snapshotIndex));
  }

  method ComputeStats(v: View) returns (s: Stats)
    requires v.blocks != [] && 0 <= v.snapshotIndex < |v.blocks|
    ensures s == GetStats(v)
  {
    var inBlocks, snapshots := 0, 0;
    var i := 0;
    while i < |v.blocks|
      invariant 0 <= i <= |v.blocks|
      invariant inBlocks == Count(v.blocks[..i]) && snapshots == SnapshotCount(v.blocks[..i])
    {
      assert Init(v.blocks[..i + 1]) == v.blocks[..i] && Last(v.blocks[..i + 1]) == v.blocks[i];
      inBlocks := inBlocks + |v.blocks[i].events| + 1;
      if v.blocks[i].header.snapshot.Some? {
        snapshots := snapshots + 1;
      }
      i := i + 1;
    }
    assert v.blocks[..|v.blocks|] == v.blocks;
    var tail := v.blocks[v.snapshotIndex..];
    var total := v.blocks[v.snapshotIndex].header.eventNumOffset;
    i := 0;
    while i < |tail|
      invariant 0 <= i <= |tail|
      invariant total == v.blocks[v.snapshotIndex].header.eventNumOffset + Count(tail[..i])
    {
      assert Init(tail[..i + 1]) == tail[..i] && Last(tail[..i + 1]) == tail[i];
      total := total + |tail[i].events| + 1;
      i := i + 1;
    }
    assert tail[..|tail|] == tail;
    s := Stats(v.blocks[0].header.num, Last(v.blocks).header.num, inBlocks, snapshots, |v.pool|, total + |v.pool|);
  }
}
