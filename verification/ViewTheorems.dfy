/** What the view operations guarantee about the whole chain, although a view holds only part of it. */
module ViewTheorems {
  import opened Wrappers
  import opened ByteStrings
  import opened Messages
  import opened Snapshots
  import opened Chains
  import opened Views

  // ---------- the snapshot in a new header ----------

  /** Whatever was trimmed and whichever snapshot the window is based on, the tail replay is the full replay. */
  lemma WindowReplay(v: View, blocks: seq<Block>, pool: seq<Event>, threshold: int)
    requires Chain(blocks, threshold) && Window(v, blocks, pool)
    ensures FoldTail(v.snapshot, v.blocks[v.snapshotIndex + 1..]) == Replay(blocks)
  {
    hide FoldEvents, Hashes, Replay;
    var i := Base(v, blocks);
    assert blocks[i] == v.blocks[v.snapshotIndex];
    SnapshotAt(blocks, threshold, i);
    FoldTailIsReplay(blocks, threshold, i);
    assert v.blocks[v.snapshotIndex + 1..] == blocks[i + 1..];
  }

  /** The header fields of a new block, by the chain instead of by the fields of the last header. */
  lemma NextHeaderFields(v: View, blocks: seq<Block>, pool: seq<Event>, threshold: int)
    requires Chain(blocks, threshold) && Window(v, blocks, pool)
    ensures Last(v.blocks) == Last(blocks)
    ensures Last(blocks).header.num == |blocks| - 1
    ensures Last(blocks).header.eventNumOffset + |Last(blocks).events| + 1 == Count(blocks)
    ensures LatestSnapshot(blocks) ==
      if Last(blocks).header.snapshot.Some? then Last(blocks).header.num else Last(blocks).header.prevSnapshotNum
  {
    hide FoldEvents, Hashes, Replay;
    ChainFacts(blocks, threshold);
    assert blocks[..|blocks| - 1] == Init(blocks);
  }

  /**
   * A block built from a proposal for a prefix of the pool is a proper next block: in particular its snapshot, if it
   * has one, is the fold over every event since genesis with true block and event numbers.
   */
  lemma BuiltBlockFollows(
    v: View, p: Proposal, signer: Bytes, now: Timestamp, blocks: seq<Block>, pool: seq<Event>, threshold: int)
    requires Chain(blocks, threshold) && Window(v, blocks, pool)
    requires forall e :: e in pool ==> Addable(e, blocks)
    requires BuildBlock(v, p, signer, now).Ok?
    requires !p.shouldSnapshot ==> p.hashes != [] && EventsSince(blocks) + |p.hashes| < threshold
    ensures Follows(blocks, BuildBlock(v, p, signer, now).value, threshold)
    ensures BuildBlock(v, p, signer, now).value.events == Collect(pool, p.hashes).value
  {
    hide FoldEvents, Replay, FoldTail, IsGenesis, GenesisSnapshot;
    WindowReplay(v, blocks, pool, threshold);
    NextHeaderFields(v, blocks, pool, threshold);
    var events := Collect(pool, p.hashes).value;
    assert |events| == |p.hashes|;
  }

  lemma {:induction false} CollectPrefix(pool: seq<Event>, k: nat)
    requires k <= |pool|
    ensures Collect(pool, Hashes(pool[..k])) == Some(pool[..k])
  {
    var hashes := Hashes(pool[..k]);
    assert forall h :: h in hashes ==> exists i :: 0 <= i < k && h == hashes[i] == pool[i].Hash();
    var es := Collect(pool, hashes).value;
    assert |es| == |Hashes(es)| == k;
    assert forall i :: 0 <= i < k ==> es[i].Hash() == Hashes(es)[i] == pool[i].Hash();
    assert es == pool[..k];
  }

  // ---------- applying a block ----------

  lemma {:induction false} MinusDistinct(pool: seq<Event>, es: seq<Event>)
    requires Distinct(pool)
    ensures Distinct(Minus(pool, es))
  {
    if pool != [] {
      MinusDistinct(Init(pool), es);
      assert forall i :: 0 <= i < |Init(pool)| ==> Init(pool)[i] == pool[i] != Last(pool);
    }
  }

  lemma {:induction false} OneOccurrence(es: seq<Event>, e: Event)
    requires Distinct(es)
    ensures multiset(es)[e] == if e in es then 1 else 0
  {
    if es != [] {
      assert es == Init(es) + [Last(es)];
      OneOccurrence(Init(es), e);
    }
  }

  lemma {:induction false} MinusIsDifference(pool: seq<Event>, es: seq<Event>)
    requires Distinct(pool) && Takes(pool, es)
    ensures multiset(es) + multiset(Minus(pool, es)) == multiset(pool)
  {
    forall e ensures (multiset(es) + multiset(Minus(pool, es)))[e] == multiset(pool)[e] {
      MinusDistinct(pool, es);
      OneOccurrence(pool, e);
      OneOccurrence(es, e);
      OneOccurrence(Minus(pool, es), e);
    }
  }

  lemma {:induction false} MinusConcat(a: seq<Event>, b: seq<Event>, es: seq<Event>)
    ensures Minus(a + b, es) == Minus(a, es) + Minus(b, es)
  {
    if b == [] {
      assert a + b == a;
    } else {
      assert Init(a + b) == a + Init(b) && Last(a + b) == Last(b);
      MinusConcat(a, Init(b), es);
    }
  }

  lemma {:induction false} MinusAll(pool: seq<Event>, es: seq<Event>)
    ensures (forall e :: e in pool ==> e in es) ==> Minus(pool, es) == []
    ensures (forall e :: e in pool ==> e !in es) ==> Minus(pool, es) == pool
  {
    if pool != [] {
      assert pool == Init(pool) + [Last(pool)];
      MinusAll(Init(pool), es);
    }
  }

  lemma DistinctHalves(pool: seq<Event>, k: nat)
    requires Distinct(pool) && k <= |pool|
    ensures forall e :: e in pool[k..] ==> e !in pool[..k]
  {
    forall e | e in pool[k..] ensures e !in pool[..k] {
      var j :| 0 <= j < |pool| - k && pool[k..][j] == e;
      assert pool[k + j] == e;
    }
  }

  /** A block made of the first `k` pooled events leaves exactly the others, in order. */
  lemma MinusPrefix(pool: seq<Event>, k: nat)
    requires Distinct(pool) && k <= |pool|
    ensures Takes(pool, pool[..k]) && Minus(pool, pool[..k]) == pool[k..]
  {
    hide Minus;
    var front, back := pool[..k], pool[k..];
    assert pool == front + back;
    MinusConcat(front, back, front);
    MinusAll(front, front);
    DistinctHalves(pool, k);
    MinusAll(back, front);
  }

  /**
   * Applying conserves events: the block's events and the new pool are together a permutation of the old pool, and
   * the new pool is what is left of the old one in order.
   */
  lemma ApplyConservesEvents(v: View, b: Block, cfg: Config)
    requires v.blocks != [] && Distinct(v.pool) && ApplyBlock(v, b, cfg).Ok?
    ensures var w := ApplyBlock(v, b, cfg).value;
      && multiset(b.events) + multiset(w.pool) == multiset(v.pool)
      && w.pool == Minus(v.pool, b.events) && Distinct(w.pool)
  {
    MinusIsDifference(v.pool, b.events);
    MinusDistinct(v.pool, b.events);
  }

  /**
   * Propose, then add any number of events, then apply: the candidate is accepted and leaves exactly the events added
   * since, in order.
   */
  lemma CandidateAppliesAfterAdds(v: View, b: Block, added: seq<Event>, cfg: Config)
    requires v.blocks != [] && Distinct(v.pool + added)
    requires b.header.num == Last(v.blocks).header.num + 1 && b.header.prevHash == Last(v.blocks).Hash()
    requires b.events == v.pool
    ensures var r := ApplyBlock(v.(pool := v.pool + added), b, cfg); r.Ok? && r.value.pool == added
  {
    var pool := v.pool + added;
    assert pool[..|v.pool|] == v.pool && pool[|v.pool|..] == added;
    MinusPrefix(pool, |v.pool|);
  }

  /** Once another block has been applied, every block built for the old tip is rejected. */
  lemma StaleCandidateRejected(v: View, applied: Block, stale: Block, cfg: Config)
    requires v.blocks != [] && ApplyBlock(v, applied, cfg).Ok?
    requires stale.header.num == Last(v.blocks).header.num + 1
    ensures ApplyBlock(ApplyBlock(v, applied, cfg).value, stale, cfg) == Err(BadBlock)
    ensures forall p: Proposal, signer, now | p.num == v.generation && v.generation == Last(v.blocks).header.num + 1 &&
      0 <= v.snapshotIndex < |v.blocks| ::
      BuildBlock(ApplyBlock(v, applied, cfg).value, p, signer, now) == Err(BlockMismatch)
  {
    var w := ApplyBlock(v, applied, cfg).value;
    assert Last(w.blocks) == applied;
  }

  /** The window after a block: still a suffix of the longer chain, based on a block that carries its snapshot. */
  lemma ApplyKeepsWindow(v: View, b: Block, cfg: Config, blocks: seq<Block>, pool: seq<Event>)
    requires Window(v, blocks, pool) && b.header.num == |blocks| && ApplyBlock(v, b, cfg).Ok?
    ensures Window(ApplyBlock(v, b, cfg).value, blocks + [b], Minus(pool, b.events))
  {
    hide Minus, Takes;
    var w := ApplyBlock(v, b, cfg).value;
    var full := blocks + [b];
    assert w.blocks == full[|full| - |w.blocks|..];
  }

  // ---------- exactly once ----------

  /** An event whose reference is block `p` cannot be in block `p` or before it. */
  lemma NotBeforeReference(blocks: seq<Block>, threshold: int, e: Event, p: nat, q: nat)
    requires Chain(blocks, threshold) && p < |blocks| && e.prevHash == blocks[p].Hash()
    requires q < |blocks| && e in blocks[q].events
    ensures p < q
  {
    hide FoldEvents, Replay, GenesisSnapshot, Hashes;
    ChainPrefix(blocks, threshold, 1);
    if q > 0 {
      ChainPrefix(blocks, threshold, q);
      var r :| 0 <= r < q && e.prevHash == blocks[..q][r].Hash();
      HashFixesPosition(blocks, threshold, r, p);
    }
  }

  /**
   * The bounded duplicate check is exact: for an event that refers to a block of the window, looking only at the
   * blocks after that one and the pool finds a duplicate if and only if the whole history holds one.
   */
  lemma BoundedCheckIsExact(
    v: View, e: Event, f: nat, blocks: seq<Block>, pool: seq<Event>, threshold: int)
    requires Chain(blocks, threshold) && Window(v, blocks, pool)
    requires f < |v.blocks| && e.prevHash == v.blocks[f].Hash()
    ensures e in AllEvents(v.blocks[f + 1..]) || e in v.pool <==> e in AllEvents(blocks) + pool
  {
    hide AllEvents, Chain;
    var start := |blocks| - |v.blocks|;
    var tail := v.blocks[f + 1..];
    assert forall i :: 0 <= i < |tail| ==> tail[i] == blocks[start + f + 1 + i];
    if e in AllEvents(tail) {
      EventInBlock(tail, e);
      var q :| 0 <= q < |tail| && e in tail[q].events;
      BlockInEvents(blocks, start + f + 1 + q, e);
    }
    if e in AllEvents(blocks) {
      EventInBlock(blocks, e);
      var q :| 0 <= q < |blocks| && e in blocks[q].events;
      assert blocks[start + f] == v.blocks[f];
      NotBeforeReference(blocks, threshold, e, start + f, q);
      BlockInEvents(tail, q - start - f - 1, e);
    }
  }

  /** A validated event is new to the entire history, trimmed blocks included. */
  lemma ValidatedIsNew(
    v: View, cfg: Config, e: Event, now: Timestamp, blocks: seq<Block>, pool: seq<Event>, threshold: int)
    requires Chain(blocks, threshold) && Window(v, blocks, pool)
    requires Validate(v, cfg, e, now).None?
    ensures e !in AllEvents(blocks) + pool
    ensures RefersTo(e, blocks)
  {
    hide AllEvents, Chain;
    var f := Referenced(v.blocks, e.prevHash).value;
    BoundedCheckIsExact(v, e, f, blocks, pool, threshold);
    assert v.blocks[f] == blocks[|blocks| - |v.blocks| + f];
  }

  // ---------- statistics and cookies ----------

  lemma {:induction false} CountConcat(a: seq<Block>, b: seq<Block>)
    ensures Count(a + b) == Count(a) + Count(b)
  {
    if b == [] {
      assert a + b == a;
    } else {
      assert Init(a + b) == a + Init(b) && Last(a + b) == Last(b);
      CountConcat(a, Init(b));
    }
  }

  lemma NumberAt(blocks: seq<Block>, threshold: int, i: nat)
    requires Chain(blocks, threshold) && i < |blocks|
    ensures blocks[i].header.num == i && blocks[i].header.eventNumOffset == Count(blocks[..i])
  {
    hide *;
    BlockFacts(blocks, threshold, i);
  }

  lemma {:induction false} CountSplits(blocks: seq<Block>)
    ensures Count(blocks) == |AllEvents(blocks)| + |blocks|
  {
    if blocks != [] {
      CountSplits(Init(blocks));
    }
  }

  lemma {:induction false} SnapshotsCounted(blocks: seq<Block>)
    ensures SnapshotCount(blocks) == |set i | 0 <= i < |blocks| && blocks[i].header.snapshot.Some?|
  {
    if blocks != [] {
      var init, n := Init(blocks), |blocks| - 1;
      SnapshotsCounted(init);
      var before := set i | 0 <= i < |init| && init[i].header.snapshot.Some?;
      var all := set i | 0 <= i < |blocks| && blocks[i].header.snapshot.Some?;
      assert forall i :: 0 <= i < n ==> init[i] == blocks[i];
      assert n !in before;
      if blocks[n].header.snapshot.Some? {
        assert all == before + {n};
      } else {
        assert all == before;
      }
    }
  }

  /** The total event count is the true total of the stream although only a window is in memory. */
  lemma TotalEverIsTrueTotal(v: View, blocks: seq<Block>, pool: seq<Event>, threshold: int)
    requires Chain(blocks, threshold) && Window(v, blocks, pool)
    ensures GetStats(v).totalEver == Count(blocks) + |pool|
    ensures GetStats(v).firstNum == |blocks| - |v.blocks| && GetStats(v).lastNum == |blocks| - 1
    ensures GetStats(v).eventsInBlocks == |AllEvents(v.blocks)| + |v.blocks| && GetStats(v).eventsInPool == |pool|
    ensures GetStats(v).snapshotsInBlocks == |set i | 0 <= i < |v.blocks| && v.blocks[i].header.snapshot.Some?|
  {
    hide FoldEvents, Replay, GenesisSnapshot, Hashes, Chain, Count, SnapshotCount, AllEvents;
    CountSplits(v.blocks);
    SnapshotsCounted(v.blocks);
    var i := Base(v, blocks);
    NumberAt(blocks, threshold, i);
    NumberAt(blocks, threshold, |blocks| - 1);
    NumberAt(blocks, threshold, |blocks| - |v.blocks|);
    assert v.blocks[v.snapshotIndex..] == blocks[i..];
    assert blocks == blocks[..i] + blocks[i..];
    CountConcat(blocks[..i], blocks[i..]);
    assert blocks[i] == v.blocks[v.snapshotIndex];
  }

  // ---------- a view built from stored blocks ----------

  lemma {:induction false} FirstSnapshotExactly(blocks: seq<Block>)
    ensures match FirstSnapshot(blocks)
      case None => forall j :: 0 <= j < |blocks| ==> blocks[j].header.snapshot.None?
      case Some(i) =>
        && i < |blocks| && blocks[i].header.snapshot.Some?
        && forall j :: 0 <= j < i ==> blocks[j].header.snapshot.None?
  {
    if blocks != [] {
      FirstSnapshotExactly(Init(blocks));
      assert forall j :: 0 <= j < |blocks| - 1 ==> Init(blocks)[j] == blocks[j];
    }
  }

  /** Block `i` is the first with a snapshot. */
  predicate FirstWith(blocks: seq<Block>, i: nat)
    requires i < |blocks|
  {
    blocks[i].header.snapshot.Some? && forall j :: 0 <= j < i ==> blocks[j].header.snapshot.None?
  }

  /**
   * Whatever blocks are given: a view is built exactly if there are blocks, they follow each other in number, one has a
   * snapshot and the first that has names a valid stream. It is then based on that one, and the generation is the
   * number after the last block.
   */
  lemma BuiltExactly(blocks: seq<Block>, pool: seq<Event>)
    ensures MakeView(blocks, pool).Ok? <==>
      && blocks != []
      && (forall i :: 0 < i < |blocks| ==>
            blocks[i].header.num == blocks[i - 1].header.num + 1 || blocks[i - 1].header.num < -1)
      && exists i :: 0 <= i < |blocks| && FirstWith(blocks, i)
           && ValidStreamId(blocks[i].header.snapshot.value.content.inception.streamId)
    ensures MakeView(blocks, pool).Ok? ==>
      var v := MakeView(blocks, pool).value;
      && v.blocks == blocks && v.pool == pool && v.generation == blocks[|blocks| - 1].header.num + 1
      && 0 <= v.snapshotIndex < |blocks| && FirstWith(blocks, v.snapshotIndex)
      && v.snapshot == blocks[v.snapshotIndex].header.snapshot.value
      && v.streamId == v.snapshot.content.inception.streamId
  {
    hide FirstSnapshot, ValidStreamId;
    FirstSnapshotExactly(blocks);
  }

  // ---------- a view received from another node ----------

  function LastSnapshot(blocks: seq<Block>): (n: nat)
    ensures blocks != [] ==> n < |blocks|
  {
    if blocks == [] then 0
    else if Last(blocks).header.snapshot.Some? then |blocks| - 1
    else LastSnapshot(Init(blocks))
  }

  /** The remote constructor pairs the first block's snapshot with the position of the last snapshot. */
  function MakeRemoteView(blocks: seq<Block>, pool: seq<Event>): Result<View> {
    if blocks == [] then Err(StreamEmpty)
    else if !Consecutive(blocks) then Err(BadEvent)
    else if blocks[0].header.snapshot.None? then Err(NoSnapshot)
    else
      var snapshot := blocks[0].header.snapshot.value;
      if !ValidStreamId(snapshot.content.inception.streamId) then Err(BadStreamId)
      else Ok(View(
        snapshot.content.inception.streamId, blocks, pool, Last(blocks).header.num + 1, snapshot,
        LastSnapshot(blocks)))
  }

  lemma {:induction false} LastSnapshotFacts(blocks: seq<Block>)
    requires blocks != [] && blocks[0].header.snapshot.Some?
    ensures blocks[LastSnapshot(blocks)].header.snapshot.Some?
    ensures LastSnapshot(blocks) == 0 <==> forall i :: 0 < i < |blocks| ==> blocks[i].header.snapshot.None?
  {
    if |blocks| > 1 && Last(blocks).header.snapshot.None? {
      LastSnapshotFacts(Init(blocks));
    }
  }

  /**
   * Such a view is consistent exactly when the last snapshot in the response equals the first block's; in particular
   * when no later block of the response carries one.
   */
  lemma RemoteViewConsistent(blocks: seq<Block>, suffix: nat, pool: seq<Event>, threshold: int)
    requires Chain(blocks, threshold) && suffix < |blocks|
    requires MakeRemoteView(blocks[suffix..], pool).Ok?
    ensures var v := MakeRemoteView(blocks[suffix..], pool).value;
      && (Window(v, blocks, pool) <==>
            v.blocks[LastSnapshot(v.blocks)].header.snapshot == v.blocks[0].header.snapshot)
      && ((forall i :: 0 < i < |v.blocks| ==> v.blocks[i].header.snapshot.None?) ==> Window(v, blocks, pool))
  {
    hide FoldEvents, Replay, GenesisSnapshot, Hashes, Chain;
    hide LastSnapshot;
    var tail := blocks[suffix..];
    LastSnapshotFacts(tail);
    assert Last(tail) == Last(blocks);
    assert Last(blocks).header.num == |blocks| - 1 by { ChainFacts(blocks, threshold); }
    assert blocks[|blocks| - |tail|..] == tail;
  }

  lemma ConsecutiveSuffix(blocks: seq<Block>, i: nat, threshold: int)
    requires Chain(blocks, threshold) && i <= |blocks|
    ensures Consecutive(blocks[i..])
  {
    hide Chain;
    forall k | 0 <= k < |blocks| ensures blocks[k].header.num == k {
      NumberAt(blocks, threshold, k);
    }
    assert forall k :: 0 <= k < |blocks[i..]| ==> blocks[i..][k] == blocks[i + k];
  }

  /** The response a node serves, from the latest snapshot on, always rebuilds into a window of its chain. */
  lemma ServedResponseIsConsistent(v: View, blocks: seq<Block>, pool: seq<Event>, threshold: int)
    requires Chain(blocks, threshold) && Window(v, blocks, pool) && Base(v, blocks) == LatestSnapshot(blocks)
    requires ValidStreamId(v.snapshot.content.inception.streamId)
    ensures MakeRemoteView(v.blocks[v.snapshotIndex..], pool).Ok?
    ensures Window(MakeRemoteView(v.blocks[v.snapshotIndex..], pool).value, blocks, pool)
  {
    hide FoldEvents, Replay, GenesisSnapshot, Hashes, Chain, LatestSnapshot, LastSnapshot, ValidStreamId;
    var i := Base(v, blocks);
    var tail := blocks[i..];
    assert v.blocks[v.snapshotIndex..] == tail && tail[0] == blocks[i];
    LatestSnapshotIsLatest(blocks, threshold);
    assert forall k :: 0 < k < |tail| ==> tail[k] == blocks[i + k];
    assert Consecutive(tail) by { ConsecutiveSuffix(blocks, i, threshold); }
    RemoteViewConsistent(blocks, i, pool, threshold);
  }
}
