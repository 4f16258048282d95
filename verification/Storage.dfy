/** One stream's rows in the node's database: all miniblocks, the minipool, and the block candidates. */
module Storage {
  import opened Wrappers
  import opened Messages

  /** `generation` is kept in the minipool's service row; every event row of the minipool carries the same number. */
  datatype Store = Store(
    blocks: seq<Block>, generation: int, pool: seq<Event>, lastSnapshot: int, candidates: map<(int, Hash), Block>)

  function CreateStream(genesis: Block): Store {
    Store([genesis], 1, [], 0, map[])
  }

  /** The requested number of preceding blocks does not enter the query: reading starts at the last snapshot. */
  function ReadFromLastSnapshot(st: Store): Result<(seq<Block>, seq<Event>)> {
    if !(0 <= st.lastSnapshot < |st.blocks|) then Err(StorageFailure)
    else if st.pool != [] && st.generation != |st.blocks| then Err(StorageFailure)
    else Ok((st.blocks[st.lastSnapshot..], st.pool))
  }

  function WriteEvent(st: Store, generation: int, slot: int, e: Event): Result<Store> {
    if st.generation != generation || |st.pool| != slot then Err(StorageFailure)
    else Ok(st.(pool := st.pool + [e]))
  }

  /** A candidate for an already decided number is refused; an existing candidate with the same hash is kept. */
  function WriteCandidate(st: Store, b: Block): Result<Store> {
    var key := (b.header.num, b.Hash());
    if b.header.num < |st.blocks| then Err(StorageFailure)
    else if key in st.candidates then Ok(st)
    else Ok(st.(candidates := st.candidates[key := b]))
  }

  function Promote(st: Store, generation: int, h: Hash, snapshot: bool, envelopes: seq<Event>): Result<Store> {
    if generation != |st.blocks| then Err(StorageFailure)
    else if (generation, h) !in st.candidates then Err(NotFound)
    else Ok(Store(
      st.blocks + [st.candidates[(generation, h)]], generation + 1, envelopes,
      if snapshot then generation else st.lastSnapshot,
      map k | k in st.candidates && k.0 > generation :: st.candidates[k]))
  }

  /** What is read back: the blocks from the last snapshot on and the pool, unless the rows contradict each other. */
  lemma ReadExactly(st: Store)
    ensures ReadFromLastSnapshot(st).Ok? <==>
      0 <= st.lastSnapshot < |st.blocks| && (|st.pool| > 0 ==> st.generation == |st.blocks|)
    ensures ReadFromLastSnapshot(st).Ok? ==>
      var (blocks, pool) := ReadFromLastSnapshot(st).value;
      && pool == st.pool && |blocks| == |st.blocks| - st.lastSnapshot
      && forall i :: 0 <= i < |blocks| ==> blocks[i] == st.blocks[st.lastSnapshot + i]
  {
  }
}
