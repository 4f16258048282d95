/**
 * Views share the arrays behind their block slices: applying a block appends to a slice of the previous view's slice,
 * which writes into the spare capacity of the same array. No view already handed out changes.
 */
module SharedBlocks {
  import opened Messages

  /** A window of `len` blocks from `off`; the capacity reaches to the end of the array. */
  datatype Slice = Slice(arr: array<Block>, off: nat, len: nat) {
    predicate InBounds() { off + len <= arr.Length }

    function Contents(): seq<Block>
      requires InBounds()
      reads arr
    {
      arr[off..off + len]
    }

    /** The slice holds the array cell at this position. */
    predicate Covers(a: array<Block>, at: int) {
      arr == a && off <= at < off + len
    }
  }

  /** Appending writes in place when there is capacity, and otherwise copies to an array `room` blocks larger. */
  method Append(s: Slice, b: Block, room: nat) returns (r: Slice)
    requires s.InBounds()
    modifies s.arr
    ensures r.InBounds() && r.Contents() == old(s.Contents()) + [b]
    ensures if s.off + s.len < s.arr.Length then r == Slice(s.arr, s.off, s.len + 1) else fresh(r.arr) && r.off == 0
    ensures s.off + s.len < s.arr.Length ==> s.arr[..] == old(s.arr[..])[s.off + s.len := b]
    ensures s.off + s.len == s.arr.Length ==> s.arr[..] == old(s.arr[..])
  {
    if s.off + s.len < s.arr.Length {
      s.arr[s.off + s.len] := b;
      r := Slice(s.arr, s.off, s.len + 1);
      assert s.arr[s.off..s.off + s.len + 1] == s.arr[s.off..s.off + s.len] + [b];
    } else {
      var blocks := s.Contents();
      var arr := new Block[s.len + 1 + room](i => if 0 <= i < |blocks| then blocks[i] else b);
      r := Slice(arr, 0, s.len + 1);
      assert arr[0..s.len + 1] == blocks + [b];
    }
  }

  /**
   * Exactly when an append leaves another slice as it was: the slice does not cover the cell that is written, or held
   * the same block there already. Appending to the newest slice of an array is always of the first kind.
   */
  twostate lemma AppendLeaves(s: Slice, q: Slice, b: Block)
    requires s.InBounds() && q.InBounds() && q.arr == s.arr && s.off + s.len < s.arr.Length
    requires s.arr[..] == old(s.arr[..])[s.off + s.len := b]
    ensures q.Contents() == old(q.Contents()) <==>
      !q.Covers(s.arr, s.off + s.len) || old(q.arr[s.off + s.len]) == b
    ensures q.off + q.len <= s.off + s.len ==> q.Contents() == old(q.Contents())
  {
    var at, was := s.off + s.len, old(q.Contents());
    assert forall i :: 0 <= i < q.len ==>
      q.Contents()[i] == s.arr[..][q.off + i] && was[i] == old(s.arr[..])[q.off + i];
    if q.Covers(s.arr, at) {
      assert q.Contents()[at - q.off] == b && was[at - q.off] == old(q.arr[at]);
    }
  }

  /** A view's blocks as handed to a reader, with what they held at that moment. */
  datatype Handed = Handed(slice: Slice, blocks: seq<Block>)

  class BlockHolder {
    var current: Slice
    ghost var handed: seq<Handed>

    /** Everything handed out still reads the same, and nothing reaches past the current slice in its array. */
    ghost predicate Valid()
      reads this, current.arr, set h | h in handed :: h.slice.arr
    {
      && current.InBounds()
      && forall h :: h in handed ==>
           && h.slice.InBounds() && h.slice.Contents() == h.blocks
           && (h.slice.arr == current.arr ==> h.slice.off + h.slice.len <= current.off + current.len)
    }

    constructor (blocks: seq<Block>)
      requires blocks != []
      ensures Valid() && current.Contents() == blocks && handed == [Handed(current, blocks)]
      ensures fresh(current.arr)
    {
      var arr := new Block[|blocks|](i requires 0 <= i < |blocks| => blocks[i]);
      current := Slice(arr, 0, |blocks|);
      new;
      assert current.Contents() == blocks;
      handed := [Handed(current, blocks)];
    }

    /** A view that only adds an event shares the whole slice. */
    method Share()
      requires Valid()
      modifies this`handed
      ensures Valid() && handed == old(handed) + [Handed(current, current.Contents())]
    {
      handed := handed + [Handed(current, current.Contents())];
    }

    /** Compute the new slice: at most the cell after the current slice is written, which no view handed out reaches. */
    method Extend(start: nat, b: Block, room: nat) returns (next: Slice)
      requires Valid() && start <= current.len
      modifies current.arr
      ensures Valid() && current.Contents() == old(current.Contents())
      ensures next.InBounds() && next.Contents() == old(current.Contents())[start..] + [b]
      ensures fresh(next.arr) || (next.arr == current.arr && next.off + next.len == current.off + current.len + 1)
    {
      ghost var was, cells := current.Contents(), current.arr[..];
      var at := current.off + current.len;
      var tail := Slice(current.arr, current.off + start, current.len - start);
      assert tail.Contents() == was[start..];
      next := Append(tail, b, room);
      assert forall i :: 0 <= i < at ==> current.arr[..][i] == cells[i];
      forall h | h in handed ensures h.slice.InBounds() && h.slice.Contents() == h.blocks {
        if h.slice.arr == current.arr {
          assert h.slice.Contents() == current.arr[..][h.slice.off..h.slice.off + h.slice.len];
          assert h.blocks == cells[h.slice.off..h.slice.off + h.slice.len];
        }
      }
      assert current.Contents() == current.arr[..][current.off..at] && was == cells[current.off..at];
    }

    /**
     * Apply a block: the new slice is computed first and only installed if storage accepts it. Whether or not it does,
     * every view handed out before still shows the same blocks.
     */
    method Apply(start: nat, b: Block, room: nat, promoted: bool)
      requires Valid() && start <= current.len
      modifies this, current.arr
      ensures Valid() && old(handed) <= handed
      ensures forall h :: h in old(handed) ==> h.slice.Contents() == h.blocks
      ensures promoted ==>
        && current.Contents() == old(current.Contents())[start..] + [b]
        && handed == old(handed) + [Handed(current, current.Contents())]
      ensures !promoted ==>
        current == old(current) && current.Contents() == old(current.Contents()) && handed == old(handed)
    {
      var next := Extend(start, b, room);
      if promoted {
        current := next;
        handed := handed + [Handed(current, current.Contents())];
      }
    }
  }
}
