/**
 * All events of a stream in order, each with the number of its block and its own number, and what it means that the
 * last event that sets something decides.
 */
module Histories {
  import opened Wrappers
  import opened Messages
  import opened Snapshots
  import opened Chains
  import opened Queries

  /** An event with the number of its block and its own number in the stream. */
  datatype Numbered = Numbered(e: Event, block: int, num: int)

  function ApplyAll(s: Snapshot, ns: seq<Numbered>): Snapshot {
    if ns == [] then s
    else var n := Last(ns); Apply(ApplyAll(s, Init(ns)), n.e, n.block, n.num)
  }

  /** The events of one block. */
  function Numbers(es: seq<Event>, block: int, firstNum: int): (r: seq<Numbered>)
    ensures |r| == |es| && forall j :: 0 <= j < |es| ==> r[j] == Numbered(es[j], block, firstNum + j)
  {
    seq(|es|, j requires 0 <= j < |es| => Numbered(es[j], block, firstNum + j))
  }

  lemma {:induction false} FoldIsApplyAll(s: Snapshot, es: seq<Event>, block: int, firstNum: int)
    ensures FoldEvents(s, es, block, firstNum) == ApplyAll(s, Numbers(es, block, firstNum))
  {
    hide Apply;
    if es != [] {
      var n := |es| - 1;
      FoldIsApplyAll(s, es[..n], block, firstNum);
      assert Init(Numbers(es, block, firstNum)) == Numbers(es[..n], block, firstNum);
    }
  }

  lemma {:induction false} ApplyAllConcat(s: Snapshot, a: seq<Numbered>, b: seq<Numbered>)
    ensures ApplyAll(s, a + b) == ApplyAll(ApplyAll(s, a), b)
  {
    hide Apply;
    if b == [] {
      assert a + b == a;
    } else {
      assert Init(a + b) == a + Init(b) && Last(a + b) == Last(b);
      ApplyAllConcat(s, a, Init(b));
    }
  }

  lemma {:induction false} ApplyAllKeeps(s: Snapshot, ns: seq<Numbered>)
    requires WellFormed(s)
    ensures Keeps(s, ApplyAll(s, ns))
  {
    hide Apply;
    if ns != [] {
      var t, n := ApplyAll(s, Init(ns)), Last(ns);
      ApplyAllKeeps(s, Init(ns));
      ApplyKeeps(t, n.e, n.block, n.num);
      KeepsTransitive(s, t, Apply(t, n.e, n.block, n.num));
    }
  }

  /** Every event of the stream after the inception, numbered. */
  function History(blocks: seq<Block>): seq<Numbered>
    requires blocks != [] && blocks[0].events != []
  {
    if |blocks| == 1 then Numbers(blocks[0].events[1..], 0, 1)
    else History(Init(blocks)) + Numbers(Last(blocks).events, |blocks| - 1, Count(Init(blocks)))
  }

  lemma {:induction false} ReplayIsApplyAll(blocks: seq<Block>, threshold: int)
    requires Chain(blocks, threshold)
    ensures blocks[0].events != [] && Initial(blocks[0].events[0]).Some?
    ensures Replay(blocks) == ApplyAll(Initial(blocks[0].events[0]).value, History(blocks))
  {
    hide FoldEvents, ApplyAll, GenesisSnapshot, Initial, Follows, WellFormed;
    var es := blocks[0].events;
    GenesisParts(es);
    if |blocks| == 1 {
      FoldIsApplyAll(Initial(es[0]).value, es[1..], 0, 1);
    } else {
      var init, last := Init(blocks), Last(blocks);
      ReplayIsApplyAll(init, threshold);
      FoldIsApplyAll(Replay(init), last.events, |blocks| - 1, Count(init));
      ApplyAllConcat(
        Initial(es[0]).value, History(init), Numbers(last.events, |blocks| - 1, Count(init)));
    }
  }

  lemma {:induction false} HistoryLength(blocks: seq<Block>)
    requires blocks != [] && blocks[0].events != []
    ensures |History(blocks)| == Count(blocks) - |blocks| - 1
  {
    if |blocks| == 1 {
      assert Init(blocks) == [];
    } else {
      HistoryLength(Init(blocks));
    }
  }

  /** The event at a position of a block is in the history with that block's number and its own number. */
  lemma {:induction false} HistoryAt(blocks: seq<Block>, i: nat, j: nat)
    requires blocks != [] && blocks[0].events != []
    requires i < |blocks| && j < |blocks[i].events| && (i == 0 ==> j > 0)
    ensures
      var k := Count(blocks[..i]) - i + j - 1;
      && 0 <= k < |History(blocks)|
      && History(blocks)[k] == Numbered(blocks[i].events[j], i, Count(blocks[..i]) + j)
  {
    if |blocks| == 1 {
      assert blocks[..0] == [] && Init(blocks) == [];
    } else {
      hide Count;
      var init, numbers := Init(blocks), Numbers(Last(blocks).events, |blocks| - 1, Count(Init(blocks)));
      HistoryLength(init);
      if i == |blocks| - 1 {
        assert blocks[..i] == init;
        assert (History(init) + numbers)[|History(init)| + j] == numbers[j];
      } else {
        assert blocks[..i] == init[..i] && blocks[i] == init[i];
        HistoryAt(init, i, j);
      }
    }
  }

  // ---------- last writers ----------

  /** What the last of the events that set something sets it to. */
  function Latest<T>(ns: seq<Numbered>, sets: Numbered -> Option<T>, start: T): T {
    if ns == [] then start
    else match sets(Last(ns))
      case Some(x) => x
      case None => Latest(Init(ns), sets, start)
  }

  /** Position of the last event with the property. */
  function LastWith(ns: seq<Numbered>, p: Numbered -> bool): (r: Option<nat>)
    ensures r.Some? ==> r.value < |ns| && p(ns[r.value]) && forall k :: r.value < k < |ns| ==> !p(ns[k])
    ensures r.None? ==> forall k :: 0 <= k < |ns| ==> !p(ns[k])
  {
    if ns == [] then None
    else if p(Last(ns)) then Some(|ns| - 1)
    else LastWith(Init(ns), p)
  }

  lemma {:induction false} LatestIsLast<T>(ns: seq<Numbered>, sets: Numbered -> Option<T>, start: T)
    ensures match LastWith(ns, n => sets(n).Some?)
      case None => Latest(ns, sets, start) == start
      case Some(k) => sets(ns[k]) == Some(Latest(ns, sets, start))
  {
    if ns != [] {
      LatestIsLast(Init(ns), sets, start);
    }
  }

  function Given<T>(x: Option<T>, otherwise: T): T {
    match x case Some(y) => y case None => otherwise
  }
}
