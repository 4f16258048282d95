/**
 * The chain monitor's polling loop: every poll observes a head, or fails, and hands the blocks since the last one to
 * the block callbacks and the logs of the same range to the event callbacks. Block numbers are 64-bit unsigned.
 */
module Monitor {
  import opened Wrappers

  const TWO_64 := 0x1_0000_0000_0000_0000

  /** Heights far enough below 2^64 that adding a range does not wrap. */
  type Height = n: nat | n < TWO_64 / 2

  const MAX_RANGE := 25

  /** A block callback: the last block it was given, all it was given, and where the monitor stood when it was added. */
  datatype BlockCallback = BlockCallback(fromBlock: nat, seen: seq<nat>, addedAt: nat)

  /** Log ranges are inclusive; `ranges` are those fetched and dispatched. */
  datatype State = State(
    fromBlock: nat, lastProcessed: Option<nat>, callbacks: seq<BlockCallback>, wantsLogs: bool,
    ranges: seq<(nat, nat)>)

  datatype Step =
    | Poll(head: Option<Height>, logsOk: bool)
    | AddBlockCallback
    | AddEventCallback

  function Start(initialBlock: Height): State {
    State(initialBlock, None, [], false, [])
  }

  /** Unsigned subtraction wraps. */
  function Minus64(a: nat, b: nat): nat {
    (a - b) % TWO_64
  }

  function RangeEnd(fromBlock: nat, head: nat): nat {
    if Minus64(head, fromBlock) > MAX_RANGE then fromBlock + MAX_RANGE else head
  }

  function Receive(cb: BlockCallback, n: nat): BlockCallback {
    if cb.fromBlock < n then cb.(fromBlock := n, seen := cb.seen + [n]) else cb
  }

  /** Blocks `a` up to but not including `b`, one by one. */
  function ReceiveAll(cb: BlockCallback, a: nat, b: nat): BlockCallback
    decreases b
  {
    if b <= a then cb else Receive(ReceiveAll(cb, a, b - 1), b - 1)
  }

  function Dispatch(cbs: seq<BlockCallback>, a: nat, b: nat): (r: seq<BlockCallback>)
    ensures |r| == |cbs|
  {
    seq(|cbs|, k requires 0 <= k < |cbs| => ReceiveAll(cbs[k], a, b))
  }

  /** A poll that fails, or sees no new block, or cannot fetch logs, changes nothing. */
  predicate Processes(s: State, step: Step) {
    && step.Poll? && step.head.Some?
    && !(s.lastProcessed.Some? && s.lastProcessed.value >= step.head.value)
    && (s.wantsLogs ==> step.logsOk)
  }

  function Next(s: State, step: Step): State {
    match step
    case AddBlockCallback => s.(callbacks := s.callbacks + [BlockCallback(0, [], s.fromBlock)])
    case AddEventCallback => s.(wantsLogs := true)
    case Poll(_, _) =>
      if !Processes(s, step) then s
      else
        var to := RangeEnd(s.fromBlock, step.head.value);
        s.(fromBlock := to + 1, lastProcessed := Some(to), callbacks := Dispatch(s.callbacks, s.fromBlock, to + 1),
           ranges := s.ranges + [(s.fromBlock, to)])
  }

  function Run(initialBlock: Height, steps: seq<Step>): State {
    if steps == [] then Start(initialBlock)
    else Next(Run(initialBlock, steps[..|steps| - 1]), steps[|steps| - 1])
  }

  // ---------- delivery ----------

  /** a, a + 1, ..., b - 1 */
  function Range(a: nat, b: nat): seq<nat> {
    if b <= a then [] else Range(a, b - 1) + [b - 1]
  }

  /** Block 0 is never delivered, because a fresh callback counts as having seen it. */
  function FirstSeen(addedAt: nat): nat {
    if addedAt == 0 then 1 else addedAt
  }

  /** The callback has seen every block since it was added, each once and in order. */
  predicate UpToDate(cb: BlockCallback, fromBlock: nat) {
    && cb.addedAt <= fromBlock
    && cb.seen == Range(FirstSeen(cb.addedAt), fromBlock)
    && cb.fromBlock == if fromBlock > FirstSeen(cb.addedAt) then fromBlock - 1 else 0
  }

  lemma {:induction false} ReceiveAllKeeps(cb: BlockCallback, a: nat, b: nat)
    requires UpToDate(cb, a) && a <= b
    ensures UpToDate(ReceiveAll(cb, a, b), b) && ReceiveAll(cb, a, b).addedAt == cb.addedAt
    decreases b
  {
    if a < b {
      ReceiveAllKeeps(cb, a, b - 1);
    }
  }

  /** The ranges follow each other without gap or overlap, from the initial block to the last processed one. */
  predicate Partition(initialBlock: nat, ranges: seq<(nat, nat)>, fromBlock: nat) {
    && (forall i :: 0 <= i < |ranges| ==> ranges[i].0 <= ranges[i].1 <= ranges[i].0 + MAX_RANGE)
    && (forall i, j :: 0 <= i && j == i + 1 < |ranges| ==> ranges[j].0 == ranges[i].1 + 1)
    && (if ranges == [] then fromBlock == initialBlock
        else ranges[0].0 == initialBlock && ranges[|ranges| - 1].1 + 1 == fromBlock)
  }

  ghost predicate Inv(initialBlock: Height, s: State) {
    && (s.lastProcessed.Some? ==> s.fromBlock == s.lastProcessed.value + 1)
    && (s.lastProcessed.None? ==> s.fromBlock == initialBlock)
    && (forall k :: 0 <= k < |s.callbacks| ==> UpToDate(s.callbacks[k], s.fromBlock))
    && Partition(initialBlock, s.ranges, s.fromBlock)
    && (s.ranges == [] <==> s.lastProcessed.None?)
    && s.fromBlock <= TWO_64 / 2 + MAX_RANGE
  }

  /** Only the very first poll can observe a head below the block it starts from. */
  lemma RangeEndBounds(fromBlock: nat, head: Height)
    requires fromBlock <= TWO_64 / 2 + MAX_RANGE
    ensures var to := RangeEnd(fromBlock, head);
      && fromBlock <= to <= fromBlock + MAX_RANGE
      && (to <= head <==> fromBlock <= head)
      && (to == head || to == fromBlock + MAX_RANGE)
  {
    if head < fromBlock {
      assert Minus64(head, fromBlock) == head - fromBlock + TWO_64;
    }
  }

  lemma PartitionGrows(initialBlock: nat, ranges: seq<(nat, nat)>, fromBlock: nat, to: nat)
    requires Partition(initialBlock, ranges, fromBlock) && fromBlock <= to <= fromBlock + MAX_RANGE
    ensures Partition(initialBlock, ranges + [(fromBlock, to)], to + 1)
  {
  }

  lemma StepKeeps(initialBlock: Height, s: State, step: Step)
    requires Inv(initialBlock, s)
    ensures Inv(initialBlock, Next(s, step))
  {
    hide Partition, RangeEnd;
    if Processes(s, step) {
      var head := step.head.value;
      var to := RangeEnd(s.fromBlock, head);
      RangeEndBounds(s.fromBlock, head);
      PartitionGrows(initialBlock, s.ranges, s.fromBlock, to);
      forall k | 0 <= k < |s.callbacks| ensures UpToDate(Next(s, step).callbacks[k], to + 1) {
        ReceiveAllKeeps(s.callbacks[k], s.fromBlock, to + 1);
      }
    }
  }

  lemma StartInv(initialBlock: Height)
    ensures Inv(initialBlock, Start(initialBlock))
  {
  }

  /**
   * For every sequence of heads, failures and registrations: a block callback sees every block from where the monitor
   * stood when it was added, each once and in order, and the log ranges partition the processed blocks into pieces of
   * at most 26.
   */
  lemma {:induction false} EveryBlockOnce(initialBlock: Height, steps: seq<Step>)
    ensures Inv(initialBlock, Run(initialBlock, steps))
  {
    hide Inv;
    if steps == [] {
      StartInv(initialBlock);
    } else {
      EveryBlockOnce(initialBlock, steps[..|steps| - 1]);
      StepKeeps(initialBlock, Run(initialBlock, steps[..|steps| - 1]), steps[|steps| - 1]);
    }
  }

  lemma {:induction false} ReceiveAllAddedAt(cb: BlockCallback, a: nat, b: nat)
    ensures ReceiveAll(cb, a, b).addedAt == cb.addedAt
    decreases b
  {
    if a < b {
      ReceiveAllAddedAt(cb, a, b - 1);
    }
  }

  lemma {:induction false} FirstCallback(initialBlock: Height, steps: seq<Step>)
    ensures var s := Run(initialBlock, [AddBlockCallback] + steps);
      s.callbacks != [] && s.callbacks[0].addedAt == initialBlock
  {
    var all := [AddBlockCallback] + steps;
    if steps == [] {
      assert all[..|all| - 1] == [];
    } else {
      var init := steps[..|steps| - 1];
      assert all[..|all| - 1] == [AddBlockCallback] + init;
      FirstCallback(initialBlock, init);
      var before := Run(initialBlock, [AddBlockCallback] + init);
      ReceiveAllAddedAt(before.callbacks[0], before.fromBlock, Run(initialBlock, all).fromBlock);
    }
  }

  lemma {:induction false} RangeAt(a: nat, b: nat, i: nat)
    ensures |Range(a, b)| == if a <= b then b - a else 0
    ensures i < |Range(a, b)| ==> Range(a, b)[i] == a + i
    decreases b
  {
    if a < b {
      RangeAt(a, b - 1, i);
    }
  }

  /** A callback added before the first poll has seen initialBlock, initialBlock + 1, ... without gap or repeat. */
  lemma SeenFromTheStart(initialBlock: Height, steps: seq<Step>, i: nat)
    requires initialBlock >= 1
    ensures var s := Run(initialBlock, [AddBlockCallback] + steps);
      && s.callbacks != []
      && |s.callbacks[0].seen| == s.fromBlock - initialBlock
      && (i < |s.callbacks[0].seen| ==> s.callbacks[0].seen[i] == initialBlock + i)
  {
    var all := [AddBlockCallback] + steps;
    EveryBlockOnce(initialBlock, all);
    FirstCallback(initialBlock, steps);
    var s := Run(initialBlock, all);
    RangeAt(initialBlock, s.fromBlock, i);
  }

  /**
   * A poll stays within the head it observed exactly when it is not a first poll whose head is below the initial
   * block; such a poll hands out 26 blocks the chain does not have yet.
   */
  lemma WithinHead(initialBlock: Height, s: State, step: Step)
    requires Inv(initialBlock, s) && Processes(s, step)
    ensures Next(s, step).fromBlock - 1 <= step.head.value <==>
      s.lastProcessed.Some? || step.head.value >= initialBlock
    ensures Next(s, step).fromBlock - 1 > step.head.value ==> Next(s, step).fromBlock == initialBlock + 26
  {
    hide Partition, RangeEnd;
    RangeEndBounds(s.fromBlock, step.head.value);
  }

  function Repeat(s: State, step: Step, k: nat): State {
    if k == 0 then s else Next(Repeat(s, step, k - 1), step)
  }

  lemma RangeEndReaches(fromBlock: nat, head: Height)
    requires fromBlock <= head
    ensures RangeEnd(fromBlock, head) == if head - fromBlock > MAX_RANGE then fromBlock + MAX_RANGE else head
  {
  }

  /** The monitor catches up: `k` successful polls of one head advance by 26 blocks each until the head is reached. */
  lemma {:induction false} CatchesUp(initialBlock: Height, s: State, head: Height, k: nat)
    requires Inv(initialBlock, s) && s.fromBlock <= head
    ensures var t := Repeat(s, Poll(Some(head), true), k);
      && Inv(initialBlock, t)
      && t.fromBlock == (if s.fromBlock + 26 * k <= head then s.fromBlock + 26 * k else head + 1)
      && (t.fromBlock == head + 1 ==> t.lastProcessed == Some(head))
  {
    hide Partition, RangeEnd, UpToDate;
    if k > 0 {
      CatchesUp(initialBlock, s, head, k - 1);
      var t := Repeat(s, Poll(Some(head), true), k - 1);
      StepKeeps(initialBlock, t, Poll(Some(head), true));
      RangeEndBounds(t.fromBlock, head);
      if t.fromBlock <= head {
        RangeEndReaches(t.fromBlock, head);
      }
    }
  }

  // ---------- the loop ----------

  class ChainMonitor {
    var fromBlock: nat
    var lastProcessed: Option<nat>
    var callbacks: seq<BlockCallback>
    var wantsLogs: bool
    var ranges: seq<(nat, nat)>

    ghost function Value(): State
      reads this
    {
      State(fromBlock, lastProcessed, callbacks, wantsLogs, ranges)
    }

    constructor (initialBlock: Height)
      ensures Value() == Start(initialBlock)
    {
      fromBlock, lastProcessed, callbacks, wantsLogs, ranges := initialBlock, None, [], false, [];
    }

    /** Hand one block to every callback that has not seen it, in the order they were added. */
    method OnBlockReceived(n: nat)
      modifies this`callbacks
      ensures |callbacks| == |old(callbacks)|
      ensures forall k :: 0 <= k < |callbacks| ==> callbacks[k] == Receive(old(callbacks)[k], n)
    {
      var k := 0;
      while k < |callbacks|
        invariant 0 <= k <= |callbacks| == |old(callbacks)|
        invariant forall l :: 0 <= l < k ==> callbacks[l] == Receive(old(callbacks)[l], n)
        invariant forall l :: k <= l < |callbacks| ==> callbacks[l] == old(callbacks)[l]
      {
        var cb := callbacks[k];
        if cb.fromBlock < n {
          callbacks := callbacks[k := cb.(fromBlock := n, seen := cb.seen + [n])];
        }
        k := k + 1;
      }
    }

    method DispatchBlocks(to: nat)
      requires fromBlock <= to
      modifies this`callbacks
      ensures callbacks == Dispatch(old(callbacks), fromBlock, to + 1)
    {
      var n := fromBlock;
      while n <= to
        invariant fromBlock <= n <= to + 1
        invariant callbacks == Dispatch(old(callbacks), fromBlock, n)
      {
        OnBlockReceived(n);
        n := n + 1;
      }
    }

    method PollOnce(head: Option<Height>, logsOk: bool, ghost initialBlock: Height)
      requires Inv(initialBlock, Value())
      modifies this
      ensures Value() == Next(old(Value()), Poll(head, logsOk)) && Inv(initialBlock, Value())
    {
      StepKeeps(initialBlock, Value(), Poll(head, logsOk));
      if head.None? {
        return;
      }
      if lastProcessed.Some? && lastProcessed.value >= head.value {
        return;
      }
      RangeEndBounds(fromBlock, head.value);
      hide Inv, Dispatch;
      var to: nat := head.value;
      if Minus64(head.value, fromBlock) > MAX_RANGE {
        to := fromBlock + MAX_RANGE;
      }
      if wantsLogs && !logsOk {
        return;
      }
      DispatchBlocks(to);
      ranges := ranges + [(fromBlock, to)];
      fromBlock, lastProcessed := to + 1, Some(to);
    }

    /** The endless loop, over any finite part of what it observes. */
    method RunWithBlockPeriod(steps: seq<Step>, initialBlock: Height)
      requires Value() == Start(initialBlock)
      modifies this
      ensures Value() == Run(initialBlock, steps) && Inv(initialBlock, Value())
    {
      StartInv(initialBlock);
      var i := 0;
      assert steps[..0] == [];
      while i < |steps|
        invariant 0 <= i <= |steps|
        invariant Value() == Run(initialBlock, steps[..i]) && Inv(initialBlock, Value())
      {
        hide Inv;
        assert steps[..i + 1][..i] == steps[..i];
        StepKeeps(initialBlock, Value(), steps[i]);
        match steps[i] {
          case Poll(head, logsOk) => PollOnce(head, logsOk, initialBlock);
          case AddBlockCallback => callbacks := callbacks + [BlockCallback(0, [], fromBlock)];
          case AddEventCallback => wantsLogs := true;
        }
        i := i + 1;
      }
      assert steps[..|steps|] == steps;
    }
  }

  // ---------- the poll interval ----------

  const MAX_ERRORS := 10000

  /** How long to wait: longer after each error in a row, up to the limit; not at all when blocks remain. */
  class PollInterval {
    const blockPeriod: nat
    const errSlowdownLimit: nat
    var errCounter: nat
    /** Errors since the last success. */
    ghost var errorsInARow: nat

    ghost predicate Valid()
      reads this
    {
      errCounter == if errorsInARow < MAX_ERRORS then errorsInARow else MAX_ERRORS
    }

    constructor (period: nat, limit: nat)
      ensures Valid() && errorsInARow == 0 && blockPeriod == period
      ensures errSlowdownLimit >= limit && errSlowdownLimit >= 1_000_000_000
      ensures errSlowdownLimit == limit || errSlowdownLimit == 1_000_000_000
    {
      blockPeriod, errSlowdownLimit := period, if limit > 1_000_000_000 then limit else 1_000_000_000;
      errCounter, errorsInARow := 0, 0;
    }

    method Interval(took: nat, hitBlockRangeLimit: bool, gotErr: bool) returns (wait: int)
      requires Valid()
      modifies this`errCounter, this`errorsInARow
      ensures Valid() && errorsInARow == if gotErr then old(errorsInARow) + 1 else 0
      ensures gotErr ==>
        var errors := if errorsInARow < 10_000 then errorsInARow else 10_000;
        wait == if errors * blockPeriod < errSlowdownLimit then errors * blockPeriod else errSlowdownLimit
      ensures !gotErr ==> wait == if hitBlockRangeLimit || took >= blockPeriod then 0 else blockPeriod - took
    {
      if gotErr {
        errorsInARow := errorsInARow + 1;
        errCounter := if errCounter + 1 < MAX_ERRORS then errCounter + 1 else MAX_ERRORS;
        wait := if errCounter * blockPeriod < errSlowdownLimit then errCounter * blockPeriod else errSlowdownLimit;
        return;
      }
      errCounter, errorsInARow := 0, 0;
      if hitBlockRangeLimit {
        return 0;
      }
      wait := if took < blockPeriod then blockPeriod - took else 0;
    }
  }
}
