/** The polling loop and the log filter together: what every event callback has received over a whole run. */
module MonitorLogs {
  import opened Wrappers
  import opened LogFilter
  import opened Monitor

  /** The logs of each block, in order. */
  type Chain = nat -> seq<Log>

  function LogsBetween(chain: Chain, a: nat, b: nat): seq<Log> {
    if b <= a then [] else LogsBetween(chain, a, b - 1) + chain(b - 1)
  }

  /** An event callback, where the monitor stood when it was added, and what it has been given. */
  datatype Subscriber = Subscriber(callback: Callback, addedAt: nat, received: seq<Log>)

  /** `servedFrom` is the first block whose logs were or will be fetched. */
  datatype System = System(monitor: State, subscribers: seq<Subscriber>, servedFrom: nat)

  /** A step of the polling loop, or the registration of an event callback. */
  datatype Action = Loop(step: Step) | Register(callback: Callback)

  function Callbacks(subscribers: seq<Subscriber>): (r: seq<Callback>)
    ensures |r| == |subscribers|
  {
    seq(|subscribers|, i requires 0 <= i < |subscribers| => subscribers[i].callback)
  }

  /** Fetch the range with the merged query and dispatch by each callback's own address and topics. */
  function DispatchLogs(subscribers: seq<Subscriber>, logs: seq<Log>): (r: seq<Subscriber>)
    ensures |r| == |subscribers|
  {
    var fetched := Fetched(logs, Merged(Callbacks(subscribers)));
    seq(|subscribers|, i requires 0 <= i < |subscribers| =>
      subscribers[i].(received := subscribers[i].received + Own(fetched, subscribers[i].callback)))
  }

  /** The client has no logs beyond the head it reported, whatever range it is asked for. */
  function Available(chain: Chain, fromBlock: nat, to: nat, head: nat): seq<Log> {
    LogsBetween(chain, fromBlock, if to <= head then to + 1 else head + 1)
  }

  /** A first poll that observes a head below the block it starts from. */
  predicate TooEarly(s: State, step: Step) {
    Processes(s, step) && s.lastProcessed.None? && step.head.value < s.fromBlock
  }

  function Act(chain: Chain, s: System, a: Action): System {
    match a
    case Register(cb) =>
      s.(monitor := Next(s.monitor, AddEventCallback),
         subscribers := s.subscribers + [Subscriber(cb, s.monitor.fromBlock, [])])
    case Loop(step) =>
      var t := Next(s.monitor, step);
      if !Processes(s.monitor, step) then s.(monitor := t)
      else
        var logs := Available(chain, s.monitor.fromBlock, t.fromBlock - 1, step.head.value);
        System(t, DispatchLogs(s.subscribers, logs), if TooEarly(s.monitor, step) then t.fromBlock else s.servedFrom)
  }

  function ActAll(chain: Chain, initialBlock: Height, actions: seq<Action>): System {
    if actions == [] then System(Start(initialBlock), [], initialBlock)
    else Act(chain, ActAll(chain, initialBlock, actions[..|actions| - 1]), actions[|actions| - 1])
  }

  /** Only what can be registered is, and it makes the loop fetch logs. */
  predicate Offered(a: Action) {
    match a
    case Register(cb) => Registrable(cb)
    case Loop(step) => !step.AddEventCallback?
  }

  lemma {:induction false} LogsConcat(chain: Chain, a: nat, b: nat, c: nat)
    requires a <= b <= c
    ensures LogsBetween(chain, a, c) == LogsBetween(chain, a, b) + LogsBetween(chain, b, c)
    decreases c
  {
    if b < c {
      LogsConcat(chain, a, b, c - 1);
      assert LogsBetween(chain, a, b) + (LogsBetween(chain, b, c - 1) + chain(c - 1)) ==
        LogsBetween(chain, a, b) + LogsBetween(chain, b, c - 1) + chain(c - 1);
    }
  }

  lemma {:induction false} OwnConcat(a: seq<Log>, b: seq<Log>, cb: Callback)
    ensures Own(a + b, cb) == Own(a, cb) + Own(b, cb)
  {
    if b == [] {
      assert a + b == a;
    } else {
      assert (a + b)[..|a + b| - 1] == a + b[..|b| - 1];
      OwnConcat(a, b[..|b| - 1], cb);
    }
  }

  // ---------- one poll ----------

  function Max(a: nat, b: nat): nat { if a < b then b else a }

  /** Exactly its own logs of the blocks since it was added, or since logs were first fetched if that is later. */
  ghost predicate Served(chain: Chain, fromBlock: nat, servedFrom: nat, sub: Subscriber) {
    && Registrable(sub.callback) && sub.addedAt <= fromBlock && servedFrom <= fromBlock
    && sub.received == Own(LogsBetween(chain, Max(sub.addedAt, servedFrom), fromBlock), sub.callback)
  }

  ghost predicate AllServed(chain: Chain, s: System) {
    && s.servedFrom <= s.monitor.fromBlock
    && forall i :: 0 <= i < |s.subscribers| ==>
         Served(chain, s.monitor.fromBlock, s.servedFrom, s.subscribers[i])
  }

  lemma ServedMore(chain: Chain, fromBlock: nat, to: nat, servedFrom: nat, subscribers: seq<Subscriber>, i: nat)
    requires i < |subscribers| && fromBlock <= to && Served(chain, fromBlock, servedFrom, subscribers[i])
    ensures Served(chain, to, servedFrom, DispatchLogs(subscribers, LogsBetween(chain, fromBlock, to))[i])
  {
    hide Own, Fetched, Merged, LogsBetween;
    var sub, logs := subscribers[i], LogsBetween(chain, fromBlock, to);
    var start := Max(sub.addedAt, servedFrom);
    MergedLosesNothing(Callbacks(subscribers), i, logs);
    LogsConcat(chain, start, fromBlock, to);
    OwnConcat(LogsBetween(chain, start, fromBlock), logs, sub.callback);
  }

  /** A poll that comes too early fetches nothing and moves on, so serving starts after what it skipped. */
  lemma ServedNothing(chain: Chain, fromBlock: nat, to: nat, servedFrom: nat, subscribers: seq<Subscriber>, i: nat)
    requires i < |subscribers| && fromBlock <= to && Served(chain, fromBlock, servedFrom, subscribers[i])
    requires subscribers[i].received == []
    ensures Served(chain, to, to, DispatchLogs(subscribers, [])[i])
  {
  }

  lemma ServedFromNow(chain: Chain, fromBlock: nat, servedFrom: nat, cb: Callback)
    requires Registrable(cb) && servedFrom <= fromBlock
    ensures Served(chain, fromBlock, servedFrom, Subscriber(cb, fromBlock, []))
  {
  }

  /** Before the first poll that processes anything nobody has received anything. */
  ghost predicate NothingYet(initialBlock: Height, s: System) {
    s.monitor.lastProcessed.None? ==>
      && s.servedFrom == initialBlock
      && forall i :: 0 <= i < |s.subscribers| ==> s.subscribers[i].received == []
  }

  lemma NoLogs(chain: Chain, a: nat, b: nat)
    requires b <= a
    ensures LogsBetween(chain, a, b) == []
  {
  }

  lemma ActServes(chain: Chain, initialBlock: Height, s: System, a: Action)
    requires Inv(initialBlock, s.monitor) && AllServed(chain, s) && NothingYet(initialBlock, s) && Offered(a)
    ensures AllServed(chain, Act(chain, s, a)) && NothingYet(initialBlock, Act(chain, s, a))
  {
    hide Partition, RangeEnd, UpToDate, Dispatch, Served, DispatchLogs, LogsBetween;
    var t := Act(chain, s, a);
    if a.Register? {
      ServedFromNow(chain, s.monitor.fromBlock, s.servedFrom, a.callback);
    } else if Processes(s.monitor, a.step) {
      var from, next, head := s.monitor.fromBlock, t.monitor.fromBlock, a.step.head.value;
      RangeEndBounds(from, head);
      if TooEarly(s.monitor, a.step) {
        NoLogs(chain, from, head + 1);
      }
      forall i | 0 <= i < |t.subscribers| ensures Served(chain, next, t.servedFrom, t.subscribers[i]) {
        if TooEarly(s.monitor, a.step) {
          ServedNothing(chain, from, next, s.servedFrom, s.subscribers, i);
        } else {
          ServedMore(chain, from, next, s.servedFrom, s.subscribers, i);
        }
      }
    }
  }

  // ---------- every run ----------

  lemma {:induction false} MonitorInv(chain: Chain, initialBlock: Height, actions: seq<Action>)
    ensures Inv(initialBlock, ActAll(chain, initialBlock, actions).monitor)
  {
    hide Inv, Next, Processes, DispatchLogs, Available;
    if actions == [] {
      StartInv(initialBlock);
    } else {
      var init, last := actions[..|actions| - 1], actions[|actions| - 1];
      MonitorInv(chain, initialBlock, init);
      var s := ActAll(chain, initialBlock, init);
      match last {
        case Loop(step) => StepKeeps(initialBlock, s.monitor, step);
        case Register(_) => StepKeeps(initialBlock, s.monitor, AddEventCallback);
      }
    }
  }

  lemma StartServed(chain: Chain, initialBlock: Height)
    ensures AllServed(chain, System(Start(initialBlock), [], initialBlock))
    ensures NothingYet(initialBlock, System(Start(initialBlock), [], initialBlock))
  {
  }

  /**
   * For every sequence of heads, failures and registrations, and every chain: each event callback has received exactly
   * the logs that match its own address and topics, once and in order, of all blocks since it was added, or since the
   * block after those a first poll skipped because the chain did not have them yet.
   */
  lemma {:induction false} EveryFetchedLogOnce(chain: Chain, initialBlock: Height, actions: seq<Action>)
    requires forall a :: a in actions ==> Offered(a)
    ensures AllServed(chain, ActAll(chain, initialBlock, actions))
    ensures NothingYet(initialBlock, ActAll(chain, initialBlock, actions))
  {
    hide Inv, AllServed, NothingYet, Act;
    if actions == [] {
      StartServed(chain, initialBlock);
    } else {
      var init, last := actions[..|actions| - 1], actions[|actions| - 1];
      assert forall a :: a in init ==> a in actions;
      EveryFetchedLogOnce(chain, initialBlock, init);
      MonitorInv(chain, initialBlock, init);
      ActServes(chain, initialBlock, ActAll(chain, initialBlock, init), last);
    }
  }

  /** Some action of the run is a first poll that comes too early. */
  ghost predicate SomeTooEarly(chain: Chain, initialBlock: Height, actions: seq<Action>) {
    exists i :: 0 <= i < |actions| && actions[i].Loop? &&
      TooEarly(ActAll(chain, initialBlock, actions[..i]).monitor, actions[i].step)
  }

  lemma NoneTooEarly(chain: Chain, initialBlock: Height)
    ensures !SomeTooEarly(chain, initialBlock, [])
  {
  }

  lemma TooEarlySnoc(chain: Chain, initialBlock: Height, actions: seq<Action>)
    requires actions != []
    ensures
      var init, last := actions[..|actions| - 1], actions[|actions| - 1];
      SomeTooEarly(chain, initialBlock, actions) <==>
      SomeTooEarly(chain, initialBlock, init)
      || (last.Loop? && TooEarly(ActAll(chain, initialBlock, init).monitor, last.step))
  {
    hide ActAll, TooEarly;
    var n := |actions| - 1;
    var init := actions[..n];
    assert forall i :: 0 <= i < n ==> init[..i] == actions[..i] && init[i] == actions[i];
  }

  /** Serving starts at the initial block, or 26 blocks later, exactly if the first poll came too early. */
  lemma {:induction false} ServedFromExactly(chain: Chain, initialBlock: Height, actions: seq<Action>)
    ensures var s := ActAll(chain, initialBlock, actions);
      && s.servedFrom == (if SomeTooEarly(chain, initialBlock, actions) then initialBlock + 26 else initialBlock)
      && (SomeTooEarly(chain, initialBlock, actions) ==> s.monitor.lastProcessed.Some?)
  {
    hide Partition, RangeEnd, UpToDate, Dispatch, DispatchLogs, LogsBetween, SomeTooEarly;
    if actions != [] {
      var n := |actions| - 1;
      var init, last := actions[..n], actions[n];
      ServedFromExactly(chain, initialBlock, init);
      MonitorInv(chain, initialBlock, init);
      var s := ActAll(chain, initialBlock, init);
      TooEarlySnoc(chain, initialBlock, actions);
      if last.Loop? && TooEarly(s.monitor, last.step) {
        WithinHead(initialBlock, s.monitor, last.step);
      }
    } else {
      NoneTooEarly(chain, initialBlock);
    }
  }

  /** The callback has received all its own logs since it was added. */
  ghost predicate Complete(chain: Chain, fromBlock: nat, sub: Subscriber) {
    sub.addedAt <= fromBlock && sub.received == Own(LogsBetween(chain, sub.addedAt, fromBlock), sub.callback)
  }

  lemma {:induction false} AddedInTime(chain: Chain, initialBlock: Height, actions: seq<Action>)
    ensures var s := ActAll(chain, initialBlock, actions);
      && s.monitor.fromBlock >= initialBlock
      && forall i :: 0 <= i < |s.subscribers| ==> s.subscribers[i].addedAt >= initialBlock
  {
    hide Partition, RangeEnd, UpToDate, Dispatch, LogsBetween, Own, Fetched, Merged;
    if actions != [] {
      var init, last := actions[..|actions| - 1], actions[|actions| - 1];
      AddedInTime(chain, initialBlock, init);
      MonitorInv(chain, initialBlock, init);
      var s := ActAll(chain, initialBlock, init);
      if last.Loop? && Processes(s.monitor, last.step) {
        RangeEndBounds(s.monitor.fromBlock, last.step.head.value);
      }
    }
  }

  lemma OwnNothing(cb: Callback)
    ensures Own([], cb) == []
  {
  }

  /**
   * Nothing is missing exactly when no own log lies in the skipped blocks; in particular whenever the first poll does
   * not come too early.
   */
  lemma EveryLogOnce(chain: Chain, initialBlock: Height, actions: seq<Action>, i: nat)
    requires forall a :: a in actions ==> Offered(a)
    requires i < |ActAll(chain, initialBlock, actions).subscribers|
    ensures
      var s := ActAll(chain, initialBlock, actions);
      var sub := s.subscribers[i];
      && (Complete(chain, s.monitor.fromBlock, sub) <==>
          !SomeTooEarly(chain, initialBlock, actions)
          || Own(LogsBetween(chain, sub.addedAt, initialBlock + 26), sub.callback) == [])
  {
    hide ActAll, Own, LogsBetween, SomeTooEarly, Registrable;
    EveryFetchedLogOnce(chain, initialBlock, actions);
    ServedFromExactly(chain, initialBlock, actions);
    AddedInTime(chain, initialBlock, actions);
    var s := ActAll(chain, initialBlock, actions);
    var sub, from := s.subscribers[i], s.monitor.fromBlock;
    assert Served(chain, from, s.servedFrom, sub) && sub.addedAt >= initialBlock;
    if sub.addedAt <= s.servedFrom {
      LogsConcat(chain, sub.addedAt, s.servedFrom, from);
      OwnConcat(
        LogsBetween(chain, sub.addedAt, s.servedFrom), LogsBetween(chain, s.servedFrom, from), sub.callback);
      NoLogs(chain, sub.addedAt, sub.addedAt);
    } else {
      NoLogs(chain, sub.addedAt, s.servedFrom);
    }
    OwnNothing(sub.callback);
  }

  /** Such a run: started at block 5, the head is observed at 0, and the log of block 5 never arrives. */
  lemma FirstPollLosesLogs(log: Log)
    ensures
      var chain: Chain := n => if n == 5 then [log] else [];
      var actions := [Register(Callback(None, [])), Loop(Poll(Some(0), true))];
      var s := ActAll(chain, 5, actions);
      && s.monitor.fromBlock == 31 && |s.subscribers| == 1
      && s.subscribers[0].received == [] && !Complete(chain, 31, s.subscribers[0])
  {
    var chain: Chain := n => if n == 5 then [log] else [];
    var cb := Callback(None, []);
    var first, second := Register(cb), Loop(Poll(Some(0), true));
    var actions := [first, second];
    assert actions[..1] == [first] && [first][..0] == [];
    var s := ActAll(chain, 5, [first]);
    assert ActAll(chain, 5, []) == System(Start(5), [], 5);
    assert s == Act(chain, ActAll(chain, 5, []), first);
    assert s == System(Next(Start(5), AddEventCallback), [Subscriber(cb, 5, [])], 5);
    var t := ActAll(chain, 5, actions);
    assert t == Act(chain, s, second);
    assert Available(chain, 5, 30, 0) == [];
    assert t.subscribers[0] == Subscriber(cb, 5, []);
    LogsConcat(chain, 5, 6, 31);
    assert LogsBetween(chain, 5, 6) == LogsBetween(chain, 5, 5) + chain(5) == [log];
    OwnConcat([log], LogsBetween(chain, 6, 31), cb);
    assert [log][..0] == [] && Own([log], cb) == [log];
  }
}
