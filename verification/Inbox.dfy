/**
 * The per-device summary of an inbox stream: for each device, the range of miniblocks that may hold a message it has
 * not acknowledged. Entries older than 3600 blocks are dropped.
 */
module Inbox {
  import opened ByteStrings
  import opened Messages

  const MAX_GENERATIONS := 3600

  type Summaries = map<Bytes, Summary>

  function Cleanup(m: Summaries, current: int): Summaries {
    map d | d in m && current - m[d].lower <= MAX_GENERATIONS :: m[d]
  }

  function Noted(m: Summaries, devices: set<Bytes>, current: int): Summaries {
    map d | d in m.Keys + devices ::
      if d !in devices then m[d] else if d in m then m[d].(upper := current) else Summary(current, current)
  }

  function Acked(m: Summaries, device: Bytes, acked: int): Summaries {
    if device !in m then m
    else if m[device].upper <= acked then m - {device}
    else m[device := m[device].(lower := acked + 1)]
  }

  function AddSessions(m: Summaries, devices: set<Bytes>, current: int): Summaries {
    Cleanup(Noted(m, devices, current), current)
  }

  function AddAck(m: Summaries, device: Bytes, acked: int, current: int): Summaries {
    Cleanup(Acked(m, device, acked), current)
  }

  // ---------- runs ----------

  datatype Step = Sessions(devices: set<Bytes>, num: int) | AckStep(device: Bytes, acked: int, num: int)
  {
    function Num(): int { num }
  }

  /**
   * The summaries beside the reference they approximate: for each device the exact set of blocks with an
   * unacknowledged message. A device's set is forgotten when its entry expires.
   */
  datatype State = State(summaries: Summaries, unacked: map<Bytes, set<int>>)

  function Pending(u: map<Bytes, set<int>>, d: Bytes): set<int> {
    if d in u then u[d] else {}
  }

  /** The reference before expiry: a message adds its block, an acknowledgement drops every block up to it. */
  function Reference(u: map<Bytes, set<int>>, step: Step): map<Bytes, set<int>> {
    match step
    case Sessions(devices, num) =>
      map d | d in u.Keys + devices :: if d in devices then Pending(u, d) + {num} else u[d]
    case AckStep(device, acked, num) =>
      u[device := set b | b in Pending(u, device) && b > acked]
  }

  function Raw(m: Summaries, step: Step): Summaries {
    match step
    case Sessions(devices, num) => Noted(m, devices, num)
    case AckStep(device, acked, num) => Acked(m, device, acked)
  }

  predicate Expired(m: Summaries, d: Bytes, current: int) {
    d in m && current - m[d].lower > MAX_GENERATIONS
  }

  function Next(s: State, step: Step): State {
    var m := Raw(s.summaries, step);
    var u := Reference(s.unacked, step);
    State(Cleanup(m, step.Num()), map d | d in u && !Expired(m, d, step.Num()) :: u[d])
  }

  function Run(steps: seq<Step>): State {
    if steps == [] then State(map[], map[]) else Next(Run(steps[..|steps| - 1]), steps[|steps| - 1])
  }

  ghost predicate Nondecreasing(steps: seq<Step>) {
    forall i, j :: 0 <= i < j < |steps| ==> steps[i].Num() <= steps[j].Num()
  }

  ghost predicate Bounded(m: Summaries, current: int) {
    forall d :: d in m ==> m[d].lower <= m[d].upper <= current
  }

  ghost predicate Covers(s: State) {
    forall d, b :: d in s.unacked && b in s.unacked[d] ==>
      d in s.summaries && s.summaries[d].lower <= b <= s.summaries[d].upper
  }

  lemma NextKeeps(s: State, step: Step, previous: int)
    requires Bounded(s.summaries, previous) && Covers(s) && previous <= step.Num()
    ensures Bounded(Next(s, step).summaries, step.Num()) && Covers(Next(s, step))
    ensures forall d :: d in Next(s, step).summaries ==>
      step.Num() - Next(s, step).summaries[d].lower <= MAX_GENERATIONS
  {
    var m := Raw(s.summaries, step);
    var u := Reference(s.unacked, step);
    var t := Next(s, step);
    forall d, b | d in t.unacked && b in t.unacked[d]
      ensures d in t.summaries && t.summaries[d].lower <= b <= t.summaries[d].upper
    {
      assert b in Pending(s.unacked, d) || (step.Sessions? && d in step.devices && b == step.num);
      assert d in m && m[d].lower <= b <= m[d].upper;
    }
  }

  /**
   * Over any run with nondecreasing block numbers: lower <= upper <= current, nothing older than 3600 blocks is kept,
   * and every unacknowledged, unexpired message lies in its device's range (so a device without an entry has none).
   */
  lemma {:induction false} SummariesCoverUnacknowledged(steps: seq<Step>)
    requires steps != [] && Nondecreasing(steps)
    ensures var s, current := Run(steps), steps[|steps| - 1].Num();
      && Bounded(s.summaries, current) && Covers(s)
      && forall d :: d in s.summaries ==> current - s.summaries[d].lower <= 3600
  {
    var prefix := steps[..|steps| - 1];
    if prefix == [] {
      NextKeeps(State(map[], map[]), steps[0], steps[0].Num());
    } else {
      SummariesCoverUnacknowledged(prefix);
      NextKeeps(Run(prefix), steps[|steps| - 1], prefix[|prefix| - 1].Num());
    }
  }

  /** Every entry ends at an unacknowledged message, so an entry means that there is one. */
  ghost predicate Tight(s: State) {
    forall d :: d in s.summaries ==> d in s.unacked && s.summaries[d].upper in s.unacked[d]
  }

  lemma NextIsTight(s: State, step: Step)
    requires Tight(s)
    ensures Tight(Next(s, step))
  {
    var m, u, t := Raw(s.summaries, step), Reference(s.unacked, step), Next(s, step);
    forall d | d in t.summaries ensures d in t.unacked && t.summaries[d].upper in t.unacked[d] {
      assert d in m && !Expired(m, d, step.Num());
      assert d in u && m[d].upper in u[d];
    }
  }

  lemma {:induction false} SummariesAreTight(steps: seq<Step>)
    ensures Tight(Run(steps))
  {
    if steps != [] {
      var prefix, step := steps[..|steps| - 1], steps[|steps| - 1];
      SummariesAreTight(prefix);
      NextIsTight(Run(prefix), step);
    }
  }

  /** Step `i` is where a device's range begins: the last acknowledgement, or a message with none after it. */
  predicate Begins(steps: seq<Step>, d: Bytes, lower: int, i: nat) {
    && i < |steps|
    && (if steps[i].AckStep? then steps[i].device == d && lower == steps[i].acked + 1
        else d in steps[i].devices && lower == steps[i].num)
    && forall k :: i < k < |steps| && steps[k].AckStep? ==> steps[k].device != d
  }

  lemma {:induction false} RangesBegin(steps: seq<Step>, d: Bytes) returns (i: nat)
    requires d in Run(steps).summaries
    ensures Begins(steps, d, Run(steps).summaries[d].lower, i)
  {
    var n := |steps| - 1;
    var prefix, step := steps[..n], steps[n];
    var before := Run(prefix).summaries;
    if (step.AckStep? && step.device == d) || d !in before {
      i := n;
    } else {
      i := RangesBegin(prefix, d);
      assert forall k :: 0 <= k < n ==> prefix[k] == steps[k];
    }
  }

  /** What one update keeps: the devices noted or known, unless their range began more than 3600 blocks ago. */
  lemma SessionsKeepExactly(m: Summaries, devices: set<Bytes>, current: int, d: Bytes)
    ensures
      var r, lower := AddSessions(m, devices, current), if d in m then m[d].lower else current;
      && (d in r <==> (d in devices || d in m) && current <= lower + 3600)
      && (d in r ==> r[d] == Summary(lower, if d in devices then current else m[d].upper))
  {
  }

  lemma AckKeepsExactly(m: Summaries, device: Bytes, acked: int, current: int, d: Bytes)
    ensures
      var r := AddAck(m, device, acked, current);
      var lower := if d == device then acked + 1 else if d in m then m[d].lower else 0;
      && (d in r <==> d in m && current <= lower + 3600 && (d == device ==> acked < m[d].upper))
      && (d in r ==> r[d] == Summary(lower, m[d].upper))
  {
  }

  /**
   * Acknowledging can also drop a range that still holds fresh messages: it does exactly when the acknowledged number
   * is so old that the lowered bound counts as expired.
   */
  lemma AckDropsFreshMessages(m: Summaries, device: Bytes, acked: int, current: int)
    requires Bounded(m, current) && device in m && current - m[device].lower <= MAX_GENERATIONS
    requires acked < m[device].upper
    ensures device !in AddAck(m, device, acked, current) <==> acked + 1 < current - 3600
  {
    assert Acked(m, device, acked)[device].lower == acked + 1;
  }

  /** A repeated old acknowledgement forgets a message that arrived one block ago. */
  lemma StaleAckLosesMessage()
    ensures
      var d: Bytes := [1];
      var m := AddSessions(map[], {d}, 4999);
      d in m && d !in AddAck(m, d, 7, 5000)
  {
    var d: Bytes := [1];
    var m := AddSessions(map[], {d}, 4999);
    assert m[d] == Summary(4999, 4999);
    AckDropsFreshMessages(m, d, 7, 5000);
  }

  // ---------- the source's procedures ----------

  method DeleteExpired(m: Summaries, current: int) returns (r: Summaries)
    ensures r == Cleanup(m, current)
  {
    r := m;
    var rest := m.Keys;
    while rest != {}
      invariant rest <= m.Keys
      invariant forall d :: d in r <==> d in m && (d in rest || current - m[d].lower <= MAX_GENERATIONS)
      invariant forall d :: d in r ==> r[d] == m[d]
      decreases rest
    {
      var d :| d in rest;
      if current - m[d].lower > MAX_GENERATIONS {
        r := r - {d};
      }
      rest := rest - {d};
    }
  }

  /** The two loops of a group-session update: note each device key, then delete the expired entries. */
  method UpdateSessions(m: Summaries, devices: set<Bytes>, current: int) returns (r: Summaries)
    ensures r == AddSessions(m, devices, current)
  {
    r := m;
    var rest := devices;
    while rest != {}
      invariant rest <= devices
      invariant r == Noted(m, devices - rest, current)
      decreases rest
    {
      var d :| d in rest;
      assert d in r <==> d in m;
      r := if d in r then r[d := r[d].(upper := current)] else r[d := Summary(current, current)];
      rest := rest - {d};
      assert devices - rest == devices - (rest + {d}) + {d};
    }
    assert devices - {} == devices;
    r := DeleteExpired(r, current);
  }

  method UpdateAck(m: Summaries, device: Bytes, acked: int, current: int) returns (r: Summaries)
    ensures r == AddAck(m, device, acked, current)
  {
    r := m;
    if device in r {
      if r[device].upper <= acked {
        r := r - {device};
      } else {
        r := r[device := r[device].(lower := acked + 1)];
      }
    }
    r := DeleteExpired(r, current);
  }
}
