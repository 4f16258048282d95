/** Waiting for a write to be acknowledged by the local node, if it holds the stream, and a quorum of remote ones. */
module Quorum {
  import opened Wrappers

  /** What a call returns: None is success. */
  type Ack = Option<Code>

  function TotalQuorum(nodes: nat): nat {
    (nodes + 1) / 2
  }

  function RemoteQuorum(remotes: nat, local: bool): nat {
    if local then TotalQuorum(remotes + 1) - 1 else TotalQuorum(remotes)
  }

  function Successes(acks: seq<Ack>): nat {
    if acks == [] then 0 else Successes(acks[..|acks| - 1]) + if acks[|acks| - 1].None? then 1 else 0
  }

  /** The first error in the order of arrival. */
  function FirstError(acks: seq<Ack>): (r: Ack)
    ensures r.None? <==> forall a :: a in acks ==> a.None?
  {
    if acks == [] then None
    else
      var first := FirstError(acks[..|acks| - 1]);
      assert acks == acks[..|acks| - 1] + [acks[|acks| - 1]];
      if first.Some? then first else acks[|acks| - 1]
  }

  function AtLeastOne(quorum: nat): nat {
    if quorum == 0 then 1 else quorum
  }

  /** How many remotes must succeed. With one beside a local node the quorum is 0, but its failure is returned. */
  function Needed(remotes: nat, local: bool): nat {
    if remotes == 0 then 0 else AtLeastOne(RemoteQuorum(remotes, local))
  }

  lemma {:induction false} SuccessesBounded(acks: seq<Ack>, k: nat)
    requires k <= |acks|
    ensures Successes(acks[..k]) <= Successes(acks) <= Successes(acks[..k]) + |acks| - k
    ensures Successes(acks) <= |acks|
  {
    if k == |acks| {
      assert acks[..k] == acks;
      if k > 0 {
        SuccessesBounded(acks[..k - 1], k - 1);
      }
    } else {
      assert acks[..|acks| - 1][..k] == acks[..k];
      SuccessesBounded(acks[..|acks| - 1], k);
    }
  }

  lemma {:induction false} FirstErrorStays(acks: seq<Ack>, k: nat)
    requires k <= |acks| && FirstError(acks[..k]).Some?
    ensures FirstError(acks) == FirstError(acks[..k])
  {
    if k < |acks| {
      assert acks[..|acks| - 1][..k] == acks[..k];
      FirstErrorStays(acks[..|acks| - 1], k);
    } else {
      assert acks[..k] == acks;
    }
  }

  lemma {:induction false} AllSucceed(acks: seq<Ack>)
    ensures Successes(acks) == |acks| <==> FirstError(acks).None?
  {
    if acks != [] {
      var init := acks[..|acks| - 1];
      AllSucceed(init);
      SuccessesBounded(init, |init|);
      assert acks == init + [acks[|acks| - 1]];
    }
  }

  /** The channels hold the answers that have arrived; a call sends exactly one. */
  class QuorumPool {
    var local: bool
    var remotes: nat
    var localAnswers: seq<Ack>
    var remoteAnswers: seq<Ack>

    constructor ()
      ensures !local && remotes == 0 && localAnswers == [] && remoteAnswers == []
    {
      local, remotes, localAnswers, remoteAnswers := false, 0, [], [];
    }

    /** Start the local call on a new channel. */
    method GoLocal()
      modifies this`local, this`localAnswers
      ensures local && localAnswers == []
    {
      local, localAnswers := true, [];
    }

    method GoRemote()
      modifies this`remotes
      ensures remotes == old(remotes) + 1
    {
      remotes := remotes + 1;
    }

    /** The local call returns. */
    method LocalReturns(ack: Ack)
      requires local && localAnswers == []
      modifies this`localAnswers
      ensures localAnswers == [ack]
    {
      localAnswers := [ack];
    }

    /** One of the outstanding remote calls returns. */
    method RemoteReturns(ack: Ack)
      requires |remoteAnswers| < remotes
      modifies this`remoteAnswers
      ensures remoteAnswers == old(remoteAnswers) + [ack]
    {
      remoteAnswers := remoteAnswers + [ack];
    }

    /** Count the answers as they arrive until the verdict is certain. */
    static method WaitRemotes(arrivals: seq<Ack>, quorum: nat) returns (r: Ack, used: nat)
      requires quorum <= |arrivals| && arrivals != []
      ensures used <= |arrivals|
      ensures r.None? <==> Successes(arrivals) >= AtLeastOne(quorum)
      ensures r.Some? ==> r == FirstError(arrivals)
      ensures if r.None? then Successes(arrivals[..used]) >= AtLeastOne(quorum)
        else Successes(arrivals[..used]) + |arrivals| - used < AtLeastOne(quorum)
    {
      var firstErr: Ack := None;
      var success, failure := 0, 0;
      var i := 0;
      while i < |arrivals|
        invariant 0 <= i <= |arrivals|
        invariant success == Successes(arrivals[..i]) && success + failure == i
        invariant firstErr == FirstError(arrivals[..i])
        invariant failure <= |arrivals| - quorum && success < AtLeastOne(quorum)
      {
        assert arrivals[..i + 1][..i] == arrivals[..i];
        if arrivals[i].None? {
          success := success + 1;
          if success >= quorum {
            SuccessesBounded(arrivals, i + 1);
            return None, i + 1;
          }
        } else {
          if firstErr.None? {
            firstErr := arrivals[i];
          }
          failure := failure + 1;
          if failure > |arrivals| - quorum {
            SuccessesBounded(arrivals, i + 1);
            FirstErrorStays(arrivals, i + 1);
            return firstErr, i + 1;
          }
        }
        i := i + 1;
      }
      assert arrivals[..i] == arrivals;
      AllSucceed(arrivals);
      r, used := firstErr, i;
    }

    /**
     * Succeeds exactly when the local call did, if there is one, and enough remotes did; otherwise returns the local
     * error, or the first remote one. It stops early: `used` answers decide, whatever the rest would be.
     */
    method Wait() returns (r: Ack, used: nat)
      requires (local ==> |localAnswers| == 1) && |remoteAnswers| == remotes
      ensures r.None? <==> (local ==> localAnswers[0].None?) && Successes(remoteAnswers) >= Needed(remotes, local)
      ensures r.Some? ==> r == if local && localAnswers[0].Some? then localAnswers[0] else FirstError(remoteAnswers)
      ensures used <= remotes
      ensures (local ==> localAnswers[0].None?) && remotes > 0 ==>
        if r.None? then Successes(remoteAnswers[..used]) >= Needed(remotes, local)
        else Successes(remoteAnswers[..used]) + remotes - used < Needed(remotes, local)
    {
      if local && localAnswers[0].Some? {
        return localAnswers[0], 0;
      }
      if remotes == 0 {
        return None, 0;
      }
      var quorum := RemoteQuorum(remotes, local);
      assert quorum <= remotes;
      r, used := WaitRemotes(remoteAnswers, quorum);
    }
  }

  lemma {:induction false} CountIsMultiplicity(a: seq<Ack>)
    ensures Successes(a) == multiset(a)[None]
  {
    if a != [] {
      CountIsMultiplicity(a[..|a| - 1]);
      assert a == a[..|a| - 1] + [a[|a| - 1]];
    }
  }

  /** The verdict depends only on how many remotes succeeded: arrival order does not matter. */
  lemma {:induction false} OrderDoesNotMatter(a: seq<Ack>, b: seq<Ack>)
    requires multiset(a) == multiset(b)
    ensures Successes(a) == Successes(b)
  {
    CountIsMultiplicity(a);
    CountIsMultiplicity(b);
  }

  // ---------- two writes ----------

  /** A write to a stream's nodes: where it was issued, if on one of them, and the nodes that acknowledged it. */
  datatype Write = Write(local: Option<nat>, acks: set<nat>)

  /** What `Wait` accepts, as a statement about the nodes. */
  predicate Succeeded(nodes: set<nat>, w: Write) {
    && w.acks <= nodes
    && (w.local.Some? ==> w.local.value in w.acks)
    && var here := if w.local.Some? then {w.local.value} else {};
       |w.acks - here| >= Needed(|nodes - here|, w.local.Some?)
  }

  /** The least number of nodes that hold a successful write. */
  function Holders(nodes: nat, local: bool): nat
    requires nodes >= 1
  {
    if local then 1 + Needed(nodes - 1, true) else Needed(nodes, false)
  }

  lemma SubsetSize(a: set<nat>, b: set<nat>)
    requires a <= b
    ensures |b - a| == |b| - |a|
  {
    assert b == a + (b - a);
  }

  lemma SucceededHolders(nodes: set<nat>, w: Write)
    requires nodes != {} && w.acks <= nodes && (w.local.Some? ==> w.local.value in w.acks)
    ensures Succeeded(nodes, w) <==> |w.acks| >= Holders(|nodes|, w.local.Some?)
  {
    if w.local.Some? {
      SubsetSize({w.local.value}, w.acks);
      SubsetSize({w.local.value}, nodes);
    } else {
      assert w.acks - {} == w.acks && nodes - {} == nodes;
    }
  }

  /** Two successful writes share a node when the fewest nodes that can hold them add up to more than there are. */
  lemma WritesShareANode(nodes: set<nat>, a: Write, b: Write)
    requires nodes != {} && Succeeded(nodes, a) && Succeeded(nodes, b)
    requires Holders(|nodes|, a.local.Some?) + Holders(|nodes|, b.local.Some?) > |nodes|
    ensures a.acks * b.acks != {}
  {
    SucceededHolders(nodes, a);
    SucceededHolders(nodes, b);
    SubsetSize(a.acks + b.acks, nodes);
  }

  lemma HoldersExceedHalf(nodes: nat, la: bool, lb: bool)
    requires nodes >= 1
    ensures Holders(nodes, la) + Holders(nodes, lb) > nodes <==> nodes % 2 == 1 || (nodes == 2 && (la || lb))
  {
  }

  function Numbers(from: nat, to: nat): (r: set<nat>)
    requires from <= to
    ensures |r| == to - from && forall n :: n in r <==> from <= n < to
  {
    if from == to then {} else {to - 1} + Numbers(from, to - 1)
  }

  /** Any two successful writes, issued on a node of the stream or not, have a node in common. */
  ghost predicate AlwaysShare(n: nat, la: bool, lb: bool) {
    forall a: Write, b: Write ::
      a.local.Some? == la && b.local.Some? == lb && Succeeded(Numbers(0, n), a) && Succeeded(Numbers(0, n), b) ==>
        a.acks * b.acks != {}
  }

  /** Any two sets of at least `k` of `n` nodes have a node in common. */
  ghost predicate SetsShare(n: nat, k: nat) {
    forall a: set<nat>, b: set<nat> ::
      a <= Numbers(0, n) && b <= Numbers(0, n) && |a| >= k && |b| >= k ==> a * b != {}
  }

  lemma SetsShareExactly(n: nat, k: nat)
    ensures SetsShare(n, k) <==> 2 * k > n
  {
    if 2 * k > n {
      forall a: set<nat>, b: set<nat> | a <= Numbers(0, n) && b <= Numbers(0, n) && |a| >= k && |b| >= k
        ensures a * b != {}
      {
        SubsetSize(a + b, Numbers(0, n));
      }
    } else {
      var a, b := Numbers(0, k), Numbers(k, 2 * k);
      assert a * b == {};
    }
  }

  /**
   * For an odd number of nodes, and for two with a local one, a write succeeds with the least number of nodes for which
   * any two writes must share one; for every other even number with exactly one less.
   */
  lemma QuorumIsLeast(n: nat, local: bool)
    requires n >= 1
    ensures
      var least := if n % 2 == 1 || (n == 2 && local) then Holders(n, local) else Holders(n, local) + 1;
      forall k: nat :: SetsShare(n, k) <==> k >= least
  {
    forall k: nat ensures SetsShare(n, k) <==> 2 * k > n {
      SetsShareExactly(n, k);
    }
  }

  lemma DisjointWrites(n: nat, la: bool, lb: bool) returns (a: Write, b: Write)
    requires n >= 1 && Holders(n, la) + Holders(n, lb) <= n
    ensures a.local.Some? == la && b.local.Some? == lb && a.acks * b.acks == {}
    ensures Succeeded(Numbers(0, n), a) && Succeeded(Numbers(0, n), b)
  {
    var nodes, h, k := Numbers(0, n), Holders(n, la), Holders(n, lb);
    assert 0 in nodes;
    a := Write(if la then Some(0) else None, Numbers(0, h));
    b := Write(if lb then Some(h) else None, Numbers(h, h + k));
    SucceededHolders(nodes, a);
    SucceededHolders(nodes, b);
  }

  /** That holds exactly for an odd number of nodes, and for two nodes when one of them is the writer's own. */
  lemma WritesShareExactly(n: nat, la: bool, lb: bool)
    requires n >= 1
    ensures AlwaysShare(n, la, lb) <==> n % 2 == 1 || (n == 2 && (la || lb))
  {
    hide Succeeded, Numbers, Holders;
    HoldersExceedHalf(n, la, lb);
    if Holders(n, la) + Holders(n, lb) > n {
      assert 0 in Numbers(0, n);
      forall a: Write, b: Write |
        a.local.Some? == la && b.local.Some? == lb && Succeeded(Numbers(0, n), a) && Succeeded(Numbers(0, n), b)
        ensures a.acks * b.acks != {}
      {
        WritesShareANode(Numbers(0, n), a, b);
      }
    } else {
      var a, b := DisjointWrites(n, la, lb);
    }
  }
}
