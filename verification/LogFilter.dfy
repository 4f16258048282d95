/**
 * The monitor's merged log filter: one query for all event callbacks, cached until the next registration, and the
 * dispatch of what it fetched to the callbacks by their own address and topics.
 */
module LogFilter {
  import opened Wrappers

  datatype Log = Log(address: nat, topics: seq<nat>, data: nat)

  datatype Callback = Callback(address: Option<nat>, topics: seq<seq<nat>>)

  /** The addresses to fetch logs of; none means all. */
  datatype Query = Query(addresses: seq<nat>)

  predicate WantsAll(cb: Callback) {
    cb.address.None? && cb.topics == []
  }

  /** Every position the callback filters on holds one of the topics it names there. */
  predicate MatchesTopics(topics: seq<seq<nat>>, logTopics: seq<nat>) {
    |topics| <= |logTopics| && forall i :: 0 <= i < |topics| ==> logTopics[i] in topics[i]
  }

  predicate Wants(cb: Callback, log: Log) {
    (cb.address.None? || cb.address.value == log.address) && MatchesTopics(cb.topics, log.topics)
  }

  /** A position without topics matches nothing; in the client's own query language it would be a wildcard. */
  lemma EmptyPositionMatchesNothing(topics: seq<seq<nat>>, logTopics: seq<nat>, i: nat)
    requires i < |topics| && topics[i] == []
    ensures !MatchesTopics(topics, logTopics)
  {
    assert i < |logTopics| ==> logTopics[i] !in topics[i];
  }

  method MatchTopics(topics: seq<seq<nat>>, logTopics: seq<nat>) returns (b: bool)
    ensures b <==> MatchesTopics(topics, logTopics)
  {
    if |topics| == 0 {
      return true;
    }
    if |topics| > |logTopics| {
      return false;
    }
    var i := 0;
    while i < |topics|
      invariant 0 <= i <= |topics| && forall k :: 0 <= k < i ==> logTopics[k] in topics[k]
    {
      if logTopics[i] !in topics[i] {
        return false;
      }
      i := i + 1;
    }
    b := true;
  }

  // ---------- the merged query ----------

  /** The addresses of these callbacks, each once, in the order of their first mention. */
  function Addresses(cbs: seq<Callback>): (r: seq<nat>)
    ensures forall a :: a in r <==> exists i :: 0 <= i < |cbs| && cbs[i].address == Some(a)
    ensures forall i, j :: 0 <= i < j < |r| ==> r[i] != r[j]
  {
    if cbs == [] then []
    else
      var init, last := cbs[..|cbs| - 1], cbs[|cbs| - 1];
      var rest := Addresses(init);
      assert forall i :: 0 <= i < |init| ==> init[i] == cbs[i];
      if last.address.Some? && last.address.value !in rest then rest + [last.address.value] else rest
  }

  function Merged(cbs: seq<Callback>): Query {
    if exists i :: 0 <= i < |cbs| && WantsAll(cbs[i]) then Query([]) else Query(Addresses(cbs))
  }

  predicate Fetches(q: Query, log: Log) {
    q.addresses == [] || log.address in q.addresses
  }

  function Filter(logs: seq<Log>, p: Log -> bool): seq<Log> {
    if logs == [] then []
    else
      var rest := Filter(logs[..|logs| - 1], p);
      if p(logs[|logs| - 1]) then rest + [logs[|logs| - 1]] else rest
  }

  /** The logs a callback asked for. */
  function Own(logs: seq<Log>, cb: Callback): seq<Log> {
    Filter(logs, log => Wants(cb, log))
  }

  function Fetched(logs: seq<Log>, q: Query): seq<Log> {
    Filter(logs, log => Fetches(q, log))
  }

  /** What the three ways of registering produce: topics only together with an address. */
  predicate Registrable(cb: Callback) {
    cb.address.Some? || cb.topics == []
  }

  lemma MergedCovers(cbs: seq<Callback>, k: nat, log: Log)
    requires k < |cbs| && Registrable(cbs[k]) && Wants(cbs[k], log)
    ensures Fetches(Merged(cbs), log)
  {
    assert cbs[k].address.None? ==> WantsAll(cbs[k]);
  }

  /** Fetching with the merged query and then filtering is the same as filtering everything. */
  lemma {:induction false} MergedLosesNothing(cbs: seq<Callback>, k: nat, logs: seq<Log>)
    requires k < |cbs| && Registrable(cbs[k])
    ensures Own(Fetched(logs, Merged(cbs)), cbs[k]) == Own(logs, cbs[k])
  {
    if logs != [] {
      var init, last := logs[..|logs| - 1], logs[|logs| - 1];
      MergedLosesNothing(cbs, k, init);
      var q := Merged(cbs);
      if Fetches(q, last) {
        var fetched := Fetched(init, q) + [last];
        assert fetched[..|fetched| - 1] == Fetched(init, q);
      } else if Wants(cbs[k], last) {
        MergedCovers(cbs, k, last);
      }
    }
  }

  /** A callback with topics but no address would not be covered; none can be registered. */
  lemma UnregistrableIsLost()
    ensures var cbs := [Callback(Some(1), []), Callback(None, [[7]])];
      Wants(cbs[1], Log(2, [7], 0)) && !Fetches(Merged(cbs), Log(2, [7], 0))
  {
    var cbs := [Callback(Some(1), []), Callback(None, [[7]])];
    assert cbs[0].address == Some(1) && !WantsAll(cbs[0]) && !WantsAll(cbs[1]);
    assert 1 in Addresses(cbs);
  }

  class Builder {
    var dirty: bool
    var cachedQuery: Query
    var callbacks: seq<Callback>
    /** What each callback has been given. */
    var received: seq<seq<Log>>

    ghost predicate Valid()
      reads this
    {
      && (!dirty ==> cachedQuery == Merged(callbacks))
      && |received| == |callbacks| && forall i :: 0 <= i < |callbacks| ==> Registrable(callbacks[i])
    }

    constructor ()
      ensures Valid() && callbacks == []
    {
      dirty, cachedQuery, callbacks, received := true, Query([]), [], [];
    }

    method OnAllEvents()
      requires Valid()
      modifies this
      ensures Valid() && callbacks == old(callbacks) + [Callback(None, [])] && received == old(received) + [[]]
    {
      callbacks, received, dirty := callbacks + [Callback(None, [])], received + [[]], true;
    }

    method OnContractEvent(address: nat)
      requires Valid()
      modifies this
      ensures Valid() && callbacks == old(callbacks) + [Callback(Some(address), [])] && received == old(received) + [[]]
    {
      callbacks, received, dirty := callbacks + [Callback(Some(address), [])], received + [[]], true;
    }

    method OnContractWithTopicsEvent(address: nat, topics: seq<seq<nat>>)
      requires Valid()
      modifies this
      ensures Valid() && callbacks == old(callbacks) + [Callback(Some(address), topics)]
      ensures received == old(received) + [[]]
    {
      callbacks, received, dirty := callbacks + [Callback(Some(address), topics)], received + [[]], true;
    }

    /** The cached query, recomputed after a registration, is always the query for the callbacks there are now. */
    method GetQuery() returns (q: Query)
      requires Valid()
      modifies this`dirty, this`cachedQuery
      ensures Valid() && !dirty && q == Merged(callbacks)
    {
      if !dirty {
        return cachedQuery;
      }
      var addresses: seq<nat> := [];
      var i := 0;
      while i < |callbacks|
        invariant 0 <= i <= |callbacks|
        invariant forall k :: 0 <= k < i ==> !WantsAll(callbacks[k])
        invariant addresses == Addresses(callbacks[..i])
      {
        var cb := callbacks[i];
        if cb.address.None? && |cb.topics| == 0 {
          dirty, cachedQuery := false, Query([]);
          return cachedQuery;
        }
        assert callbacks[..i + 1][..i] == callbacks[..i];
        if cb.address.Some? && cb.address.value !in addresses {
          addresses := addresses + [cb.address.value];
        }
        i := i + 1;
      }
      assert callbacks[..|callbacks|] == callbacks;
      dirty, cachedQuery := false, Query(addresses);
      q := cachedQuery;
    }

    /** Give one log to every callback that wants it. */
    method OnLogReceived(log: Log)
      requires |received| == |callbacks|
      modifies this`received
      ensures |received| == |callbacks|
      ensures forall k :: 0 <= k < |callbacks| ==>
        received[k] == old(received)[k] + if Wants(callbacks[k], log) then [log] else []
    {
      var k := 0;
      while k < |callbacks|
        invariant 0 <= k <= |callbacks| == |received|
        invariant forall l :: 0 <= l < k ==>
          received[l] == old(received)[l] + if Wants(callbacks[l], log) then [log] else []
        invariant forall l :: k <= l < |callbacks| ==> received[l] == old(received)[l]
      {
        var cb := callbacks[k];
        var matches := MatchTopics(cb.topics, log.topics);
        if (cb.address.None? || cb.address.value == log.address) && matches {
          received := received[k := received[k] + [log]];
        }
        k := k + 1;
      }
    }

    /** One poll over the chain's logs of a range: each callback gets exactly the logs it asked for, in order. */
    method Deliver(logs: seq<Log>)
      requires Valid()
      modifies this
      ensures Valid() && callbacks == old(callbacks)
      ensures forall k :: 0 <= k < |callbacks| ==> received[k] == old(received)[k] + Own(logs, callbacks[k])
    {
      var q := GetQuery();
      var fetched := Fetched(logs, q);
      var i := 0;
      while i < |fetched|
        invariant 0 <= i <= |fetched| && |received| == |callbacks|
        invariant callbacks == old(callbacks) && !dirty && cachedQuery == q
        invariant forall k :: 0 <= k < |callbacks| ==>
          received[k] == old(received)[k] + Own(fetched[..i], callbacks[k])
      {
        OnLogReceived(fetched[i]);
        assert fetched[..i + 1][..i] == fetched[..i];
        i := i + 1;
      }
      assert fetched[..|fetched|] == fetched;
      forall k | 0 <= k < |callbacks| ensures received[k] == old(received)[k] + Own(logs, callbacks[k]) {
        MergedLosesNothing(callbacks, k, logs);
      }
    }
  }
}
