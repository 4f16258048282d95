/**
 * Key solicitations as the node answers them and as a header records them, on views that were queried before: when the
 * sharing of the events' messages shows, and when the answers are those of the query over values.
 */
module SharedAnswers {
  import opened Wrappers
  import opened ByteStrings
  import opened Messages
  import opened RecentLists
  import opened Snapshots
  import opened Chains
  import opened Views
  import opened SharedMessages
  import opened SharedSolicitations
  import Queries

  // ---------- the tail of a view ----------

  function ActOf(user: Bytes, e: Event, m: nat): (r: Act)
    ensures r.Solicit? ==> r.m == m
  {
    if !e.payload.MemberPayload? then Skip
    else match e.payload.member
      case Membership(Join, u) => if u == user then Enter else Skip
      case Membership(Leave, u) => if u == user then Exit else Skip
      case KeySolicitation(_) => if e.creator == user then Solicit(m) else Skip
      case KeyFulfillment(u, deviceKey, ids) => if u == user then Fulfill(deviceKey, ids) else Skip
      case _ => Skip
  }

  /** The events of a tail, each with the cell of its message after those of the copies. */
  function ActsOf(user: Bytes, es: seq<Event>, clones: nat): (r: seq<Act>)
    ensures |r| == |es| && forall i :: 0 <= i < |es| ==> r[i] == ActOf(user, es[i], clones + i)
  {
    seq(|es|, i requires 0 <= i < |es| => ActOf(user, es[i], clones + i))
  }

  function MessageOf(e: Event): Solicitation {
    if e.payload.MemberPayload? && e.payload.member.KeySolicitation? then e.payload.member.solicitation
    else Solicitation([], [], false, [])
  }

  function Copies(base: Option<seq<Solicitation>>): seq<Solicitation> {
    if base.Some? then base.value else []
  }

  /** The member's copies from the snapshot, then the events' own messages. */
  function StoreOf(base: Option<seq<Solicitation>>, es: seq<Event>): (r: seq<Solicitation>)
    ensures |r| == |Copies(base)| + |es|
    ensures forall i :: 0 <= i < |Copies(base)| ==> r[i] == Copies(base)[i]
    ensures forall i :: 0 <= i < |es| ==> r[|Copies(base)| + i] == MessageOf(es[i])
  {
    Copies(base) + seq(|es|, i requires 0 <= i < |es| => MessageOf(es[i]))
  }

  function KeysOf(store: seq<Solicitation>): (r: seq<Bytes>)
    ensures |r| == |store| && forall i :: 0 <= i < |store| ==> r[i] == store[i].deviceKey
  {
    seq(|store|, i requires 0 <= i < |store| => store[i].deviceKey)
  }

  function StartOf(base: Option<seq<Solicitation>>): Listing {
    if base.None? then Absent else Listed(seq(|base.value|, i => i))
  }

  lemma TailIsProper(user: Bytes, base: Option<seq<Solicitation>>, es: seq<Event>)
    ensures var l, acts := StartOf(base), ActsOf(user, es, |Copies(base)|);
      InStore(l, acts, |StoreOf(base, es)|) && OwnMessages(l, acts)
  {
    hide ActOf, MessageOf, ActsOf, StoreOf;
    var clones := |Copies(base)|;
    var acts := ActsOf(user, es, clones);
    assert forall i :: 0 <= i < |acts| && acts[i].Solicit? ==> acts[i].m == clones + i;
  }

  // ---------- the first replay ----------

  ghost predicate HasKeys(keys: seq<Bytes>, store: seq<Solicitation>) {
    |keys| == |store| && forall m :: 0 <= m < |store| ==> store[m].deviceKey == keys[m]
  }

  lemma {:induction false} ShownWithout(keys: seq<Bytes>, list: seq<nat>, store: seq<Solicitation>, k: Bytes)
    requires HasKeys(keys, store) && Within(list, |store|)
    ensures Within(Without(list, KeyOf(keys), k), |store|)
    ensures Shown(Without(list, KeyOf(keys), k), store) == Without(Shown(list, store), SolicitationKey, k)
  {
    if list != [] {
      var init, last := Init(list), Last(list);
      ShownWithout(keys, init, store, k);
      assert Init(Shown(list, store)) == Shown(init, store) && Last(Shown(list, store)) == store[last];
      var kept := Without(init, KeyOf(keys), k);
      if keys[last] != k {
        assert Shown(kept + [last], store) == Shown(kept, store) + [store[last]];
      }
    }
  }

  lemma ShownPush(keys: seq<Bytes>, list: seq<nat>, store: seq<Solicitation>, m: nat)
    requires HasKeys(keys, store) && m < |store| && Within(list, |store|)
    ensures Within(Push(list, KeyOf(keys), m), |store|)
    ensures Shown(Push(list, KeyOf(keys), m), store) == Push(Shown(list, store), SolicitationKey, store[m])
  {
    hide Without;
    PushedWithin(list, KeyOf(keys), m, |store|);
    ShownWithout(keys, list, store, keys[m]);
    var others := Without(list, KeyOf(keys), keys[m]);
    var cut := if |others| > MAX_DEVICES then |others| - MAX_DEVICES else 0;
    var whole := Shown(others, store);
    assert Shown(others[cut..] + [m], store) == whole[cut..] + [store[m]];
  }

  lemma ShownFulfill(
    keys: seq<Bytes>, list: seq<nat>, store: seq<Solicitation>, deviceKey: Bytes, ids: seq<Bytes>)
    requires HasKeys(keys, store) && Within(list, |store|) && DistinctKeys(list, KeyOf(keys))
    ensures FirstOf(keys, list, deviceKey).Some? ==> FirstOf(keys, list, deviceKey).value < |store|
    ensures
      var r := FirstOf(keys, list, deviceKey);
      var after := if r.Some? then store[r.value := Fulfilled(store[r.value], ids)] else store;
      Shown(list, after) == FulfillFirst(Shown(list, store), deviceKey, ids)
  {
    hide FirstOf, FulfillFirst, RemoveCommon;
    var p := FirstOfAt(keys, list, deviceKey);
    FulfillFirstAt(Shown(list, store), deviceKey, ids, p);
    if p < |list| {
      var after := store[list[p] := Fulfilled(store[list[p]], ids)];
      assert forall q :: 0 <= q < |list| && q != p ==> KeyOf(keys)(list[q]) != KeyOf(keys)(list[p]);
      assert forall q :: 0 <= q < |list| && q != p ==> Shown(list, after)[q] == store[list[q]];
    }
  }

  /** A replay over the first `n` cells shows the answer `r`; the other cells are as they were. */
  ghost predicate Tied(keys: seq<Bytes>, store: seq<Solicitation>, t: State, n: nat, r: Option<seq<Solicitation>>) {
    && n <= |store| == |t.store| && HasKeys(keys, t.store)
    && DistinctKeys(t.listing.List(), KeyOf(keys)) && Within(t.listing.List(), n)
    && (forall m :: n <= m < |store| ==> t.store[m] == store[m])
    && Within(t.listing.List(), |t.store|) && Answer(t) == r
  }

  lemma TiedSolicit(
    keys: seq<Bytes>, store: seq<Solicitation>, t: State, n: nat, r: Option<seq<Solicitation>>)
    requires n < |store| && t.listing.Listed? && Tied(keys, store, t, n, r)
    ensures Tied(keys, store, Step(keys, t, Solicit(n)), n + 1, Some(Push(r.value, SolicitationKey, store[n])))
  {
    hide Push;
    var list := t.listing.list;
    ShownPush(keys, list, t.store, n);
    PushKeepsRecent(list, KeyOf(keys), n);
    PushedWithin(list, KeyOf(keys), n, n + 1);
  }

  lemma TiedFulfill(
    keys: seq<Bytes>, store: seq<Solicitation>, t: State, n: nat, r: Option<seq<Solicitation>>,
    deviceKey: Bytes, ids: seq<Bytes>)
    requires n < |store| && t.listing.Listed? && Tied(keys, store, t, n, r)
    ensures Tied(
      keys, store, Step(keys, t, Fulfill(deviceKey, ids)), n + 1, Some(FulfillFirst(r.value, deviceKey, ids)))
  {
    hide FulfillFirst, RemoveCommon, FirstOf, DistinctKeys;
    ShownFulfill(keys, t.listing.list, t.store, deviceKey, ids);
    var p := FirstOfAt(keys, t.listing.list, deviceKey);
  }

  lemma TiedStep(
    user: Bytes, keys: seq<Bytes>, store: seq<Solicitation>, t: State, n: nat, r: Option<seq<Solicitation>>, e: Event)
    requires n < |store| && store[n] == MessageOf(e) && Tied(keys, store, t, n, r)
    ensures Tied(keys, store, Step(keys, t, ActOf(user, e, n)), n + 1, Queries.SolicitationsStep(user, r, e))
  {
    hide Push, FulfillFirst, FirstOf;
    var a := ActOf(user, e, n);
    if t.listing.Listed? && a.Solicit? {
      TiedSolicit(keys, store, t, n, r);
    } else if t.listing.Listed? && a.Fulfill? {
      TiedFulfill(keys, store, t, n, r, a.deviceKey, a.ids);
    } else if a.Enter? {
      assert Shown([], t.store) == [];
    }
  }

  lemma TiedStart(base: Option<seq<Solicitation>>, es: seq<Event>)
    requires DistinctKeys(Copies(base), SolicitationKey)
    ensures var store := StoreOf(base, es);
      Tied(KeysOf(store), store, State(StartOf(base), store), |Copies(base)|, base)
  {
    hide MessageOf;
    var store := StoreOf(base, es);
    if base.Some? {
      assert Shown(StartOf(base).list, store) == base.value;
    }
  }

  /** Sharing does not show in the first replay: its answer is that of the query over values. */
  lemma {:induction false} FirstAnswerIsQuery(user: Bytes, base: Option<seq<Solicitation>>, es: seq<Event>, k: nat)
    requires k <= |es| && DistinctKeys(Copies(base), SolicitationKey)
    ensures
      var store, clones := StoreOf(base, es), |Copies(base)|;
      var q, start := Queries.KeySolicitationsOf(user), Queries.Solicitations(base);
      var t := Play(KeysOf(store), State(StartOf(base), store), ActsOf(user, es, clones)[..k]);
      && Queries.Play(q, start, es[..k]).Solicitations?
      && Tied(KeysOf(store), store, t, clones + k, Queries.Play(q, start, es[..k]).solicitations)
  {
    hide Tied, Step, StoreOf, KeysOf, ActsOf, ActOf, MessageOf, Queries.SolicitationsStep;
    if k == 0 {
      TiedStart(base, es);
    } else {
      FirstAnswerIsQuery(user, base, es, k - 1);
      var store, clones := StoreOf(base, es), |Copies(base)|;
      var acts := ActsOf(user, es, clones);
      var q, start := Queries.KeySolicitationsOf(user), Queries.Solicitations(base);
      assert Init(acts[..k]) == acts[..k - 1] && Init(es[..k]) == es[..k - 1];
      var t := Play(KeysOf(store), State(StartOf(base), store), acts[..k - 1]);
      TiedStep(
        user, KeysOf(store), store, t, clones + k - 1, Queries.Play(q, start, es[..k - 1]).solicitations, es[k - 1]);
    }
  }

  // ---------- what the node answers ----------

  function BaseOf(user: Bytes, s: Snapshot): Option<seq<Solicitation>> {
    Queries.Start(Queries.KeySolicitationsOf(user), s).solicitations
  }

  lemma BaseIsDistinct(user: Bytes, s: Snapshot)
    requires WellFormed(s)
    ensures DistinctKeys(Copies(BaseOf(user, s)), SolicitationKey)
  {
  }

  /** The query as it is specified, over values. */
  function ValueOf(user: Bytes, s: Snapshot, es: seq<Event>): Queries.Answer {
    var q := Queries.KeySolicitationsOf(user);
    Queries.Play(q, Queries.Start(q, s), es)
  }

  /** The state a replay of the first `k` events leaves when the messages of `es` are as `store` says. */
  function ReplayOf(user: Bytes, base: Option<seq<Solicitation>>, es: seq<Event>, store: seq<Solicitation>, k: nat)
    : (r: State)
    requires k <= |es| && |store| == |StoreOf(base, es)|
    ensures |r.store| == |store| && Within(r.listing.List(), |r.store|)
  {
    TailIsProper(user, base, es);
    var acts := ActsOf(user, es, |Copies(base)|);
    ReplayInStore(KeysOf(StoreOf(base, es)), StartOf(base), store, acts[..k]);
    Play(KeysOf(StoreOf(base, es)), State(StartOf(base), store), acts[..k])
  }

  lemma FirstReplayIsValue(user: Bytes, s: Snapshot, es: seq<Event>, k: nat)
    requires WellFormed(s) && k <= |es|
    ensures var base := BaseOf(user, s);
      Queries.Solicitations(Answer(ReplayOf(user, base, es, StoreOf(base, es), k))) == ValueOf(user, s, es[..k])
  {
    hide Play, Queries.Play, StoreOf, KeysOf, ActsOf, WellFormed;
    BaseIsDistinct(user, s);
    FirstAnswerIsQuery(user, BaseOf(user, s), es, k);
  }

  /** The messages after queries over the first `ks[0]`, then the first `ks[1]`, and so on, of the events. */
  function AfterQueries(user: Bytes, base: Option<seq<Solicitation>>, es: seq<Event>, ks: seq<nat>)
    : (r: seq<Solicitation>)
    requires forall i :: 0 <= i < |ks| ==> ks[i] <= |es|
    ensures |r| == |StoreOf(base, es)|
  {
    var store, clones := StoreOf(base, es), |Copies(base)|;
    Queried(KeysOf(store), StartOf(base), store, clones, ActsOf(user, es, clones), ks)
  }

  /** After these queries every replay answers as the query over values does, whatever the tail has grown to. */
  ghost predicate AnswersAreValues(user: Bytes, s: Snapshot, es: seq<Event>, ks: seq<nat>)
    requires Nondecreasing(ks, |es|)
  {
    var base := BaseOf(user, s);
    forall k: nat :: Reaches(ks, k, |es|) ==>
      Queries.Solicitations(Answer(ReplayOf(user, base, es, AfterQueries(user, base, es, ks), k))) ==
      ValueOf(user, s, es[..k])
  }

  /** Every message of the user that a query listed was left as the same replay would leave it again. */
  ghost predicate QueriesAreSafe(user: Bytes, s: Snapshot, es: seq<Event>, ks: seq<nat>)
    requires Nondecreasing(ks, |es|)
  {
    var base := BaseOf(user, s);
    var store, clones := StoreOf(base, es), |Copies(base)|;
    AllSafe(KeysOf(store), StartOf(base), store, clones, ActsOf(user, es, clones), ks)
  }

  lemma UndisturbedIsValues(user: Bytes, s: Snapshot, es: seq<Event>, ks: seq<nat>)
    requires WellFormed(s) && Nondecreasing(ks, |es|)
    ensures
      var base := BaseOf(user, s);
      var store, clones := StoreOf(base, es), |Copies(base)|;
      var acts := ActsOf(user, es, clones);
      && InStore(StartOf(base), acts, |store|)
      && (AnswersAreValues(user, s, es, ks) <==> Undisturbed(KeysOf(store), StartOf(base), store, clones, acts, ks))
  {
    hide Play, Queries.Play, StoreOf, KeysOf, ActsOf, WellFormed, BaseOf, Queried, StartOf, Copies, InStore;
    var base := BaseOf(user, s);
    TailIsProper(user, base, es);
    forall k: nat | Reaches(ks, k, |es|)
      ensures Queries.Solicitations(Answer(ReplayOf(user, base, es, StoreOf(base, es), k))) ==
        ValueOf(user, s, es[..k])
    {
      FirstReplayIsValue(user, s, es, k);
    }
  }

  /**
   * Any snapshot, any user, any tail, queried any number of times as it grows: after each query every replay answers
   * as the query over values does, if and only if every one of the queries was safe.
   */
  lemma QueriesAreValues(user: Bytes, s: Snapshot, es: seq<Event>, ks: seq<nat>)
    requires WellFormed(s) && Nondecreasing(ks, |es|)
    ensures (forall i :: 0 <= i <= |ks| ==> AnswersAreValues(user, s, es, ks[..i])) <==> QueriesAreSafe(user, s, es, ks)
  {
    hide AnswersAreValues, Undisturbed, WellFormed, StoreOf, KeysOf, ActsOf, BaseOf, AllSafe;
    var base := BaseOf(user, s);
    var store, clones := StoreOf(base, es), |Copies(base)|;
    TailIsProper(user, base, es);
    QueriesOfGrowingTail(KeysOf(store), StartOf(base), store, clones, ActsOf(user, es, clones), ks);
    forall i | 0 <= i <= |ks|
      ensures AnswersAreValues(user, s, es, ks[..i]) <==>
        Undisturbed(KeysOf(store), StartOf(base), store, clones, ActsOf(user, es, clones), ks[..i])
    {
      UndisturbedIsValues(user, s, es, ks[..i]);
    }
  }

  lemma NoQueryIsSafe(user: Bytes, s: Snapshot, es: seq<Event>)
    ensures QueriesAreSafe(user, s, es, [])
  {
  }

  lemma OneQuery(user: Bytes, s: Snapshot, es: seq<Event>, ks: seq<nat>)
    requires WellFormed(s) && |ks| == 1 && ks[0] <= |es|
    ensures AnswersAreValues(user, s, es, ks) <==> QueriesAreSafe(user, s, es, ks)
  {
    hide WellFormed, AnswersAreValues, QueriesAreSafe;
    NoQueryIsSafe(user, s, es);
    var none: seq<nat> := [];
    QueriesAreValues(user, s, es, none);
    QueriesAreValues(user, s, es, ks);
    assert ks[..1] == ks && ks[..0] == none && none[..0] == none;
    assert AnswersAreValues(user, s, es, none[..0]);
  }

  /** The tail of a view; headers are left out, so a block that takes the front of the pool does not change it. */
  function TailOf(v: View): seq<Event>
    requires 0 <= v.snapshotIndex < |v.blocks|
  {
    AllEvents(v.blocks[v.snapshotIndex + 1..]) + v.pool
  }

  lemma AskIsValue(user: Bytes, v: View)
    requires 0 <= v.snapshotIndex < |v.blocks|
    ensures Queries.Ask(Queries.KeySolicitationsOf(user), v) == ValueOf(user, v.snapshot, TailOf(v))
  {
    hide Queries.Start, Queries.Play;
    var q, tail := Queries.KeySolicitationsOf(user), v.blocks[v.snapshotIndex + 1..];
    var start := Queries.Start(q, v.snapshot);
    Queries.PlayConcat(q, start, Delivered(tail), v.pool);
    Queries.PlayConcat(q, start, AllEvents(tail), v.pool);
    Queries.PlayDelivered(q, start, tail);
  }

  /** So the node's answer on a view that was queried before is the one the view's queries are proved about. */
  lemma AskAfterQueries(user: Bytes, v: View, ks: seq<nat>)
    requires 0 <= v.snapshotIndex < |v.blocks| && WellFormed(v.snapshot) && Nondecreasing(ks, |TailOf(v)|)
    requires QueriesAreSafe(user, v.snapshot, TailOf(v), ks)
    ensures
      var base, es := BaseOf(user, v.snapshot), TailOf(v);
      Queries.Solicitations(Answer(ReplayOf(user, base, es, AfterQueries(user, base, es, ks), |es|))) ==
      Queries.Ask(Queries.KeySolicitationsOf(user), v)
  {
    hide WellFormed, QueriesAreSafe, ReplayOf, AfterQueries, BaseOf, Queries.Ask, TailOf, ValueOf;
    var es := TailOf(v);
    QueriesAreValues(user, v.snapshot, es, ks);
    assert ks[..|ks|] == ks && es[..|es|] == es;
    assert Reaches(ks, |es|, |es|);
    AskIsValue(user, v);
  }

  /** The ids an event solicits come in order, each once; those it fulfills come in order. */
  ghost predicate SortedIds(e: Event) {
    && Increasing(MessageOf(e).sessionIds)
    && (e.payload.MemberPayload? && e.payload.member.KeyFulfillment? ==> Ascending(e.payload.member.sessionIds))
  }

  lemma SortedTailIsSafe(user: Bytes, s: Snapshot, es: seq<Event>, ks: seq<nat>)
    requires Nondecreasing(ks, |es|) && forall i :: 0 <= i < |es| ==> SortedIds(es[i])
    ensures QueriesAreSafe(user, s, es, ks)
  {
    hide BaseOf, Ascending, Increasing, StoreOf, KeysOf, StartOf, MessageOf, ActsOf, AllSafe;
    var base := BaseOf(user, s);
    var store, clones := StoreOf(base, es), |Copies(base)|;
    var acts := ActsOf(user, es, clones);
    forall m | clones <= m < |store| ensures Increasing(store[m].sessionIds) {
      assert store[clones + (m - clones)] == MessageOf(es[m - clones]);
    }
    forall i | 0 <= i < |acts| && acts[i].Fulfill? ensures Ascending(acts[i].ids) {
      assert acts[i] == ActOf(user, es[i], clones + i);
    }
    SortedQueriesAreSafe(KeysOf(store), StartOf(base), store, clones, acts, ks);
  }

  /** With sorted ids in its tail a view answers the same however often it was queried before. */
  lemma AskWithSortedIds(user: Bytes, v: View, ks: seq<nat>)
    requires 0 <= v.snapshotIndex < |v.blocks| && WellFormed(v.snapshot) && Nondecreasing(ks, |TailOf(v)|)
    requires forall i :: 0 <= i < |TailOf(v)| ==> SortedIds(TailOf(v)[i])
    ensures
      var base, es := BaseOf(user, v.snapshot), TailOf(v);
      Queries.Solicitations(Answer(ReplayOf(user, base, es, AfterQueries(user, base, es, ks), |es|))) ==
      Queries.Ask(Queries.KeySolicitationsOf(user), v)
  {
    hide WellFormed, ReplayOf, AfterQueries, BaseOf, Queries.Ask, TailOf, SortedIds, QueriesAreSafe;
    SortedTailIsSafe(user, v.snapshot, TailOf(v), ks);
    AskAfterQueries(user, v, ks);
  }

  // ---------- the smallest tail ----------

  /** A member's only solicitation, then one fulfillment of it. */
  predicate SolicitedOnce(user: Bytes, s: Snapshot, es: seq<Event>) {
    && |es| >= 2 && BaseOf(user, s) == Some([])
    && es[0].creator == user && es[0].payload.MemberPayload? && es[0].payload.member.KeySolicitation?
    && es[1].payload.MemberPayload? && es[1].payload.member.KeyFulfillment?
    && es[1].payload.member.user == user && es[1].payload.member.deviceKey == MessageOf(es[0]).deviceKey
  }

  lemma OneReached(keys: seq<Bytes>, acts: seq<Act>)
    requires |acts| == 2 && |keys| > 0 && acts[0] == Solicit(0) && acts[1].Fulfill? && acts[1].deviceKey == keys[0]
    ensures ListingAfter(keys, Listed([]), acts) == Listed([0])
    ensures Hits(keys, Listed([]), acts, 0) == [acts[1].ids]
  {
    var none: seq<nat> := [];
    assert Push(none, KeyOf(keys), 0) == [0];
    assert Init(Init(acts)) == [];
    assert ListingAfter(keys, Listed([]), Init(acts)) == Listed([0]);
    assert FirstOf(keys, [0], keys[0]) == Some(0);
    assert Hits(keys, Listed([]), Init(acts), 0) == [];
  }

  lemma OneSolicitation(user: Bytes, s: Snapshot, es: seq<Event>)
    requires SolicitedOnce(user, s, es)
    ensures QueriesAreSafe(user, s, es, [2]) <==> Safe(MessageOf(es[0]), [es[1].payload.member.sessionIds])
  {
    hide Safe, ListingAfter, Hits, BaseOf;
    var base := BaseOf(user, s);
    var store, acts := StoreOf(base, es), ActsOf(user, es, 0);
    OneReached(KeysOf(store), acts[..2]);
    assert StartOf(base) == Listed([]);
    assert SafeQuery(KeysOf(store), Listed([]), store, 0, acts[..2]) <==>
      Safe(store[0], [es[1].payload.member.sessionIds]) by {
      assert 0 in [0];
    }
    var ks: seq<nat> := [2];
    assert AllSafe(KeysOf(store), Listed([]), store, 0, acts, ks) <==>
      SafeQuery(KeysOf(store), Listed([]), store, 0, acts[..ks[0]]);
  }

  /** Ids [c, b, a] with [b, a, c] fulfilled: one query over the two events changes a later answer. */
  lemma AnswersChange(user: Bytes, s: Snapshot, es: seq<Event>)
    requires WellFormed(s) && SolicitedOnce(user, s, es) && !MessageOf(es[0]).isNewDevice
    requires MessageOf(es[0]).fallbackKey == [] && MessageOf(es[0]).sessionIds == [[3], [2], [1]]
    requires es[1].payload.member.sessionIds == [[2], [1], [3]]
    ensures !AnswersAreValues(user, s, es, [2])
  {
    hide WellFormed, BaseOf, MessageOf, Safe, QueriesAreSafe, AnswersAreValues;
    GrowingIsAffected(MessageOf(es[0]).deviceKey);
    OneSolicitation(user, s, es);
    OneQuery(user, s, es, [2]);
  }

  // ---------- what a header records ----------

  ghost predicate EventsUnaffected(user: Bytes, s: Snapshot, es: seq<Event>, k: nat)
    requires k <= |es|
  {
    var base := BaseOf(user, s);
    var store, clones := StoreOf(base, es), |Copies(base)|;
    AllUnaffected(KeysOf(store), StartOf(base), store, clones, ActsOf(user, es, clones), k)
  }

  ghost predicate EventsLeftSafe(user: Bytes, s: Snapshot, es: seq<Event>, ks: seq<nat>, k: nat)
    requires k <= |es| && forall i :: 0 <= i < |ks| ==> ks[i] <= |es|
  {
    var base := BaseOf(user, s);
    var store, clones := StoreOf(base, es), |Copies(base)|;
    LeftSafe(KeysOf(store), StartOf(base), store, clones, ActsOf(user, es, clones), ks, k)
  }

  lemma ValueIsFold(user: Bytes, s: Snapshot, es: seq<Event>, num: int, firstNum: int)
    requires WellFormed(s)
    ensures ValueOf(user, s, es) == Queries.Solicitations(BaseOf(user, FoldEvents(s, es, num, firstNum)))
  {
    hide WellFormed, FoldEvents;
    Queries.PlayFold(Queries.KeySolicitationsOf(user), s, es, num, firstNum);
  }

  /** A header over the first `k` events, built after queries, records the fold exactly when no message is affected. */
  lemma BuiltAfterQueries(user: Bytes, s: Snapshot, es: seq<Event>, ks: seq<nat>, k: nat, num: int, firstNum: int)
    requires WellFormed(s) && k <= |es| && ks != [] && Last(ks) == |es| && Nondecreasing(ks, |es|)
    requires EventsLeftSafe(user, s, es, Init(ks), k)
    ensures
      var base := BaseOf(user, s);
      Answer(ReplayOf(user, base, es, AfterQueries(user, base, es, ks), k)) ==
        BaseOf(user, FoldEvents(s, es[..k], num, firstNum)) <==>
      EventsUnaffected(user, s, es, k)
  {
    hide WellFormed, StoreOf, KeysOf, ActsOf, LeftSafe, AllUnaffected, BaseOf, Play, Queries.Play, FoldEvents,
      Queried, StartOf, Copies, InStore;
    var base := BaseOf(user, s);
    var store, clones := StoreOf(base, es), |Copies(base)|;
    TailIsProper(user, base, es);
    ReplayAfterQueries(KeysOf(store), StartOf(base), store, clones, ActsOf(user, es, clones), ks, k);
    FirstReplayIsValue(user, s, es, k);
    ValueIsFold(user, s, es[..k], num, firstNum);
  }

  /** A header over the first `k` events, built before the queries, goes on showing the fold exactly then too. */
  lemma BuiltBeforeQueries(user: Bytes, s: Snapshot, es: seq<Event>, ks: seq<nat>, k: nat, num: int, firstNum: int)
    requires WellFormed(s) && k <= |es| && ks != [] && Last(ks) == |es| && Nondecreasing(ks, |es|)
    ensures
      var base := BaseOf(user, s);
      var store, clones := StoreOf(base, es), |Copies(base)|;
      var built := ReplayOf(user, base, es, store, k);
      var later := Queried(KeysOf(store), StartOf(base), Reread(store, built.store, clones), clones,
                           ActsOf(user, es, clones), ks);
      ShownLater(built, later, clones) == BaseOf(user, FoldEvents(s, es[..k], num, firstNum)) <==>
      EventsUnaffected(user, s, es, k)
  {
    hide WellFormed, KeysOf, ActsOf, AllUnaffected, BaseOf, Play, Queries.Play, FoldEvents,
      Queried, StartOf, InStore, MessageOf;
    var base := BaseOf(user, s);
    var store, clones := StoreOf(base, es), |Copies(base)|;
    TailIsProper(user, base, es);
    HeaderEditedLater(KeysOf(store), StartOf(base), store, clones, ActsOf(user, es, clones), ks, k);
    FirstReplayIsValue(user, s, es, k);
    ValueIsFold(user, s, es[..k], num, firstNum);
  }
}
