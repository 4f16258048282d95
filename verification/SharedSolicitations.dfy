/**
 * Replaying key solicitations puts the events' own messages into the answer, and into the snapshot that is being built,
 * and a fulfillment then edits them in place. So a query changes the events it reads. Here the messages of a tail are
 * cells that every replay over it shares; the theorems say exactly when later replays are not affected.
 */
module SharedSolicitations {
  import opened Wrappers
  import opened ByteStrings
  import opened Messages
  import opened RecentLists
  import opened SharedMessages
  import opened Chains

  // ---------- replaying a tail over shared messages ----------

  /** What an event of the tail is for one user; a solicitation names the cell of its own message. */
  datatype Act = Solicit(m: nat) | Fulfill(deviceKey: Bytes, ids: seq<Bytes>) | Enter | Exit | Skip

  /** The member as the replay holds it: the listed messages, by cell. */
  datatype Listing = Absent | Listed(list: seq<nat>) {
    function List(): seq<nat> { if Listed? then list else [] }
  }

  datatype State = State(listing: Listing, store: seq<Solicitation>)

  function KeyOf(keys: seq<Bytes>): nat -> Bytes {
    (m: nat) => if m < |keys| then keys[m] else []
  }

  /** The first listed message of the device. */
  function FirstOf(keys: seq<Bytes>, list: seq<nat>, deviceKey: Bytes): (r: Option<nat>)
    ensures r.Some? ==> r.value in list
  {
    if list == [] then None
    else if KeyOf(keys)(list[0]) == deviceKey then Some(list[0])
    else FirstOf(keys, list[1..], deviceKey)
  }

  lemma {:induction false} FirstOfAt(keys: seq<Bytes>, list: seq<nat>, deviceKey: Bytes) returns (p: nat)
    ensures p <= |list| && FirstOf(keys, list, deviceKey) == if p < |list| then Some(list[p]) else None
    ensures forall q :: 0 <= q < p ==> KeyOf(keys)(list[q]) != deviceKey
    ensures p < |list| ==> KeyOf(keys)(list[p]) == deviceKey
  {
    if list == [] || KeyOf(keys)(list[0]) == deviceKey {
      p := 0;
    } else {
      var r := FirstOfAt(keys, list[1..], deviceKey);
      p := r + 1;
      assert forall q :: 0 < q < p ==> list[q] == list[1..][q - 1];
    }
  }

  /** Joining starts with an empty list and leaving drops it; which messages are listed depends on device keys alone. */
  function NextListing(keys: seq<Bytes>, l: Listing, a: Act): Listing {
    match a
    case Enter => Listed([])
    case Exit => Absent
    case Solicit(m) => if l.Listed? then Listed(Push(l.list, KeyOf(keys), m)) else l
    case _ => l
  }

  /** The message a fulfillment reaches. */
  function Reached(keys: seq<Bytes>, l: Listing, a: Act): (r: Option<nat>)
    ensures r.Some? ==> a.Fulfill? && r.value in l.List()
  {
    if a.Fulfill? && l.Listed? then FirstOf(keys, l.list, a.deviceKey) else None
  }

  function Step(keys: seq<Bytes>, s: State, a: Act): State {
    var r := Reached(keys, s.listing, a);
    State(
      NextListing(keys, s.listing, a),
      if r.Some? && r.value < |s.store| then s.store[r.value := Fulfilled(s.store[r.value], a.ids)] else s.store)
  }

  function Play(keys: seq<Bytes>, s: State, acts: seq<Act>): State {
    if acts == [] then s else Step(keys, Play(keys, s, Init(acts)), Last(acts))
  }

  function ListingAfter(keys: seq<Bytes>, l: Listing, acts: seq<Act>): Listing {
    if acts == [] then l else NextListing(keys, ListingAfter(keys, l, Init(acts)), Last(acts))
  }

  /** The fulfillments that reach a message, in order. */
  function Hits(keys: seq<Bytes>, l: Listing, acts: seq<Act>, m: nat): seq<seq<Bytes>> {
    if acts == [] then []
    else
      Hits(keys, l, Init(acts), m) +
      if Reached(keys, ListingAfter(keys, l, Init(acts)), Last(acts)) == Some(m) then [Last(acts).ids] else []
  }

  /** A replay leaves every message fulfilled by exactly the fulfillments that reach it. */
  lemma {:induction false} PlayEdits(keys: seq<Bytes>, s: State, acts: seq<Act>)
    ensures var t := Play(keys, s, acts);
      && t.listing == ListingAfter(keys, s.listing, acts) && |t.store| == |s.store|
      && forall m :: 0 <= m < |s.store| ==> t.store[m] == FulfilledAll(s.store[m], Hits(keys, s.listing, acts, m))
  {
    hide Fulfilled, Push, FirstOf, Reached, NextListing;
    if acts != [] {
      var init, last := Init(acts), Last(acts);
      PlayEdits(keys, s, init);
      var t := Play(keys, s, acts);
      forall m | 0 <= m < |s.store| ensures t.store[m] == FulfilledAll(s.store[m], Hits(keys, s.listing, acts, m)) {
        var hits := Hits(keys, s.listing, init, m);
        if Reached(keys, ListingAfter(keys, s.listing, init), last) == Some(m) {
          assert (hits + [last.ids])[..|hits|] == hits;
        } else {
          assert hits + [] == hits;
        }
      }
    }
  }

  lemma {:induction false} HitsPrefix(keys: seq<Bytes>, l: Listing, acts: seq<Act>, m: nat, k: nat)
    requires k <= |acts|
    ensures Hits(keys, l, acts[..k], m) <= Hits(keys, l, acts, m)
  {
    hide Reached, ListingAfter;
    if k == |acts| {
      assert acts[..k] == acts;
    } else {
      assert Init(acts)[..k] == acts[..k];
      HitsPrefix(keys, l, Init(acts), m, k);
    }
  }

  predicate Within(list: seq<nat>, n: nat) {
    forall p :: 0 <= p < |list| ==> list[p] < n
  }

  ghost predicate InStore(l: Listing, acts: seq<Act>, n: nat) {
    Within(l.List(), n) && forall i :: 0 <= i < |acts| && acts[i].Solicit? ==> acts[i].m < n
  }

  lemma PushedFrom(s: seq<nat>, key: nat -> Bytes, x: nat)
    ensures forall y :: y in Push(s, key, x) ==> y == x || y in s
  {
  }

  lemma PushedWithin(s: seq<nat>, key: nat -> Bytes, x: nat, n: nat)
    requires Within(s, n) && x < n
    ensures Within(Push(s, key, x), n)
  {
    PushedFrom(s, key, x);
    var r := Push(s, key, x);
    forall p | 0 <= p < |r| ensures r[p] < n {
      assert r[p] in r;
    }
  }

  lemma {:induction false} ListedInStore(keys: seq<Bytes>, l: Listing, acts: seq<Act>, n: nat)
    requires InStore(l, acts, n)
    ensures Within(ListingAfter(keys, l, acts).List(), n)
  {
    hide Push;
    if acts != [] {
      var init, last := Init(acts), Last(acts);
      assert forall i :: 0 <= i < |init| ==> init[i] == acts[i];
      ListedInStore(keys, l, init, n);
      if last.Solicit? {
        assert acts[|acts| - 1].m < n;
        PushedWithin(ListingAfter(keys, l, init).List(), KeyOf(keys), last.m, n);
      }
    }
  }

  /** The listed messages' values. */
  function Shown(list: seq<nat>, store: seq<Solicitation>): (r: seq<Solicitation>)
    requires Within(list, |store|)
    ensures |r| == |list| && forall p :: 0 <= p < |list| ==> r[p] == store[list[p]]
  {
    seq(|list|, p requires 0 <= p < |list| => store[list[p]])
  }

  /** The answer: nothing for a user who is not a member. */
  function Answer(s: State): Option<seq<Solicitation>>
    requires Within(s.listing.List(), |s.store|)
  {
    if s.listing.Absent? then None else Some(Shown(s.listing.list, s.store))
  }

  lemma SameAnswers(s: State, t: State)
    requires s.listing == t.listing && Within(s.listing.List(), |s.store|) && Within(s.listing.List(), |t.store|)
    ensures Answer(s) == Answer(t) <==> forall m :: m in s.listing.List() ==> s.store[m] == t.store[m]
  {
    var list := s.listing.List();
    var x, y := Shown(list, s.store), Shown(list, t.store);
    assert Answer(s) == Answer(t) <==> x == y;
    if x == y {
      forall m | m in list ensures s.store[m] == t.store[m] {
        var p :| 0 <= p < |list| && list[p] == m;
        assert x[p] == y[p];
      }
    }
  }

  /** The first `clones` messages are copied from the snapshot for every replay; the others keep their edits. */
  function Reread(store: seq<Solicitation>, edited: seq<Solicitation>, clones: nat): (r: seq<Solicitation>)
    requires |edited| == |store| && clones <= |store|
    ensures |r| == |store|
    ensures forall m :: 0 <= m < |store| ==> r[m] == if m < clones then store[m] else edited[m]
  {
    store[..clones] + edited[clones..]
  }

  // ---------- queries of a tail that grows ----------

  /** Every event solicits with its own message, which is not among those listed at the start. */
  ghost predicate OwnMessages(l: Listing, acts: seq<Act>) {
    && (forall i, j :: 0 <= i < j < |acts| && acts[i].Solicit? && acts[j].Solicit? ==> acts[i].m != acts[j].m)
    && forall i :: 0 <= i < |acts| && acts[i].Solicit? ==> acts[i].m !in l.List()
  }

  lemma {:induction false} NewlyListed(keys: seq<Bytes>, l: Listing, acts: seq<Act>, m: nat)
    requires m in ListingAfter(keys, l, acts).List()
    ensures m in l.List() || Solicit(m) in acts
  {
    if acts != [] {
      var init, last := Init(acts), Last(acts);
      assert acts == init + [last];
      if last.Solicit? && ListingAfter(keys, l, init).Listed? {
        PushedFrom(ListingAfter(keys, l, init).list, KeyOf(keys), last.m);
      }
      if m in ListingAfter(keys, l, init).List() {
        NewlyListed(keys, l, init, m);
      }
    }
  }

  lemma {:induction false} NeverReached(keys: seq<Bytes>, l: Listing, acts: seq<Act>, m: nat)
    requires m !in l.List() && Solicit(m) !in acts
    ensures Hits(keys, l, acts, m) == []
  {
    hide NextListing, Reached;
    if acts != [] {
      var init := Init(acts);
      assert forall a :: a in init ==> a in acts;
      NeverReached(keys, l, init, m);
      if m in ListingAfter(keys, l, init).List() {
        NewlyListed(keys, l, init, m);
      }
    }
  }

  lemma {:induction false} ListingConcat(keys: seq<Bytes>, l: Listing, a: seq<Act>, b: seq<Act>)
    ensures ListingAfter(keys, l, a + b) == ListingAfter(keys, ListingAfter(keys, l, a), b)
  {
    hide NextListing;
    if b == [] {
      assert a + b == a;
    } else {
      assert Init(a + b) == a + Init(b) && Last(a + b) == Last(b);
      ListingConcat(keys, l, a, Init(b));
    }
  }

  /** The store after queries over the first `ks[0]`, then the first `ks[1]`, and so on, of the acts. */
  function Queried(
    keys: seq<Bytes>, l: Listing, store: seq<Solicitation>, clones: nat, acts: seq<Act>, ks: seq<nat>)
    : (r: seq<Solicitation>)
    requires clones <= |store| && forall i :: 0 <= i < |ks| ==> ks[i] <= |acts|
    ensures |r| == |store|
  {
    if ks == [] then store
    else
      var before := Queried(keys, l, store, clones, acts, Init(ks));
      var t := Play(keys, State(l, before), acts[..Last(ks)]);
      PlayEdits(keys, State(l, before), acts[..Last(ks)]);
      Reread(store, t.store, clones)
  }

  ghost predicate Nondecreasing(ks: seq<nat>, n: nat) {
    (forall i, j :: 0 <= i < j < |ks| ==> ks[i] <= ks[j]) && forall i :: 0 <= i < |ks| ==> ks[i] <= n
  }

  /** The tail has grown to `k`, of at most `n`, by the time of the last query or since. */
  ghost predicate Reaches(ks: seq<nat>, k: nat, n: nat) {
    k <= n && (ks != [] ==> Last(ks) <= k)
  }

  /** The fulfillments that reach a message in each of the queries. */
  function Runs(keys: seq<Bytes>, l: Listing, acts: seq<Act>, ks: seq<nat>, m: nat): (r: seq<seq<seq<Bytes>>>)
    requires forall i :: 0 <= i < |ks| ==> ks[i] <= |acts|
    ensures |r| == |ks| && forall i :: 0 <= i < |ks| ==> r[i] == Hits(keys, l, acts[..ks[i]], m)
  {
    seq(|ks|, i requires 0 <= i < |ks| => Hits(keys, l, acts[..ks[i]], m))
  }

  lemma RunsGrow(keys: seq<Bytes>, l: Listing, acts: seq<Act>, ks: seq<nat>, m: nat)
    requires Nondecreasing(ks, |acts|)
    ensures Growing(Runs(keys, l, acts, ks, m))
  {
    hide Hits;
    var runs := Runs(keys, l, acts, ks, m);
    forall i, j | 0 <= i < j < |ks| ensures runs[i] <= runs[j] {
      assert acts[..ks[j]][..ks[i]] == acts[..ks[i]];
      HitsPrefix(keys, l, acts[..ks[j]], m, ks[i]);
    }
  }

  lemma {:induction false} QueriedEdits(
    keys: seq<Bytes>, l: Listing, store: seq<Solicitation>, clones: nat, acts: seq<Act>, ks: seq<nat>, m: nat)
    requires clones <= |store| && Nondecreasing(ks, |acts|) && m < |store|
    ensures Queried(keys, l, store, clones, acts, ks)[m] ==
      if m < clones then store[m] else Edited(store[m], Runs(keys, l, acts, ks, m))
  {
    hide Play, Hits, FulfilledAll;
    if ks != [] {
      var init, k := Init(ks), Last(ks);
      QueriedEdits(keys, l, store, clones, acts, init, m);
      var before := Queried(keys, l, store, clones, acts, init);
      PlayEdits(keys, State(l, before), acts[..k]);
      var runs := Runs(keys, l, acts, ks, m);
      assert runs[..|runs| - 1] == Runs(keys, l, acts, init, m) && runs[|runs| - 1] == Hits(keys, l, acts[..k], m);
    }
  }

  /** Every message that is listed after the query, other than clones, was left in a state a repetition would keep. */
  ghost predicate SafeQuery(
    keys: seq<Bytes>, l: Listing, store: seq<Solicitation>, clones: nat, acts: seq<Act>)
  {
    forall m :: m in ListingAfter(keys, l, acts).List() && clones <= m < |store| ==>
      Safe(store[m], Hits(keys, l, acts, m))
  }

  lemma ReplayInStore(keys: seq<Bytes>, l: Listing, store: seq<Solicitation>, acts: seq<Act>)
    requires InStore(l, acts, |store|)
    ensures var t := Play(keys, State(l, store), acts);
      |t.store| == |store| && t.listing == ListingAfter(keys, l, acts) && Within(t.listing.List(), |t.store|)
  {
    hide Play, ListingAfter, Hits, FulfilledAll;
    PlayEdits(keys, State(l, store), acts);
    ListedInStore(keys, l, acts, |store|);
  }

  /** Replaying the acts gives the same over the edited messages as over the fresh ones. */
  ghost predicate SameReplay(
    keys: seq<Bytes>, l: Listing, store: seq<Solicitation>, edited: seq<Solicitation>, acts: seq<Act>)
    requires |edited| == |store| && InStore(l, acts, |store|)
  {
    ReplayInStore(keys, l, store, acts);
    ReplayInStore(keys, l, edited, acts);
    Answer(Play(keys, State(l, edited), acts)) == Answer(Play(keys, State(l, store), acts))
  }

  lemma SameReplayExactly(
    keys: seq<Bytes>, l: Listing, store: seq<Solicitation>, edited: seq<Solicitation>, acts: seq<Act>)
    requires |edited| == |store| && InStore(l, acts, |store|)
    ensures SameReplay(keys, l, store, edited, acts) <==>
      forall m :: m in ListingAfter(keys, l, acts).List() && m < |store| ==>
        var hits := Hits(keys, l, acts, m); FulfilledAll(edited[m], hits) == FulfilledAll(store[m], hits)
  {
    hide Play, ListingAfter, Hits, FulfilledAll;
    PlayEdits(keys, State(l, edited), acts);
    PlayEdits(keys, State(l, store), acts);
    ListedInStore(keys, l, acts, |store|);
    var s, t := Play(keys, State(l, edited), acts), Play(keys, State(l, store), acts);
    SameAnswers(s, t);
    var list := s.listing.List();
    forall m | m in list ensures m < |store| {
      var p :| 0 <= p < |list| && list[p] == m;
    }
  }

  /** A message that is listed in the end was left safe by an earlier safe query, listed by then or not. */
  lemma ListedIsSafe(
    keys: seq<Bytes>, l: Listing, store: seq<Solicitation>, clones: nat, acts: seq<Act>, k: nat, m: nat)
    requires k <= |acts| && OwnMessages(l, acts) && SafeQuery(keys, l, store, clones, acts[..k])
    requires m in ListingAfter(keys, l, acts).List() && clones <= m < |store|
    ensures Safe(store[m], Hits(keys, l, acts[..k], m))
  {
    hide ListingAfter, Hits, FulfilledAll;
    var front, rest := acts[..k], acts[k..];
    var before := ListingAfter(keys, l, front);
    if m !in before.List() {
      assert acts == front + rest;
      ListingConcat(keys, l, front, rest);
      NewlyListed(keys, before, rest, m);
      var i :| 0 <= i < |rest| && rest[i] == Solicit(m);
      assert acts[k + i] == Solicit(m);
      forall j | 0 <= j < k ensures front[j] != Solicit(m) {
        assert front[j] == acts[j];
      }
      NeverReached(keys, l, front, m);
    }
  }

  ghost predicate AllSafe(
    keys: seq<Bytes>, l: Listing, store: seq<Solicitation>, clones: nat, acts: seq<Act>, ks: seq<nat>)
    requires forall i :: 0 <= i < |ks| ==> ks[i] <= |acts|
  {
    forall i :: 0 <= i < |ks| ==> SafeQuery(keys, l, store, clones, acts[..ks[i]])
  }

  lemma {:induction false} FirstUnsafe(
    keys: seq<Bytes>, l: Listing, store: seq<Solicitation>, clones: nat, acts: seq<Act>, ks: seq<nat>)
    returns (n: nat)
    requires Nondecreasing(ks, |acts|) && !AllSafe(keys, l, store, clones, acts, ks)
    ensures n < |ks| && !SafeQuery(keys, l, store, clones, acts[..ks[n]])
    ensures AllSafe(keys, l, store, clones, acts, ks[..n])
  {
    hide SafeQuery;
    var init := Init(ks);
    if AllSafe(keys, l, store, clones, acts, init) {
      n := |ks| - 1;
      assert forall i :: 0 <= i < |init| ==> init[i] == ks[i];
    } else {
      n := FirstUnsafe(keys, l, store, clones, acts, init);
      assert init[..n] == ks[..n];
    }
  }

  lemma RunsAreSafe(
    keys: seq<Bytes>, l: Listing, store: seq<Solicitation>, clones: nat, acts: seq<Act>, ks: seq<nat>, m: nat)
    requires Nondecreasing(ks, |acts|) && OwnMessages(l, acts) && AllSafe(keys, l, store, clones, acts, ks)
    requires m in ListingAfter(keys, l, acts).List() && clones <= m < |store|
    ensures forall i :: 0 <= i < |ks| ==> Safe(store[m], Runs(keys, l, acts, ks, m)[i])
  {
    hide ListingAfter, Hits, Safe, OwnMessages;
    forall i | 0 <= i < |ks| ensures Safe(store[m], Runs(keys, l, acts, ks, m)[i]) {
      ListedIsSafe(keys, l, store, clones, acts, ks[i], m);
    }
  }

  /** After safe queries a replay of the same or a longer part is undisturbed. */
  lemma SafeQueriesAgree(
    keys: seq<Bytes>, l: Listing, store: seq<Solicitation>, clones: nat, acts: seq<Act>, ks: seq<nat>)
    requires clones <= |store| && Nondecreasing(ks, |acts|)
    requires InStore(l, acts, |store|) && OwnMessages(l, acts) && AllSafe(keys, l, store, clones, acts, ks)
    ensures SameReplay(keys, l, store, Queried(keys, l, store, clones, acts, ks), acts)
  {
    hide ListingAfter, Hits, Safe, OwnMessages, FulfilledAll, AllSafe, Runs, Queried, SameReplay;
    var edited := Queried(keys, l, store, clones, acts, ks);
    forall m | m in ListingAfter(keys, l, acts).List() && m < |store|
      ensures var hits := Hits(keys, l, acts, m); FulfilledAll(edited[m], hits) == FulfilledAll(store[m], hits)
    {
      QueriedEdits(keys, l, store, clones, acts, ks, m);
      if m >= clones {
        RunsAreSafe(keys, l, store, clones, acts, ks, m);
        RunsGrow(keys, l, acts, ks, m);
        var runs := Runs(keys, l, acts, ks, m);
        AllSafeAgrees(store[m], runs);
        if ks != [] {
          HitsPrefix(keys, l, acts, m, Last(ks));
          var hits := Hits(keys, l, acts, m);
          var last := runs[|runs| - 1];
          assert hits == last + hits[|last|..];
          assert FulfilledAll(edited[m], last + hits[|last|..]) == FulfilledAll(store[m], last + hits[|last|..]);
        }
      }
    }
    SameReplayExactly(keys, l, store, edited, acts);
  }

  /** The first query that is not safe shows in the very next replay. */
  lemma UnsafeQueryDisagrees(
    keys: seq<Bytes>, l: Listing, store: seq<Solicitation>, clones: nat, acts: seq<Act>, ks: seq<nat>)
    requires clones <= |store| && ks != [] && Nondecreasing(ks, |acts|) && Last(ks) == |acts|
    requires InStore(l, acts, |store|) && OwnMessages(l, acts) && AllSafe(keys, l, store, clones, acts, Init(ks))
    requires !SafeQuery(keys, l, store, clones, acts)
    ensures !SameReplay(keys, l, store, Queried(keys, l, store, clones, acts, ks), acts)
  {
    hide ListingAfter, Hits, Safe, OwnMessages, FulfilledAll, AllSafe, Runs, Queried, SameReplay;
    var edited := Queried(keys, l, store, clones, acts, ks);
    var m :| m in ListingAfter(keys, l, acts).List() && clones <= m < |store| &&
      !Safe(store[m], Hits(keys, l, acts, m));
    QueriedEdits(keys, l, store, clones, acts, ks, m);
    var runs := Runs(keys, l, acts, ks, m);
    RunsAreSafe(keys, l, store, clones, acts, Init(ks), m);
    RunsGrow(keys, l, acts, ks, m);
    var n := |runs| - 1;
    assert Last(ks) == ks[n] && acts[..ks[n]] == acts;
    forall i | 0 <= i < n ensures Safe(store[m], runs[i]) {
      assert runs[i] == Runs(keys, l, acts, Init(ks), m)[i];
    }
    LastReplayDecides(store[m], runs);
    SameReplayExactly(keys, l, store, edited, acts);
  }

  lemma {:induction false} QueriedPart(
    keys: seq<Bytes>, l: Listing, store: seq<Solicitation>, clones: nat, acts: seq<Act>, ks: seq<nat>, k: nat)
    requires clones <= |store| && k <= |acts| && forall i :: 0 <= i < |ks| ==> ks[i] <= k
    ensures Queried(keys, l, store, clones, acts[..k], ks) == Queried(keys, l, store, clones, acts, ks)
  {
    hide Play;
    if ks != [] {
      QueriedPart(keys, l, store, clones, acts, Init(ks), k);
      assert acts[..k][..Last(ks)] == acts[..Last(ks)];
    }
  }

  /** Queries that stayed within a part of the tail are queries of that part. */
  lemma PartOfTail(
    keys: seq<Bytes>, l: Listing, store: seq<Solicitation>, clones: nat, acts: seq<Act>, ks: seq<nat>, k: nat)
    requires clones <= |store| && Nondecreasing(ks, |acts|) && Reaches(ks, k, |acts|)
    requires InStore(l, acts, |store|) && OwnMessages(l, acts)
    ensures Nondecreasing(ks, k) && InStore(l, acts[..k], |store|) && OwnMessages(l, acts[..k])
    ensures Queried(keys, l, store, clones, acts[..k], ks) == Queried(keys, l, store, clones, acts, ks)
    ensures AllSafe(keys, l, store, clones, acts, ks) <==> AllSafe(keys, l, store, clones, acts[..k], ks)
  {
    hide SafeQuery, Queried;
    assert Nondecreasing(ks, k);
    QueriedPart(keys, l, store, clones, acts, ks, k);
    assert forall i :: 0 <= i < |ks| ==> acts[..k][..ks[i]] == acts[..ks[i]];
  }

  /** After these queries, every replay of what the tail has grown to answers as if there had been none. */
  ghost predicate Undisturbed(
    keys: seq<Bytes>, l: Listing, store: seq<Solicitation>, clones: nat, acts: seq<Act>, ks: seq<nat>)
    requires clones <= |store| && Nondecreasing(ks, |acts|) && InStore(l, acts, |store|)
  {
    forall k: nat :: Reaches(ks, k, |acts|) ==>
      SameReplay(keys, l, store, Queried(keys, l, store, clones, acts, ks), acts[..k])
  }

  lemma SafeIsUndisturbed(
    keys: seq<Bytes>, l: Listing, store: seq<Solicitation>, clones: nat, acts: seq<Act>, ks: seq<nat>)
    requires clones <= |store| && Nondecreasing(ks, |acts|) && InStore(l, acts, |store|) && OwnMessages(l, acts)
    requires AllSafe(keys, l, store, clones, acts, ks)
    ensures Undisturbed(keys, l, store, clones, acts, ks)
  {
    hide SameReplay, Queried, OwnMessages, AllSafe;
    forall k: nat | Reaches(ks, k, |acts|)
      ensures SameReplay(keys, l, store, Queried(keys, l, store, clones, acts, ks), acts[..k])
    {
      PartOfTail(keys, l, store, clones, acts, ks, k);
      SafeQueriesAgree(keys, l, store, clones, acts[..k], ks);
    }
  }

  lemma UnsafeIsDisturbed(
    keys: seq<Bytes>, l: Listing, store: seq<Solicitation>, clones: nat, acts: seq<Act>, ks: seq<nat>)
    requires clones <= |store| && Nondecreasing(ks, |acts|) && InStore(l, acts, |store|) && OwnMessages(l, acts)
    requires ks != [] && AllSafe(keys, l, store, clones, acts, Init(ks))
    requires !SafeQuery(keys, l, store, clones, acts[..Last(ks)])
    ensures !Undisturbed(keys, l, store, clones, acts, ks)
  {
    hide SameReplay, Queried, OwnMessages, AllSafe, SafeQuery;
    var k := Last(ks);
    PartOfTail(keys, l, store, clones, acts, ks, k);
    PartOfTail(keys, l, store, clones, acts, Init(ks), k);
    UnsafeQueryDisagrees(keys, l, store, clones, acts[..k], ks);
  }

  /**
   * Queries over ever longer parts of a tail: after each of them, every replay of what the tail has grown to since
   * answers as if there had been none, if and only if each of the queries was safe.
   */
  lemma QueriesOfGrowingTail(
    keys: seq<Bytes>, l: Listing, store: seq<Solicitation>, clones: nat, acts: seq<Act>, ks: seq<nat>)
    requires clones <= |store| && Nondecreasing(ks, |acts|) && InStore(l, acts, |store|) && OwnMessages(l, acts)
    ensures (forall i :: 0 <= i <= |ks| ==> Undisturbed(keys, l, store, clones, acts, ks[..i])) <==>
      AllSafe(keys, l, store, clones, acts, ks)
  {
    hide Undisturbed, InStore, OwnMessages, SafeQuery;
    if AllSafe(keys, l, store, clones, acts, ks) {
      forall i | 0 <= i <= |ks| ensures Undisturbed(keys, l, store, clones, acts, ks[..i]) {
        SafeIsUndisturbed(keys, l, store, clones, acts, ks[..i]);
      }
    } else {
      var n := FirstUnsafe(keys, l, store, clones, acts, ks);
      assert Init(ks[..n + 1]) == ks[..n] && Last(ks[..n + 1]) == ks[n];
      UnsafeIsDisturbed(keys, l, store, clones, acts, ks[..n + 1]);
    }
  }

  lemma {:induction false} HitsFrom(keys: seq<Bytes>, l: Listing, acts: seq<Act>, m: nat)
    requires forall i :: 0 <= i < |acts| && acts[i].Fulfill? ==> Ascending(acts[i].ids)
    ensures forall f :: f in Hits(keys, l, acts, m) ==> Ascending(f)
  {
    hide ListingAfter, Ascending;
    if acts != [] {
      assert forall i :: 0 <= i < |acts| - 1 ==> Init(acts)[i] == acts[i];
      HitsFrom(keys, l, Init(acts), m);
    }
  }

  /** Had the ids of the tail been sorted and named once, every query would be safe. */
  lemma SortedQueriesAreSafe(
    keys: seq<Bytes>, l: Listing, store: seq<Solicitation>, clones: nat, acts: seq<Act>, ks: seq<nat>)
    requires forall i :: 0 <= i < |ks| ==> ks[i] <= |acts|
    requires forall m :: clones <= m < |store| ==> Increasing(store[m].sessionIds)
    requires forall i :: 0 <= i < |acts| && acts[i].Fulfill? ==> Ascending(acts[i].ids)
    ensures AllSafe(keys, l, store, clones, acts, ks)
  {
    hide ListingAfter, Hits, Ascending, Increasing, Safe;
    forall i, m | 0 <= i < |ks| && clones <= m < |store| ensures Safe(store[m], Hits(keys, l, acts[..ks[i]], m)) {
      assert forall j :: 0 <= j < ks[i] ==> acts[..ks[i]][j] == acts[j];
      HitsFrom(keys, l, acts[..ks[i]], m);
      SortedIsSafe(store[m], Hits(keys, l, acts[..ks[i]], m));
    }
  }

  // ---------- headers for an older proposal ----------

  /** Every listed message of the tail itself is unaffected by the fulfillments of the whole tail. */
  ghost predicate AllUnaffected(
    keys: seq<Bytes>, l: Listing, store: seq<Solicitation>, clones: nat, acts: seq<Act>, k: nat)
    requires k <= |acts|
  {
    forall m :: m in ListingAfter(keys, l, acts[..k]).List() && clones <= m < |store| ==>
      Unaffected(store[m], Hits(keys, l, acts[..k], m), Hits(keys, l, acts, m))
  }

  ghost predicate LeftSafe(
    keys: seq<Bytes>, l: Listing, store: seq<Solicitation>, clones: nat, acts: seq<Act>, ks: seq<nat>, k: nat)
    requires k <= |acts| && forall i :: 0 <= i < |ks| ==> ks[i] <= |acts|
  {
    forall i, m :: 0 <= i < |ks| && m in ListingAfter(keys, l, acts[..k]).List() && clones <= m < |store| ==>
      Safe(store[m], Hits(keys, l, acts[..ks[i]], m))
  }

  /** Replaying one message for the first `k` acts after the queries. */
  lemma OlderMessage(
    keys: seq<Bytes>, l: Listing, store: seq<Solicitation>, clones: nat, acts: seq<Act>, ks: seq<nat>, k: nat, m: nat)
    requires k <= |acts| && clones <= m < |store| && m in ListingAfter(keys, l, acts[..k]).List()
    requires ks != [] && Last(ks) == |acts| && Nondecreasing(ks, |acts|)
    requires LeftSafe(keys, l, store, clones, acts, Init(ks), k)
    ensures
      var hits := Hits(keys, l, acts[..k], m);
      FulfilledAll(Queried(keys, l, store, clones, acts, ks)[m], hits) == FulfilledAll(store[m], hits) <==>
      Unaffected(store[m], hits, Hits(keys, l, acts, m))
  {
    hide ListingAfter, Hits, FulfilledAll, Safe, Unaffected, Queried;
    var runs := Runs(keys, l, acts, ks, m);
    var n := |runs| - 1;
    assert Last(ks) == ks[n] && acts[..ks[n]] == acts;
    forall i | 0 <= i < n ensures Safe(store[m], runs[i]) {
      assert Init(ks)[i] == ks[i];
    }
    QueriedEdits(keys, l, store, clones, acts, ks, m);
    RunsGrow(keys, l, acts, ks, m);
    HitsPrefix(keys, l, acts, m, k);
    OlderReplay(store[m], runs, Hits(keys, l, acts[..k], m));
  }

  /**
   * A replay of the first `k` acts after queries, the last of them over all of the acts: building a header for a
   * proposal made before the last events came. It gives what it would have given without the queries exactly when
   * every listed message of the tail is unaffected.
   */
  lemma ReplayAfterQueries(
    keys: seq<Bytes>, l: Listing, store: seq<Solicitation>, clones: nat, acts: seq<Act>, ks: seq<nat>, k: nat)
    requires k <= |acts| && clones <= |store| && InStore(l, acts, |store|)
    requires ks != [] && Last(ks) == |acts| && Nondecreasing(ks, |acts|)
    requires LeftSafe(keys, l, store, clones, acts, Init(ks), k)
    ensures SameReplay(keys, l, store, Queried(keys, l, store, clones, acts, ks), acts[..k]) <==>
      AllUnaffected(keys, l, store, clones, acts, k)
  {
    hide ListingAfter, Hits, FulfilledAll, Unaffected, Queried, SameReplay, LeftSafe;
    var edited, part := Queried(keys, l, store, clones, acts, ks), acts[..k];
    SameReplayExactly(keys, l, store, edited, part);
    forall m: nat | m in ListingAfter(keys, l, part).List() && m < |store|
      ensures
        var hits := Hits(keys, l, part, m);
        FulfilledAll(edited[m], hits) == FulfilledAll(store[m], hits) <==>
        m < clones || Unaffected(store[m], hits, Hits(keys, l, acts, m))
    {
      if m < clones {
        QueriedEdits(keys, l, store, clones, acts, ks, m);
      } else {
        OlderMessage(keys, l, store, clones, acts, ks, k, m);
      }
    }
  }

  /** One message of a header after the queries that came later. */
  lemma LaterMessage(
    keys: seq<Bytes>, l: Listing, store: seq<Solicitation>, clones: nat, acts: seq<Act>, ks: seq<nat>, k: nat, m: nat,
    was: Solicitation)
    requires k <= |acts| && clones <= m < |store|
    requires ks != [] && Last(ks) == |acts| && Nondecreasing(ks, |acts|)
    requires store[m] == FulfilledAll(was, Hits(keys, l, acts[..k], m))
    ensures Queried(keys, l, store, clones, acts, ks)[m] == store[m] <==>
      Unaffected(was, Hits(keys, l, acts[..k], m), Hits(keys, l, acts, m))
  {
    hide ListingAfter, Hits, FulfilledAll, Unaffected, Queried;
    var runs := Runs(keys, l, acts, ks, m);
    assert Last(ks) == ks[|runs| - 1] && acts[..Last(ks)] == acts;
    QueriedEdits(keys, l, store, clones, acts, ks, m);
    RunsGrow(keys, l, acts, ks, m);
    LaterReplays(was, Hits(keys, l, acts[..k], m), runs);
  }

  /** What a built header shows once the events' own messages are as `later` says; its copies are its own. */
  function ShownLater(built: State, later: seq<Solicitation>, clones: nat): Option<seq<Solicitation>>
    requires |later| == |built.store| && clones <= |later| && Within(built.listing.List(), |later|)
  {
    Answer(State(built.listing, Reread(built.store, later, clones)))
  }

  /**
   * The other order: the header for the first `k` acts is built first and lists the events' own messages; queries
   * before the block is committed then edit them under it. What the header's snapshot shows in memory stays as it was
   * built exactly under the same condition.
   */
  lemma HeaderEditedLater(
    keys: seq<Bytes>, l: Listing, store: seq<Solicitation>, clones: nat, acts: seq<Act>, ks: seq<nat>, k: nat)
    requires k <= |acts| && clones <= |store| && InStore(l, acts, |store|)
    requires ks != [] && Last(ks) == |acts| && Nondecreasing(ks, |acts|)
    ensures
      var built := Play(keys, State(l, store), acts[..k]);
      && |built.store| == |store| && Within(built.listing.List(), |store|)
      && var later := Queried(keys, l, Reread(store, built.store, clones), clones, acts, ks);
         ShownLater(built, later, clones) == Answer(built) <==> AllUnaffected(keys, l, store, clones, acts, k)
  {
    hide Play, ListingAfter, Hits, FulfilledAll, Unaffected, Queried;
    var part := acts[..k];
    var built := Play(keys, State(l, store), part);
    ReplayInStore(keys, l, store, part);
    PlayEdits(keys, State(l, store), part);
    var start := Reread(store, built.store, clones);
    var later := Queried(keys, l, start, clones, acts, ks);
    var shown := State(built.listing, Reread(built.store, later, clones));
    var list := built.listing.List();
    forall m: nat | m in list
      ensures m < |store| && (shown.store[m] == built.store[m] <==>
        m < clones || Unaffected(store[m], Hits(keys, l, part, m), Hits(keys, l, acts, m)))
    {
      var p :| 0 <= p < |list| && list[p] == m;
      if m >= clones {
        LaterMessage(keys, l, start, clones, acts, ks, k, m, store[m]);
      }
    }
    SameAnswers(shown, built);
  }

  // ---------- the messages on the heap ----------

  /** A solicitation as it hangs off its event. */
  class Message {
    const deviceKey: Bytes
    const fallbackKey: Bytes
    var isNewDevice: bool
    var sessionIds: seq<Bytes>

    ghost function Value(): Solicitation
      reads this
    {
      Solicitation(deviceKey, fallbackKey, isNewDevice, sessionIds)
    }

    constructor (s: Solicitation)
      ensures Value() == s
    {
      deviceKey, fallbackKey, isNewDevice, sessionIds := s.deviceKey, s.fallbackKey, s.isNewDevice, s.sessionIds;
    }
  }

  ghost function Values(ms: seq<Message>): seq<Solicitation>
    reads ms
  {
    seq(|ms|, i requires 0 <= i < |ms| reads ms => ms[i].Value())
  }

  function DeviceKeys(ms: seq<Message>): seq<Bytes> {
    seq(|ms|, i requires 0 <= i < |ms| => ms[i].deviceKey)
  }

  /** A fulfillment edits the first listed message of the device, wherever else it is referenced. */
  method ApplyFulfillment(ms: seq<Message>, list: seq<nat>, deviceKey: Bytes, ids: seq<Bytes>)
    requires forall i, j :: 0 <= i < j < |ms| ==> ms[i] != ms[j]
    requires Within(list, |ms|)
    modifies ms
    ensures var l := Listed(list);
      State(l, Values(ms)) == Step(DeviceKeys(ms), State(l, old(Values(ms))), Fulfill(deviceKey, ids))
  {
    hide RemoveCommon, FirstOf;
    ghost var keys, before := DeviceKeys(ms), Values(ms);
    ghost var first := FirstOfAt(keys, list, deviceKey);
    var p := 0;
    while p < |list| && ms[list[p]].deviceKey != deviceKey
      invariant 0 <= p <= |list| && forall q :: 0 <= q < p ==> KeyOf(keys)(list[q]) != deviceKey
    {
      p := p + 1;
    }
    assert p < |list| ==> KeyOf(keys)(list[p]) == deviceKey;
    assert p == first;
    if p < |list| {
      var m := ms[list[p]];
      var kept := RemoveCommonScan(m.sessionIds, ids);
      m.sessionIds, m.isNewDevice := kept, false;
      assert Values(ms) == before[list[p] := Fulfilled(before[list[p]], ids)];
    }
  }

  lemma StepLists(keys: seq<Bytes>, s: State, a: Act)
    requires !a.Fulfill? || s.listing.Absent?
    ensures Step(keys, s, a) == State(NextListing(keys, s.listing, a), s.store)
  {
  }

  /** Replaying a tail over the events' own messages, as every query and every header does. */
  method ReplayTail(ms: seq<Message>, start: Listing, acts: seq<Act>) returns (l: Listing)
    requires forall i, j :: 0 <= i < j < |ms| ==> ms[i] != ms[j]
    requires InStore(start, acts, |ms|)
    modifies ms
    ensures State(l, Values(ms)) == Play(DeviceKeys(ms), State(start, old(Values(ms))), acts)
  {
    hide Push, Step;
    l := start;
    ghost var keys, before := DeviceKeys(ms), State(start, Values(ms));
    var i := 0;
    assert acts[..0] == [];
    while i < |acts|
      invariant 0 <= i <= |acts| && Within(l.List(), |ms|)
      invariant State(l, Values(ms)) == Play(keys, before, acts[..i])
    {
      assert Init(acts[..i + 1]) == acts[..i] && Last(acts[..i + 1]) == acts[i];
      if !acts[i].Fulfill? || l.Absent? {
        StepLists(keys, State(l, Values(ms)), acts[i]);
      }
      match acts[i] {
        case Enter => l := Listed([]);
        case Exit => l := Absent;
        case Skip =>
        case Solicit(m) =>
          if l.Listed? {
            PushedWithin(l.list, KeyOf(keys), m, |ms|);
            var a := new nat[|l.list|](p requires 0 <= p < |l.list| => l.list[p]);
            assert a[..] == l.list;
            var pushed := PushSolicitation(a, KeyOf(DeviceKeys(ms)), m);
            l := Listed(pushed);
          }
        case Fulfill(deviceKey, ids) =>
          if l.Listed? {
            ApplyFulfillment(ms, l.list, deviceKey, ids);
          }
      }
      i := i + 1;
    }
    assert acts[..|acts|] == acts;
  }
}
