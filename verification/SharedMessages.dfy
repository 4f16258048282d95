/**
 * One key solicitation as a message that every replay over the same event edits in place: what a replay gives after
 * earlier ones, for all lists of session ids, sorted or not.
 */
module SharedMessages {
  import opened ByteStrings
  import opened Messages
  import opened RecentLists

  function Fulfilled(s: Solicitation, ids: seq<Bytes>): Solicitation {
    s.(sessionIds := RemoveCommon(s.sessionIds, ids), isNewDevice := false)
  }

  function FulfilledAll(s: Solicitation, fs: seq<seq<Bytes>>): Solicitation {
    if fs == [] then s else Fulfilled(FulfilledAll(s, fs[..|fs| - 1]), fs[|fs| - 1])
  }

  lemma {:induction false} FulfilledConcat(s: Solicitation, a: seq<seq<Bytes>>, b: seq<seq<Bytes>>)
    ensures FulfilledAll(s, a + b) == FulfilledAll(FulfilledAll(s, a), b)
  {
    if b == [] {
      assert a + b == a;
    } else {
      assert (a + b)[..|a + b| - 1] == a + b[..|b| - 1];
      FulfilledConcat(s, a, b[..|b| - 1]);
    }
  }

  /** The node's own guard finds nothing left to fulfill. */
  predicate NothingCommon(s: Solicitation, fs: seq<seq<Bytes>>) {
    forall f :: f in fs ==> !HasCommon(s.sessionIds, f)
  }

  lemma NothingCommonConcat(s: Solicitation, a: seq<seq<Bytes>>, b: seq<seq<Bytes>>)
    ensures NothingCommon(s, a + b) <==> NothingCommon(s, a) && NothingCommon(s, b)
  {
    assert forall f :: f in a + b <==> f in a || f in b;
  }

  lemma SameIds(s: Solicitation, t: Solicitation, fs: seq<seq<Bytes>>)
    requires s.sessionIds == t.sessionIds
    ensures NothingCommon(s, fs) <==> NothingCommon(t, fs)
  {
  }

  /** Fulfillments only ever remove ids, and remove none exactly when the guard finds nothing for each of them. */
  lemma {:induction false} FulfilledFixes(s: Solicitation, fs: seq<seq<Bytes>>)
    ensures var r := FulfilledAll(s, fs);
      && |r.sessionIds| <= |s.sessionIds|
      && (|r.sessionIds| == |s.sessionIds| ==> r.sessionIds == s.sessionIds)
      && (r.sessionIds == s.sessionIds <==> NothingCommon(s, fs))
      && r.isNewDevice == (s.isNewDevice && fs == [])
      && r.deviceKey == s.deviceKey && r.fallbackKey == s.fallbackKey
  {
    if fs != [] {
      var init, last := fs[..|fs| - 1], fs[|fs| - 1];
      FulfilledFixes(s, init);
      RemoveCommonFixes(FulfilledAll(s, init).sessionIds, last);
      assert fs == init + [last];
      assert NothingCommon(s, fs) <==> NothingCommon(s, init) && !HasCommon(s.sessionIds, last);
    }
  }

  // ---------- a replay that ends earlier ----------

  /** What the first `hs` of the fulfillments `fs` leave is not touched by any of them, and no flag is lost. */
  predicate Unaffected(s: Solicitation, hs: seq<seq<Bytes>>, fs: seq<seq<Bytes>>) {
    NothingCommon(FulfilledAll(s, hs), fs) && (fs == [] || hs != [] || !s.isNewDevice)
  }

  /** Replaying only `hs` on a message that was edited by all of `fs`: a header for an older proposal, after a query. */
  lemma FulfilledAgain(s: Solicitation, hs: seq<seq<Bytes>>, fs: seq<seq<Bytes>>)
    requires hs <= fs
    ensures FulfilledAll(FulfilledAll(s, fs), hs) == FulfilledAll(s, hs) <==> Unaffected(s, hs, fs)
  {
    hide FulfilledAll;
    var rest := fs[|hs|..];
    assert fs == hs + rest;
    var h := FulfilledAll(s, hs);
    var f := FulfilledAll(h, rest);
    FulfilledConcat(s, hs, rest);
    FulfilledFixes(s, hs);
    FulfilledFixes(s, fs);
    FulfilledFixes(h, rest);
    FulfilledFixes(f, hs);
    FulfilledFixes(h, hs);
    NothingCommonConcat(h, hs, rest);
    if f.sessionIds == h.sessionIds {
      SameIds(f, h, hs);
    }
  }

  // ---------- replays of a tail that grows ----------

  /** Nothing a replay left would be removed by the same fulfillments again. */
  predicate Safe(s: Solicitation, hs: seq<seq<Bytes>>) {
    NothingCommon(FulfilledAll(s, hs), hs)
  }

  lemma SafeIsUnaffected(s: Solicitation, hs: seq<seq<Bytes>>)
    ensures Safe(s, hs) <==> Unaffected(s, hs, hs)
  {
  }

  /** After one replay of `hs`, every replay of whatever it has grown to is unchanged if and only if `hs` was safe. */
  lemma GrowingReplay(s: Solicitation, hs: seq<seq<Bytes>>)
    ensures Safe(s, hs) <==>
      forall rest :: FulfilledAll(FulfilledAll(s, hs), hs + rest) == FulfilledAll(s, hs + rest)
  {
    hide FulfilledAll, Unaffected, Safe;
    SafeIsUnaffected(s, hs);
    FulfilledAgain(s, hs, hs);
    if Safe(s, hs) {
      forall rest ensures FulfilledAll(FulfilledAll(s, hs), hs + rest) == FulfilledAll(s, hs + rest) {
        FulfilledConcat(s, hs, rest);
        FulfilledConcat(FulfilledAll(s, hs), hs, rest);
      }
    } else {
      assert hs + [] == hs;
    }
  }

  /** The message after several replays, one after the other. */
  function Edited(s: Solicitation, runs: seq<seq<seq<Bytes>>>): Solicitation {
    if runs == [] then s else FulfilledAll(Edited(s, runs[..|runs| - 1]), runs[|runs| - 1])
  }

  /** Each replay covers at least what the one before it did. */
  ghost predicate Growing(runs: seq<seq<seq<Bytes>>>) {
    forall i, j :: 0 <= i < j < |runs| ==> runs[i] <= runs[j]
  }

  /** After these replays every further one, of anything the last of them can grow to, is unchanged. */
  ghost predicate AgreesFrom(s: Solicitation, runs: seq<seq<seq<Bytes>>>) {
    runs != [] ==>
      var last := runs[|runs| - 1];
      forall rest :: FulfilledAll(Edited(s, runs), last + rest) == FulfilledAll(s, last + rest)
  }

  lemma {:induction false} AllSafeAgrees(s: Solicitation, runs: seq<seq<seq<Bytes>>>)
    requires Growing(runs) && forall i :: 0 <= i < |runs| ==> Safe(s, runs[i])
    ensures AgreesFrom(s, runs)
    ensures runs != [] ==> Edited(s, runs) == FulfilledAll(s, runs[|runs| - 1])
  {
    hide FulfilledAll, Safe;
    if runs != [] {
      var n := |runs| - 1;
      var init, last := runs[..n], runs[n];
      AllSafeAgrees(s, init);
      if n > 0 {
        var prev := runs[n - 1];
        var rest := last[|prev|..];
        assert init[n - 1] == prev && last == prev + rest;
        assert FulfilledAll(Edited(s, init), prev + rest) == FulfilledAll(s, prev + rest);
      }
      assert Edited(s, runs) == FulfilledAll(s, last);
      GrowingReplay(s, last);
    }
  }

  lemma NoReplayAgrees(s: Solicitation, runs: seq<seq<seq<Bytes>>>)
    requires runs == []
    ensures forall i :: 0 <= i <= |runs| ==> AgreesFrom(s, runs[..i])
  {
  }

  /** Safe replays before the last one do not show after it. */
  lemma OnlyLastShows(s: Solicitation, runs: seq<seq<seq<Bytes>>>)
    requires runs != [] && Growing(runs) && forall i :: 0 <= i < |runs| - 1 ==> Safe(s, runs[i])
    ensures Edited(s, runs) == FulfilledAll(s, runs[|runs| - 1])
  {
    hide FulfilledAll, Safe;
    var n := |runs| - 1;
    var init, last := runs[..n], runs[n];
    AllSafeAgrees(s, init);
    if n > 0 {
      assert init[n - 1] == runs[n - 1] <= last;
      assert last == runs[n - 1] + last[|runs[n - 1]|..];
    }
  }

  lemma LastReplayDecides(s: Solicitation, runs: seq<seq<seq<Bytes>>>)
    requires runs != [] && Growing(runs) && forall i :: 0 <= i < |runs| - 1 ==> Safe(s, runs[i])
    ensures AgreesFrom(s, runs) <==> Safe(s, runs[|runs| - 1])
    ensures var last := runs[|runs| - 1];
      FulfilledAll(Edited(s, runs), last) == FulfilledAll(s, last) <==> Safe(s, last)
  {
    hide FulfilledAll, Safe, Unaffected;
    var last := runs[|runs| - 1];
    OnlyLastShows(s, runs);
    SafeIsUnaffected(s, last);
    FulfilledAgain(s, last, last);
    GrowingReplay(s, last);
  }

  /**
   * Any number of replays of a growing tail: after each of them every further replay is unchanged, whatever the tail
   * grows to, if and only if each of them was safe.
   */
  lemma {:induction false} GrowingReplays(s: Solicitation, runs: seq<seq<seq<Bytes>>>)
    requires Growing(runs)
    ensures (forall i :: 0 <= i <= |runs| ==> AgreesFrom(s, runs[..i])) <==>
      forall i :: 0 <= i < |runs| ==> Safe(s, runs[i])
  {
    hide FulfilledAll, Safe, AgreesFrom;
    if runs != [] {
      var n := |runs| - 1;
      var init, last := runs[..n], runs[n];
      GrowingReplays(s, init);
      assert forall i :: 0 <= i <= n ==> init[..i] == runs[..i];
      assert forall i :: 0 <= i < n ==> init[i] == runs[i];
      assert runs[..|runs|] == runs && init[..n] == init;
      if forall i :: 0 <= i < n ==> Safe(s, runs[i]) {
        LastReplayDecides(s, runs);
      }
    } else {
      NoReplayAgrees(s, runs);
    }
  }

  /** A header for an older proposal, after any number of queries. */
  lemma OlderReplay(s: Solicitation, runs: seq<seq<seq<Bytes>>>, hs: seq<seq<Bytes>>)
    requires runs != [] && Growing(runs) && hs <= runs[|runs| - 1]
    requires forall i :: 0 <= i < |runs| - 1 ==> Safe(s, runs[i])
    ensures FulfilledAll(Edited(s, runs), hs) == FulfilledAll(s, hs) <==> Unaffected(s, hs, runs[|runs| - 1])
  {
    hide FulfilledAll, Safe, Unaffected;
    OnlyLastShows(s, runs);
    FulfilledAgain(s, hs, runs[|runs| - 1]);
  }

  lemma {:induction false} EditedFixes(s: Solicitation, runs: seq<seq<seq<Bytes>>>)
    ensures var r := Edited(s, runs);
      && |r.sessionIds| <= |s.sessionIds|
      && (|r.sessionIds| == |s.sessionIds| ==> r.sessionIds == s.sessionIds)
      && (r.sessionIds == s.sessionIds <==> forall i :: 0 <= i < |runs| ==> NothingCommon(s, runs[i]))
      && (r.isNewDevice <==> s.isNewDevice && forall i :: 0 <= i < |runs| ==> runs[i] == [])
      && r.deviceKey == s.deviceKey && r.fallbackKey == s.fallbackKey
  {
    hide FulfilledAll, NothingCommon;
    if runs != [] {
      var n := |runs| - 1;
      var init := runs[..n];
      EditedFixes(s, init);
      FulfilledFixes(Edited(s, init), runs[n]);
      assert forall i :: 0 <= i < n ==> init[i] == runs[i];
      if Edited(s, init).sessionIds == s.sessionIds {
        SameIds(Edited(s, init), s, runs[n]);
      }
    }
  }

  lemma LastCoversAll(s: Solicitation, runs: seq<seq<seq<Bytes>>>)
    requires runs != [] && Growing(runs)
    ensures NothingCommon(s, runs[|runs| - 1]) <==> forall i :: 0 <= i < |runs| ==> NothingCommon(s, runs[i])
    ensures runs[|runs| - 1] == [] <==> forall i :: 0 <= i < |runs| ==> runs[i] == []
  {
    hide NothingCommon;
    var last := runs[|runs| - 1];
    forall i | 0 <= i < |runs| ensures runs[i] <= last && (NothingCommon(s, last) ==> NothingCommon(s, runs[i])) {
      assert last == runs[i] + last[|runs[i]|..];
      NothingCommonConcat(s, runs[i], last[|runs[i]|..]);
    }
  }

  /** Any number of queries after a header was built. */
  lemma LaterReplays(s: Solicitation, hs: seq<seq<Bytes>>, runs: seq<seq<seq<Bytes>>>)
    requires runs != [] && Growing(runs)
    ensures Edited(FulfilledAll(s, hs), runs) == FulfilledAll(s, hs) <==> Unaffected(s, hs, runs[|runs| - 1])
  {
    hide FulfilledAll, NothingCommon, Growing;
    FulfilledFixes(s, hs);
    EditedFixes(FulfilledAll(s, hs), runs);
    LastCoversAll(FulfilledAll(s, hs), runs);
  }

  // ---------- sorted and unsorted ids ----------

  ghost predicate Increasing(s: seq<Bytes>) {
    forall i, j :: 0 <= i < j < |s| ==> Less(s[i], s[j])
  }

  lemma IncreasingIsAscending(x: seq<Bytes>)
    requires Increasing(x)
    ensures Ascending(x) && (x != [] ==> x[0] !in x[1..])
  {
    hide Less;
    forall i, j | 0 <= i < j < |x| ensures !Less(x[j], x[i]) && x[i] != x[j] {
      LessAsymmetric(x[i], x[j]);
    }
  }

  lemma FirstStaysLeast(x: seq<Bytes>, r: seq<Bytes>)
    requires x != [] && Increasing(x) && Increasing(r) && forall z :: z in r ==> z in x[1..]
    ensures Increasing([x[0]] + r)
  {
    hide Less;
    forall j | 0 <= j < |r| ensures Less(x[0], r[j]) {
      assert r[j] in x[1..];
    }
  }

  lemma {:induction false} RemoveCommonIncreasing(x: seq<Bytes>, y: seq<Bytes>)
    requires Increasing(x) && Ascending(y)
    ensures Increasing(RemoveCommon(x, y))
    ensures forall z :: z in RemoveCommon(x, y) <==> z in x && z !in y
    decreases |x| + |y|
  {
    hide Less;
    IncreasingIsAscending(x);
    if x != [] && y != [] {
      var xs, ys := x[1..], y[1..];
      assert x == [x[0]] + xs && y == [y[0]] + ys;
      if Less(x[0], y[0]) {
        RemoveCommonIncreasing(xs, y);
        AbsentBelow(x[0], y);
        FirstStaysLeast(x, RemoveCommon(xs, y));
      } else if Less(y[0], x[0]) {
        RemoveCommonIncreasing(x, ys);
        AbsentBelow(y[0], x);
      } else {
        LessTotal(x[0], y[0]);
        RemoveCommonIncreasing(xs, ys);
      }
    }
  }

  lemma {:induction false} SortedLeavesNothing(s: Solicitation, fs: seq<seq<Bytes>>)
    requires Increasing(s.sessionIds) && forall f :: f in fs ==> Ascending(f)
    ensures var r := FulfilledAll(s, fs).sessionIds;
      Increasing(r) && forall f, z :: f in fs && z in f ==> z !in r
  {
    if fs != [] {
      var init, last := fs[..|fs| - 1], fs[|fs| - 1];
      assert fs == init + [last];
      SortedLeavesNothing(s, init);
      RemoveCommonIncreasing(FulfilledAll(s, init).sessionIds, last);
    }
  }

  /** Had the ids been sorted and named once, as the conversion is meant to do, every replay would be safe. */
  lemma SortedIsSafe(s: Solicitation, fs: seq<seq<Bytes>>)
    requires Increasing(s.sessionIds) && forall f :: f in fs ==> Ascending(f)
    ensures Safe(s, fs)
  {
    SortedLeavesNothing(s, fs);
    var r := FulfilledAll(s, fs).sessionIds;
    IncreasingIsAscending(r);
    forall f | f in fs ensures !HasCommon(r, f) {
      HasCommonIsIntersection(r, f);
    }
  }

  /** Even so a header built before the last fulfillment came is edited by the query after it. */
  lemma SortedHeaderIsAffected(deviceKey: Bytes)
    ensures
      var a: Bytes := [1];
      var s := Solicitation(deviceKey, [], false, [a]);
      && Increasing(s.sessionIds) && FulfilledAll(s, []).sessionIds == [a]
      && FulfilledAll(FulfilledAll(s, []), [[a]]).sessionIds == []
  {
    var a: Bytes := [1];
    var s := Solicitation(deviceKey, [], false, [a]);
    assert !Less(a, a) && [[a]][..0] == [] && [a][1..] == [];
    assert RemoveCommon([a], [a]) == [];
  }

  /** As they come: [a, c, b] with [b, c] fulfilled is answered [a, b] first and [a] the second time. */
  lemma UnsortedIsAffected(deviceKey: Bytes)
    ensures
      var a: Bytes, b: Bytes, c: Bytes := [1], [2], [3];
      var s := Solicitation(deviceKey, [], false, [a, c, b]);
      && FulfilledAll(s, [[b, c]]).sessionIds == [a, b]
      && FulfilledAll(FulfilledAll(s, [[b, c]]), [[b, c]]).sessionIds == [a]
      && !Safe(s, [[b, c]])
  {
    var a: Bytes, b: Bytes, c: Bytes := [1], [2], [3];
    var s := Solicitation(deviceKey, [], false, [a, c, b]);
    assert Less(a, b) && Less(b, c) && !Less(b, a) && !Less(c, b);
    assert [[b, c]][..0] == [];
    assert RemoveCommon([b], []) == [b] && [b][1..] == [] && [c, b][1..] == [b] && [a, c, b][1..] == [c, b];
    assert [b, c][1..] == [c] && [c][1..] == [];
    assert RemoveCommon([c, b], [c]) == [b];
    assert RemoveCommon([c, b], [b, c]) == [b];
    assert RemoveCommon([a, c, b], [b, c]) == [a, b];
    assert [a, b][1..] == [b];
    assert RemoveCommon([], [c]) == [] && RemoveCommon([b], [b, c]) == [];
    assert RemoveCommon([a, b], [b, c]) == [a];
    FulfilledAgain(s, [[b, c]], [[b, c]]);
  }

  lemma FulfilledTwice(s: Solicitation, f: seq<Bytes>, g: seq<Bytes>)
    ensures FulfilledAll(s, [f]) == Fulfilled(s, f) && FulfilledAll(s, [f, g]) == Fulfilled(Fulfilled(s, f), g)
  {
    assert [f, g][..1] == [f];
    assert [f][..0] == [];
  }

  /** The removals of the example below, one by one. */
  lemma GrowingSteps(a: Bytes, b: Bytes, c: Bytes)
    requires a == [1] && b == [2] && c == [3]
    ensures RemoveCommon([c, b, a], [b, a, c]) == [b, a] && RemoveCommon([b, a], [b]) == [a]
    ensures RemoveCommon([b, a], [b, a, c]) == [] && RemoveCommon([], [b]) == []
    ensures HasCommon([b, a], [b, a, c]) && HasCommon([b, a], [b])
    ensures !HasCommon([a], [b, a, c]) && !HasCommon([a], [b])
  {
    assert Less(a, b) && Less(b, c) && Less(a, c) && !Less(b, a) && !Less(c, b) && !Less(c, a);
    assert !Less(a, a) && !Less(b, b) && !Less(c, c);
    assert [b, a, c][1..] == [a, c] && [a, c][1..] == [c] && [c][1..] == [] && [b][1..] == [] && [a][1..] == [];
    assert [c, b, a][1..] == [b, a] && [b, a][1..] == [a];
    assert RemoveCommon([b, a], []) == [b, a];
    assert RemoveCommon([c, b, a], [c]) == [b, a];
    assert RemoveCommon([c, b, a], [a, c]) == [b, a];
    assert RemoveCommon([a], []) == [a];
    assert RemoveCommon([], [c]) == [] && RemoveCommon([a], [a, c]) == [];
  }

  /**
   * And over a tail that grows: [c, b, a] with [b, a, c] fulfilled; a query, which the guard on the next fulfillment
   * [b] makes and passes; then the answer is [] instead of [a], although asking twice at the end would agree.
   */
  lemma GrowingIsAffected(deviceKey: Bytes)
    ensures
      var a: Bytes, b: Bytes, c: Bytes := [1], [2], [3];
      var s, fs := Solicitation(deviceKey, [], false, [c, b, a]), [[b, a, c], [b]];
      var queried := FulfilledAll(s, [[b, a, c]]);
      && queried.sessionIds == [b, a] && HasCommon(queried.sessionIds, [b]) && !Safe(s, [[b, a, c]])
      && FulfilledAll(queried, fs).sessionIds == [] && FulfilledAll(s, fs).sessionIds == [a]
      && Unaffected(s, fs, fs)
  {
    hide RemoveCommon, HasCommon, FulfilledAll;
    var a: Bytes, b: Bytes, c: Bytes := [1], [2], [3];
    var s, f, g := Solicitation(deviceKey, [], false, [c, b, a]), [b, a, c], [b];
    GrowingSteps(a, b, c);
    FulfilledTwice(s, f, g);
    FulfilledTwice(Fulfilled(s, f), f, g);
    assert f in [f];
  }
}
