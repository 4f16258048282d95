/** Device keys and key solicitations: short lists without duplicate device keys, newest last. */
module RecentLists {
  import opened ByteStrings

  const MAX_DEVICES := 10

  function Without<T(!new)>(s: seq<T>, key: T -> Bytes, k: Bytes): (r: seq<T>)
    ensures |r| <= |s|
    ensures forall x :: x in r <==> x in s && key(x) != k
  {
    if s == [] then []
    else
      var rest := Without(s[..|s| - 1], key, k);
      assert s == s[..|s| - 1] + [s[|s| - 1]];
      if key(s[|s| - 1]) == k then rest else rest + [s[|s| - 1]]
  }

  /** Drop the entries with this key, keep the newest ten others, and put the new one last. */
  function Push<T(!new)>(s: seq<T>, key: T -> Bytes, x: T): seq<T> {
    var others := Without(s, key, key(x));
    (if |others| > MAX_DEVICES then others[|others| - MAX_DEVICES..] else others) + [x]
  }

  ghost predicate DistinctKeys<T(!new)>(s: seq<T>, key: T -> Bytes) {
    forall i, j :: 0 <= i < j < |s| ==> key(s[i]) != key(s[j])
  }

  ghost predicate Recent<T(!new)>(s: seq<T>, key: T -> Bytes) {
    |s| <= MAX_DEVICES + 1 && DistinctKeys(s, key)
  }

  lemma {:induction false} WithoutLength<T(!new)>(s: seq<T>, key: T -> Bytes, k: Bytes)
    requires DistinctKeys(s, key)
    ensures |Without(s, key, k)| >= |s| - 1
    ensures |Without(s, key, k)| == |s| <==> forall i :: 0 <= i < |s| ==> key(s[i]) != k
  {
    if s != [] {
      var init := s[..|s| - 1];
      assert forall i :: 0 <= i < |init| ==> init[i] == s[i];
      WithoutLength(init, key, k);
    }
  }

  lemma {:induction false} WithoutDistinct<T(!new)>(s: seq<T>, key: T -> Bytes, k: Bytes)
    requires DistinctKeys(s, key)
    ensures DistinctKeys(Without(s, key, k), key)
  {
    if s != [] {
      var init, last := s[..|s| - 1], s[|s| - 1];
      assert forall i :: 0 <= i < |init| ==> init[i] == s[i];
      WithoutDistinct(init, key, k);
      var r := Without(init, key, k);
      assert forall i :: 0 <= i < |r| ==> r[i] in init;
      assert forall x :: x in init ==> key(x) != key(last);
    }
  }

  /** Any sequence of pushes keeps the list free of duplicate keys, at most eleven long, with the newest last. */
  lemma PushKeepsRecent<T(!new)>(s: seq<T>, key: T -> Bytes, x: T)
    requires DistinctKeys(s, key)
    ensures Recent(Push(s, key, x), key)
    ensures var r := Push(s, key, x);
      && r[|r| - 1] == x
      && forall y :: y in r ==> y == x || (y in s && key(y) != key(x))
  {
    WithoutDistinct(s, key, key(x));
  }

  function PushAll<T(!new)>(key: T -> Bytes, xs: seq<T>): seq<T> {
    if xs == [] then [] else Push(PushAll(key, xs[..|xs| - 1]), key, xs[|xs| - 1])
  }

  lemma {:induction false} PushAllIsRecent<T(!new)>(key: T -> Bytes, xs: seq<T>)
    ensures Recent(PushAll(key, xs), key)
    ensures xs != [] ==> PushAll(key, xs) != [] && PushAll(key, xs)[|PushAll(key, xs)| - 1] == xs[|xs| - 1]
  {
    if xs != [] {
      PushAllIsRecent(key, xs[..|xs| - 1]);
      PushKeepsRecent(PushAll(key, xs[..|xs| - 1]), key, xs[|xs| - 1]);
    }
  }

  /** The last `n` entries. */
  function Newest<T>(s: seq<T>, n: nat): seq<T> {
    if |s| <= n then s else s[|s| - n..]
  }

  /** The first entry's key occurs again later. */
  predicate Repeated<T(!new)>(xs: seq<T>, key: T -> Bytes)
    requires xs != []
  {
    exists i :: 0 < i < |xs| && key(xs[i]) == key(xs[0])
  }

  /** The entries whose key is not mentioned again, in order. */
  function LastMentions<T(!new)>(xs: seq<T>, key: T -> Bytes): (r: seq<T>)
    ensures forall x :: x in r ==> x in xs
  {
    if xs == [] then []
    else
      assert xs == [xs[0]] + xs[1..];
      if Repeated(xs, key) then LastMentions(xs[1..], key) else [xs[0]] + LastMentions(xs[1..], key)
  }

  lemma {:induction false} WithoutConcat<T(!new)>(a: seq<T>, b: seq<T>, key: T -> Bytes, k: Bytes)
    ensures Without(a + b, key, k) == Without(a, key, k) + Without(b, key, k)
  {
    if b == [] {
      assert a + b == a;
    } else {
      assert (a + b)[..|a + b| - 1] == a + b[..|b| - 1];
      WithoutConcat(a, b[..|b| - 1], key, k);
    }
  }

  lemma WithoutFirst<T(!new)>(x: T, s: seq<T>, key: T -> Bytes, k: Bytes)
    ensures Without([x] + s, key, k) == (if key(x) == k then [] else [x]) + Without(s, key, k)
  {
    WithoutConcat([x], s, key, k);
    assert [x][..0] == [];
  }

  lemma RepeatedSnoc<T(!new)>(xs: seq<T>, x: T, key: T -> Bytes)
    requires xs != []
    ensures Repeated(xs + [x], key) <==> Repeated(xs, key) || key(xs[0]) == key(x)
  {
    var all := xs + [x];
    assert all[0] == xs[0] && all[|xs|] == x;
    if Repeated(xs, key) {
      var i :| 0 < i < |xs| && key(xs[i]) == key(xs[0]);
      assert all[i] == xs[i];
    }
  }

  lemma {:induction false} LastMentionsSnoc<T(!new)>(xs: seq<T>, x: T, key: T -> Bytes)
    ensures LastMentions(xs + [x], key) == Without(LastMentions(xs, key), key, key(x)) + [x]
  {
    if xs == [] {
      assert xs + [x] == [x] && [x][1..] == [];
    } else {
      hide Without, Repeated;
      var all, rest := xs + [x], xs[1..];
      assert all[1..] == rest + [x] && all[0] == xs[0];
      LastMentionsSnoc(rest, x, key);
      RepeatedSnoc(xs, x, key);
      var later := LastMentions(rest, key);
      WithoutFirst(xs[0], later, key, key(x));
      assert [xs[0]] + (Without(later, key, key(x)) + [x]) == [xs[0]] + Without(later, key, key(x)) + [x];
      assert [] + Without(later, key, key(x)) == Without(later, key, key(x));
      if Repeated(xs, key) {
        assert LastMentions(xs, key) == later;
      } else {
        assert LastMentions(xs, key) == [xs[0]] + later;
      }
    }
  }

  lemma {:induction false} LastMentionsDistinct<T(!new)>(xs: seq<T>, key: T -> Bytes)
    ensures DistinctKeys(LastMentions(xs, key), key)
  {
    if xs != [] {
      var rest := LastMentions(xs[1..], key);
      LastMentionsDistinct(xs[1..], key);
      assert forall i :: 0 <= i < |rest| ==> rest[i] in xs[1..];
    }
  }

  lemma DistinctSuffix<T(!new)>(s: seq<T>, k: nat, key: T -> Bytes)
    requires k <= |s| && DistinctKeys(s, key)
    ensures DistinctKeys(s[k..], key)
  {
  }

  /** What is beyond the newest eleven cannot come back when a key is moved to the end. */
  lemma CutCommutes<T(!new)>(s: seq<T>, key: T -> Bytes, k: Bytes)
    requires DistinctKeys(s, key)
    ensures Newest(Without(Newest(s, 11), key, k), 10) == Newest(Without(s, key, k), 10)
  {
    hide Without, DistinctKeys;
    if |s| > 11 {
      var a, b := s[..|s| - 11], s[|s| - 11..];
      assert s == a + b;
      WithoutConcat(a, b, key, k);
      assert DistinctKeys(b, key) by { DistinctSuffix(s, |s| - 11, key); }
      WithoutLength(b, key, k);
      var x, y := Without(a, key, k), Without(b, key, k);
      assert (x + y)[|x + y| - 10..] == y[|y| - 10..];
    }
  }

  lemma NothingMentioned<T(!new)>(key: T -> Bytes, xs: seq<T>)
    requires xs == []
    ensures LastMentions(xs, key) == []
  {
  }

  /** After any sequence of pushes the list holds the eleven entries mentioned last, each once, the newest last. */
  lemma {:induction false} PushAllNewest<T(!new)>(key: T -> Bytes, xs: seq<T>)
    ensures PushAll(key, xs) == Newest(LastMentions(xs, key), 11)
  {
    hide Without, LastMentions, DistinctKeys;
    if xs == [] {
      NothingMentioned(key, xs);
    } else {
      var init, x := xs[..|xs| - 1], xs[|xs| - 1];
      assert xs == init + [x];
      PushAllNewest(key, init);
      var all := LastMentions(init, key);
      LastMentionsSnoc(init, x, key);
      LastMentionsDistinct(init, key);
      CutCommutes(all, key, key(x));
      var others := Without(all, key, key(x));
      assert Newest(others + [x], 11) == Newest(others, 10) + [x];
    }
  }

  lemma NothingLeft<T(!new)>(key: T -> Bytes, k: Bytes)
    ensures Without([], key, k) == []
  {
  }

  lemma WithoutNext<T(!new)>(s: seq<T>, key: T -> Bytes, k: Bytes, p: nat)
    requires p < |s|
    ensures Without(s[..p + 1], key, k) == Without(s[..p], key, k) + if key(s[p]) == k then [] else [s[p]]
  {
    assert s[..p + 1][..p] == s[..p];
  }

  /** The shared in-place filter: survivors are moved to the front, `i` counts them. */
  method Compact<T(!new)>(a: array<T>, key: T -> Bytes, k: Bytes) returns (i: nat)
    modifies a
    ensures i <= a.Length && a[..i] == Without(old(a[..]), key, k)
  {
    hide Without;
    NothingLeft(key, k);
    assert old(a[..])[..0] == [];
    i := 0;
    var p := 0;
    while p < a.Length
      invariant 0 <= i <= p <= a.Length
      invariant a[..i] == Without(old(a[..])[..p], key, k)
      invariant forall q :: p <= q < a.Length ==> a[q] == old(a[q])
    {
      WithoutNext(old(a[..]), key, k, p);
      if key(a[p]) != k {
        a[i] := a[p];
        i := i + 1;
        assert a[..i] == a[..i - 1] + [a[i - 1]];
      }
      p := p + 1;
    }
    assert old(a[..])[..a.Length] == old(a[..]);
  }

  /**
   * The device-key update. When exactly one old entry was filtered out the new one takes the last slot in place,
   * otherwise the list is cut to ten and extended. On lists a run can reach both are the plain push.
   */
  method PushDevice<T(!new)>(a: array<T>, key: T -> Bytes, x: T) returns (r: seq<T>)
    requires Recent(a[..], key)
    modifies a
    ensures r == Push(old(a[..]), key, x)
  {
    WithoutLength(a[..], key, key(x));
    var i := Compact(a, key, key(x));
    if i == a.Length - 1 {
      a[i] := x;
      r := a[..];
    } else {
      var start := if i > MAX_DEVICES then i - MAX_DEVICES else 0;
      r := a[start..i] + [x];
    }
  }

  /** The solicitation update: the same filter, always followed by the cut and the append. */
  method PushSolicitation<T(!new)>(a: array<T>, key: T -> Bytes, x: T) returns (r: seq<T>)
    modifies a
    ensures r == Push(old(a[..]), key, x)
  {
    var i := Compact(a, key, key(x));
    var start := if i > MAX_DEVICES then i - MAX_DEVICES else 0;
    r := a[start..i] + [x];
  }

  // ---------- removing fulfilled session ids ----------

  ghost predicate Ascending(s: seq<Bytes>) {
    forall i, j :: 0 <= i < j < |s| ==> !Less(s[j], s[i])
  }

  function RemoveCommon(x: seq<Bytes>, y: seq<Bytes>): seq<Bytes>
    decreases |x| + |y|
  {
    if x == [] || y == [] then x
    else if Less(x[0], y[0]) then [x[0]] + RemoveCommon(x[1..], y)
    else if Less(y[0], x[0]) then RemoveCommon(x, y[1..])
    else RemoveCommon(x[1..], y[1..])
  }

  /** The scan only drops elements, so it keeps an ascending list ascending. */
  lemma {:induction false} RemoveCommonKeepsOrder(x: seq<Bytes>, y: seq<Bytes>)
    requires Ascending(x)
    ensures Ascending(RemoveCommon(x, y))
    ensures forall z :: z in RemoveCommon(x, y) ==> z in x
    decreases |x| + |y|
  {
    if x != [] && y != [] {
      if Less(x[0], y[0]) {
        RemoveCommonKeepsOrder(x[1..], y);
        var r := RemoveCommon(x[1..], y);
        assert forall j :: 0 <= j < |r| ==> r[j] in x[1..];
      } else if Less(y[0], x[0]) {
        RemoveCommonKeepsOrder(x, y[1..]);
      } else {
        RemoveCommonKeepsOrder(x[1..], y[1..]);
      }
    }
  }

  lemma MultisetFacts(z: Bytes, x: multiset<Bytes>, y: multiset<Bytes>)
    ensures z !in y ==> multiset{z} + x - y == multiset{z} + (x - y)
    ensures z !in x ==> x - (multiset{z} + y) == x - y
    ensures multiset{z} + x - (multiset{z} + y) == x - y
  {
  }

  lemma SplitFirst(s: seq<Bytes>)
    requires s != []
    ensures multiset(s) == multiset{s[0]} + multiset(s[1..])
  {
    assert s == [s[0]] + s[1..];
  }

  lemma AbsentBelow(z: Bytes, s: seq<Bytes>)
    requires s != [] && Ascending(s) && Less(z, s[0])
    ensures z !in multiset(s)
  {
    LessIrreflexive(z);
  }

  /** On ascending inputs the scan is exactly the multiset difference. */
  lemma {:induction false} RemoveCommonIsDifference(x: seq<Bytes>, y: seq<Bytes>)
    requires Ascending(x) && Ascending(y)
    ensures multiset(RemoveCommon(x, y)) == multiset(x) - multiset(y)
    decreases |x| + |y|
  {
    if x != [] && y != [] {
      SplitFirst(x);
      SplitFirst(y);
      if Less(x[0], y[0]) {
        AbsentBelow(x[0], y);
        RemoveCommonIsDifference(x[1..], y);
        MultisetFacts(x[0], multiset(x[1..]), multiset(y));
      } else if Less(y[0], x[0]) {
        AbsentBelow(y[0], x);
        RemoveCommonIsDifference(x, y[1..]);
        MultisetFacts(y[0], multiset(x), multiset(y[1..]));
      } else {
        LessTotal(x[0], y[0]);
        RemoveCommonIsDifference(x[1..], y[1..]);
        MultisetFacts(x[0], multiset(x[1..]), multiset(y[1..]));
      }
    }
  }

  /** Neither argument is sorted by the callers; on an unsorted list a fulfilled id can survive. */
  lemma RemoveCommonNeedsOrder()
    ensures
      var a: Bytes, b: Bytes := [1], [2];
      RemoveCommon([b, a], [a]) == [b, a] && multiset([b, a]) - multiset([a]) == multiset([b])
  {
    var a: Bytes, b: Bytes := [1], [2];
    assert Less(a, b) && !Less(b, a);
    assert RemoveCommon([b, a], []) == [b, a];
    assert [a][1..] == [];
  }

  function Copies(z: Bytes, k: nat): (r: seq<Bytes>)
    ensures |r| == k && forall i :: 0 <= i < k ==> r[i] == z
  {
    seq(k, _ => z)
  }

  lemma {:induction false} NothingBelow(x: seq<Bytes>, z: Bytes, k: nat)
    requires x != [] && Less(z, x[0])
    ensures RemoveCommon(x, Copies(z, k)) == x
    decreases k
  {
    hide Less;
    if k > 0 {
      LessAsymmetric(z, x[0]);
      assert Copies(z, k)[1..] == Copies(z, k - 1);
      NothingBelow(x, z, k - 1);
    }
  }

  lemma CountFirst(s: seq<Bytes>, z: Bytes)
    requires s != []
    ensures multiset(s)[z] == multiset(s[1..])[z] + if s[0] == z then 1 else 0
  {
    SplitFirst(s);
  }

  lemma KeptFirst(x: seq<Bytes>, y: seq<Bytes>, z: Bytes)
    requires x != [] && x[0] != z && (y != [] ==> Less(x[0], y[0]))
    ensures multiset(RemoveCommon(x, y))[z] == multiset(RemoveCommon(x[1..], y))[z]
  {
    hide Less;
    CountFirst(x, z);
    if y != [] {
      CountFirst(RemoveCommon(x, y), z);
      assert RemoveCommon(x, y)[1..] == RemoveCommon(x[1..], y);
    }
  }

  /** Once a larger id comes, the rest of a run of equal ids is skipped without being removed. */
  lemma {:induction false} CopiesRemoved(x: seq<Bytes>, z: Bytes, k: nat, j: nat)
    requires 0 < j <= |x| && Ascending(x[..j]) && Less(z, x[j - 1]) && k >= multiset(x[..j])[z]
    ensures multiset(RemoveCommon(x, Copies(z, k)))[z] + multiset(x[..j])[z] == multiset(x)[z]
  {
    hide Less;
    var front := x[..j];
    CountFirst(x, z);
    CountFirst(front, z);
    if Less(z, x[0]) {
      NothingBelow(x, z, k);
      AbsentBelow(z, front);
    } else {
      var y, rest := Copies(z, k), x[1..];
      assert front[1..] == rest[..j - 1] && Ascending(rest[..j - 1]);
      if Less(x[0], z) {
        LessIrreflexive(z);
        CopiesRemoved(rest, z, k, j - 1);
        KeptFirst(x, y, z);
      } else {
        LessTotal(x[0], z);
        assert y[1..] == Copies(z, k - 1);
        CopiesRemoved(rest, z, k - 1, j - 1);
      }
    }
  }

  lemma FirstDescent(x: seq<Bytes>) returns (j: nat)
    requires !Ascending(x)
    ensures 0 < j < |x| && Ascending(x[..j]) && Less(x[j], x[j - 1])
  {
    LessIsStrictTotalOrder();
    j := 1;
    while j < |x| && !Less(x[j], x[j - 1])
      invariant 1 <= j <= |x| && Ascending(x[..j])
    {
      LessTotal(x[j], x[j - 1]);
      j := j + 1;
    }
    assert x[..|x|] == x;
  }

  lemma {:induction false} CopiesCount(z: Bytes, k: nat)
    ensures multiset(Copies(z, k))[z] == k
  {
    if k > 0 {
      SplitFirst(Copies(z, k));
      assert Copies(z, k)[1..] == Copies(z, k - 1);
      CopiesCount(z, k - 1);
    }
  }

  lemma {:induction false} AllKept(z: Bytes, k: nat, y: seq<Bytes>)
    requires y != [] && Less(z, y[0])
    ensures RemoveCommon(Copies(z, k), y) == Copies(z, k)
  {
    hide Less;
    if k > 0 {
      AllKept(z, k - 1, y);
      assert Copies(z, k)[1..] == Copies(z, k - 1) && Copies(z, k) == [z] + Copies(z, k - 1);
    }
  }

  /** Once a larger id was fulfilled, the same ids later in the list remove nothing any more. */
  lemma {:induction false} CopiesKept(z: Bytes, k: nat, y: seq<Bytes>, j: nat)
    requires 0 < j <= |y| && Ascending(y[..j]) && Less(z, y[j - 1]) && k >= multiset(y[..j])[z]
    ensures multiset(RemoveCommon(Copies(z, k), y))[z] + multiset(y[..j])[z] == k
    decreases |y|
  {
    hide Less;
    var x, front := Copies(z, k), y[..j];
    CountFirst(front, z);
    CopiesCount(z, k);
    if Less(z, y[0]) {
      AllKept(z, k, y);
      AbsentBelow(z, front);
    } else {
      var rest := y[1..];
      assert front[1..] == rest[..j - 1] && Ascending(rest[..j - 1]);
      if Less(y[0], z) {
        LessIrreflexive(z);
        CopiesKept(z, k, rest, j - 1);
      } else {
        LessTotal(y[0], z);
        assert x[1..] == Copies(z, k - 1);
        CopiesKept(z, k - 1, rest, j - 1);
      }
    }
  }

  /** A list with a descent, and enough copies of the id after it. */
  lemma UnorderedFails(x: seq<Bytes>) returns (y: seq<Bytes>)
    requires !Ascending(x)
    ensures Ascending(y) && multiset(RemoveCommon(x, y)) != multiset(x) - multiset(y)
  {
    hide RemoveCommon, Less;
    var j := FirstDescent(x);
    var z, front := x[j], x[..j];
    var m := multiset(front)[z];
    y := Copies(z, m + 1);
    LessIrreflexive(z);
    CopiesRemoved(x, z, m + 1, j);
    CopiesCount(z, m + 1);
    assert x == front + ([z] + x[j + 1..]);
    assert multiset(x)[z] >= m + 1;
    assert (multiset(x) - multiset(y))[z] == multiset(x)[z] - (m + 1);
  }

  /** The scan removes as a multiset difference for every ascending second list exactly when the first is ascending. */
  lemma RemoveCommonExactly(x: seq<Bytes>)
    ensures Ascending(x) <==>
      forall y :: Ascending(y) ==> multiset(RemoveCommon(x, y)) == multiset(x) - multiset(y)
  {
    hide RemoveCommon, Ascending;
    if Ascending(x) {
      forall y | Ascending(y) ensures multiset(RemoveCommon(x, y)) == multiset(x) - multiset(y) {
        RemoveCommonIsDifference(x, y);
      }
    } else {
      var y := UnorderedFails(x);
    }
  }

  lemma UnorderedRemovalFails(y: seq<Bytes>) returns (x: seq<Bytes>)
    requires !Ascending(y)
    ensures Ascending(x) && multiset(RemoveCommon(x, y)) != multiset(x) - multiset(y)
  {
    hide RemoveCommon, Less;
    var j := FirstDescent(y);
    var z, front := y[j], y[..j];
    var m := multiset(front)[z];
    x := Copies(z, m + 1);
    LessIrreflexive(z);
    CopiesKept(z, m + 1, y, j);
    CopiesCount(z, m + 1);
    assert y == front + ([z] + y[j + 1..]);
    assert multiset(y)[z] >= m + 1;
    assert (multiset(x) - multiset(y))[z] == 0;
  }

  /** And the same for the second list: for every ascending first one exactly when the second is ascending. */
  lemma RemovalExactly(y: seq<Bytes>)
    ensures Ascending(y) <==>
      forall x :: Ascending(x) ==> multiset(RemoveCommon(x, y)) == multiset(x) - multiset(y)
  {
    hide RemoveCommon, Ascending;
    if Ascending(y) {
      forall x | Ascending(x) ensures multiset(RemoveCommon(x, y)) == multiset(x) - multiset(y) {
        RemoveCommonIsDifference(x, y);
      }
    } else {
      var x := UnorderedRemovalFails(y);
    }
  }

  // ---------- the guard on fulfillments ----------

  /** The same scan, asking only whether it meets an equal pair. */
  predicate HasCommon(x: seq<Bytes>, y: seq<Bytes>)
    decreases |x| + |y|
  {
    if x == [] || y == [] then false
    else if Less(x[0], y[0]) then HasCommon(x[1..], y)
    else if Less(y[0], x[0]) then HasCommon(x, y[1..])
    else true
  }

  /** For all lists, sorted or not: the removal changes nothing exactly when the guard finds nothing. */
  lemma {:induction false} RemoveCommonFixes(x: seq<Bytes>, y: seq<Bytes>)
    ensures |RemoveCommon(x, y)| <= |x|
    ensures RemoveCommon(x, y) == x <==> !HasCommon(x, y)
    ensures |RemoveCommon(x, y)| == |x| ==> RemoveCommon(x, y) == x
    decreases |x| + |y|
  {
    if x != [] && y != [] {
      if Less(x[0], y[0]) {
        RemoveCommonFixes(x[1..], y);
        assert x == [x[0]] + x[1..];
      } else if Less(y[0], x[0]) {
        RemoveCommonFixes(x, y[1..]);
      } else {
        RemoveCommonFixes(x[1..], y[1..]);
      }
    }
  }

  /** On ascending lists the guard is plain intersection. */
  lemma {:induction false} HasCommonIsIntersection(x: seq<Bytes>, y: seq<Bytes>)
    requires Ascending(x) && Ascending(y)
    ensures HasCommon(x, y) <==> exists z :: z in x && z in y
    decreases |x| + |y|
  {
    if x != [] && y != [] {
      assert x == [x[0]] + x[1..] && y == [y[0]] + y[1..];
      if Less(x[0], y[0]) {
        HasCommonIsIntersection(x[1..], y);
        AbsentBelow(x[0], y);
      } else if Less(y[0], x[0]) {
        HasCommonIsIntersection(x, y[1..]);
        AbsentBelow(y[0], x);
      } else {
        LessTotal(x[0], y[0]);
        assert x[0] in x && x[0] in y;
      }
    }
  }

  method HasCommonScan(x: seq<Bytes>, y: seq<Bytes>) returns (b: bool)
    ensures b <==> HasCommon(x, y)
  {
    var i, j := 0, 0;
    while i < |x| && j < |y|
      invariant 0 <= i <= |x| && 0 <= j <= |y|
      invariant HasCommon(x, y) == HasCommon(x[i..], y[j..])
      decreases |x| - i + |y| - j
    {
      assert x[i..][1..] == x[i + 1..] && y[j..][1..] == y[j + 1..];
      if Less(x[i], y[j]) {
        i := i + 1;
      } else if Less(y[j], x[i]) {
        j := j + 1;
      } else {
        return true;
      }
    }
    b := false;
  }

  /** The two-index loop. */
  method RemoveCommonScan(x: seq<Bytes>, y: seq<Bytes>) returns (r: seq<Bytes>)
    ensures r == RemoveCommon(x, y)
  {
    r := [];
    var i, j := 0, 0;
    while i < |x| && j < |y|
      invariant 0 <= i <= |x| && 0 <= j <= |y|
      invariant RemoveCommon(x, y) == r + RemoveCommon(x[i..], y[j..])
      decreases |x| - i + |y| - j
    {
      assert x[i..][1..] == x[i + 1..] && y[j..][1..] == y[j + 1..];
      if Less(x[i], y[j]) {
        r := r + [x[i]];
        i := i + 1;
      } else if Less(y[j], x[i]) {
        j := j + 1;
      } else {
        i, j := i + 1, j + 1;
      }
    }
    r := r + x[i..];
  }
}
