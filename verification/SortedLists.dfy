/**
 * The lists a snapshot keeps sorted by a byte-string key (members, channels, memberships, read markers, blocks).
 * The functions are the specification; the methods at the end search and shift as the source does.
 */
module SortedLists {
  import opened Wrappers
  import opened ByteStrings

  ghost predicate Sorted<T(!new)>(s: seq<T>, key: T -> Bytes)
  {
    forall i, j :: 0 <= i < j < |s| ==> Less(key(s[i]), key(s[j]))
  }

  /** The first position whose key is not below `k`. */
  function Index<T>(s: seq<T>, key: T -> Bytes, k: Bytes): (n: nat)
    ensures n <= |s|
    ensures forall i :: 0 <= i < n ==> Less(key(s[i]), k)
    ensures n < |s| ==> !Less(key(s[n]), k)
  {
    if s == [] || !Less(key(s[0]), k) then 0 else 1 + Index(s[1..], key, k)
  }

  predicate Has<T>(s: seq<T>, key: T -> Bytes, k: Bytes) {
    var n := Index(s, key, k);
    n < |s| && key(s[n]) == k
  }

  function Find<T>(s: seq<T>, key: T -> Bytes, k: Bytes): Option<T> {
    if Has(s, key, k) then Some(s[Index(s, key, k)]) else None
  }

  function Insert<T>(s: seq<T>, key: T -> Bytes, x: T): seq<T> {
    var n := Index(s, key, key(x));
    if Has(s, key, key(x)) then s[n := x] else s[..n] + [x] + s[n..]
  }

  function Remove<T>(s: seq<T>, key: T -> Bytes, k: Bytes): seq<T> {
    var n := Index(s, key, k);
    if Has(s, key, k) then s[..n] + s[n + 1..] else s
  }

  // ---------- the list as a finite map ----------

  ghost function Keys<T(!new)>(s: seq<T>, key: T -> Bytes): set<Bytes> {
    set x | x in s :: key(x)
  }

  /** Binary-search presence is plain membership, and the element found is the one with that key. */
  lemma HasIsMembership<T(!new)>(s: seq<T>, key: T -> Bytes, k: Bytes)
    requires Sorted(s, key)
    ensures Has(s, key, k) <==> k in Keys(s, key)
    ensures forall i :: 0 <= i < |s| && key(s[i]) == k ==> Find(s, key, k) == Some(s[i])
  {
    hide Less;
    LessIrreflexive(k);
    var n := Index(s, key, k);
    assert forall i :: n < i < |s| ==> Less(key(s[n]), key(s[i]));
    assert forall i :: 0 <= i < |s| && key(s[i]) == k ==> i == n;
  }

  ghost function FindPresent<T(!new)>(s: seq<T>, key: T -> Bytes, k: Bytes): T
    requires Sorted(s, key)
    requires k in Keys(s, key)
  {
    HasIsMembership(s, key, k);
    Find(s, key, k).value
  }

  ghost function AsMap<T(!new)>(s: seq<T>, key: T -> Bytes): map<Bytes, T>
    requires Sorted(s, key)
  {
    map k | k in Keys(s, key) :: FindPresent(s, key, k)
  }

  lemma InsertKeepsOrder<T(!new)>(s: seq<T>, key: T -> Bytes, x: T)
    requires Sorted(s, key)
    ensures Sorted(Insert(s, key, x), key)
  {
    hide Less;
    var n, k := Index(s, key, key(x)), key(x);
    if !Has(s, key, k) {
      forall i | n <= i < |s| ensures Less(k, key(s[i])) {
        LessTotal(k, key(s[n]));
        if n < i {
          LessTransitive(k, key(s[n]), key(s[i]));
        }
      }
      var r := s[..n] + [x] + s[n..];
      assert forall i :: 0 <= i < |r| ==> r[i] == if i < n then s[i] else if i == n then x else s[i - 1];
    }
  }

  /** The same elements but for `x` are found under the same keys. */
  lemma InsertFinds<T(!new)>(s: seq<T>, r: seq<T>, key: T -> Bytes, x: T, k: Bytes)
    requires Sorted(s, key) && Sorted(r, key)
    requires forall y :: y in r <==> y == x || (y in s && key(y) != key(x))
    ensures Find(r, key, k) == if k == key(x) then Some(x) else Find(s, key, k)
  {
    hide Index;
    HasIsMembership(s, key, k);
    HasIsMembership(r, key, k);
    if k == key(x) {
      var i :| 0 <= i < |r| && r[i] == x;
    } else if k in Keys(s, key) {
      var i :| 0 <= i < |s| && key(s[i]) == k;
      assert s[i] in r;
      var j :| 0 <= j < |r| && r[j] == s[i];
    } else {
      assert k !in Keys(r, key);
    }
  }

  lemma OverwriteElements<T(!new)>(s: seq<T>, key: T -> Bytes, x: T, n: nat)
    requires n < |s| && forall j :: 0 <= j < |s| ==> (key(s[j]) == key(x) <==> j == n)
    ensures forall y :: y in s[n := x] <==> y == x || (y in s && key(y) != key(x))
  {
    var r := s[n := x];
    assert r[n] == x;
    forall y | y in s && key(y) != key(x) ensures y in r {
      var i :| 0 <= i < |s| && s[i] == y;
      assert r[i] == y;
    }
  }

  lemma SpliceElements<T(!new)>(s: seq<T>, key: T -> Bytes, x: T, n: nat)
    requires n <= |s| && forall j :: 0 <= j < |s| ==> key(s[j]) != key(x)
    ensures forall y :: y in s[..n] + [x] + s[n..] <==> y == x || (y in s && key(y) != key(x))
  {
    assert s == s[..n] + s[n..];
    assert forall y :: y in s <==> y in s[..n] || y in s[n..];
    assert forall y :: y in s ==> key(y) != key(x);
  }

  /** What insertion does to the elements: everything with another key stays, and `x` is there. */
  lemma InsertElements<T(!new)>(s: seq<T>, key: T -> Bytes, x: T)
    requires Sorted(s, key)
    ensures forall y :: y in Insert(s, key, x) <==> y == x || (y in s && key(y) != key(x))
  {
    hide Less;
    LessIrreflexive(key(x));
    var n := Index(s, key, key(x));
    assert forall j :: n < j < |s| ==> Less(key(s[n]), key(s[j]));
    if Has(s, key, key(x)) {
      OverwriteElements(s, key, x, n);
    } else {
      SpliceElements(s, key, x, n);
    }
  }

  lemma InsertSorted<T(!new)>(s: seq<T>, key: T -> Bytes, x: T)
    requires Sorted(s, key)
    ensures Sorted(Insert(s, key, x), key)
    ensures Keys(Insert(s, key, x), key) == Keys(s, key) + {key(x)}
    ensures forall k :: Find(Insert(s, key, x), key, k) == if k == key(x) then Some(x) else Find(s, key, k)
  {
    hide Insert, Index;
    var r := Insert(s, key, x);
    InsertKeepsOrder(s, key, x);
    InsertElements(s, key, x);
    forall k ensures Find(r, key, k) == if k == key(x) then Some(x) else Find(s, key, k) {
      InsertFinds(s, r, key, x, k);
    }
    forall k ensures k in Keys(r, key) <==> k in Keys(s, key) + {key(x)} {
      if k in Keys(s, key) && k != key(x) {
        var y :| y in s && key(y) == k;
        assert y in r;
      }
    }
  }

  lemma InsertRefines<T(!new)>(s: seq<T>, key: T -> Bytes, x: T)
    requires Sorted(s, key)
    ensures Sorted(Insert(s, key, x), key)
    ensures AsMap(Insert(s, key, x), key) == AsMap(s, key)[key(x) := x]
  {
    InsertSorted(s, key, x);
  }

  lemma RemoveElements<T(!new)>(s: seq<T>, key: T -> Bytes, k0: Bytes)
    requires Sorted(s, key)
    ensures forall y :: y in Remove(s, key, k0) <==> y in s && key(y) != k0
  {
    hide Less;
    LessIrreflexive(k0);
    HasIsMembership(s, key, k0);
    var n := Index(s, key, k0);
    var r := Remove(s, key, k0);
    if Has(s, key, k0) {
      forall y | y in s && key(y) != k0 ensures y in r {
        var i :| 0 <= i < |s| && s[i] == y;
        assert if i < n then r[i] == y else r[i - 1] == y;
      }
      forall y | y in r ensures y in s && key(y) != k0 {
        var i :| 0 <= i < |r| && r[i] == y;
        var j := if i < n then i else i + 1;
        assert s[j] == y && j != n;
        assert Less(key(s[n]), key(s[j])) || Less(key(s[j]), key(s[n]));
      }
    } else {
      assert forall y :: y in s ==> key(y) in Keys(s, key);
    }
  }

  lemma RemoveSorted<T(!new)>(s: seq<T>, key: T -> Bytes, k0: Bytes)
    requires Sorted(s, key)
    ensures Sorted(Remove(s, key, k0), key)
    ensures Keys(Remove(s, key, k0), key) == Keys(s, key) - {k0}
    ensures forall k :: Find(Remove(s, key, k0), key, k) == if k == k0 then None else Find(s, key, k)
  {
    var n := Index(s, key, k0);
    var r := Remove(s, key, k0);
    assert Sorted(r, key);
    RemoveElements(s, key, k0);
    forall k ensures Find(r, key, k) == if k == k0 then None else Find(s, key, k) {
      HasIsMembership(s, key, k);
      HasIsMembership(r, key, k);
    }
  }

  lemma RemoveRefines<T(!new)>(s: seq<T>, key: T -> Bytes, k: Bytes)
    requires Sorted(s, key)
    ensures Sorted(Remove(s, key, k), key)
    ensures AsMap(Remove(s, key, k), key) == AsMap(s, key) - {k}
  {
    RemoveSorted(s, key, k);
  }

  /** A strictly sorted list is determined by the map it represents. */
  lemma {:induction false} SortedIsCanonical<T(!new)>(s: seq<T>, t: seq<T>, key: T -> Bytes)
    requires Sorted(s, key) && Sorted(t, key)
    requires forall x :: x in s <==> x in t
    ensures s == t
  {
    LessIsStrictTotalOrder();
    assert s != [] ==> s[0] in t;
    assert t != [] ==> t[0] in s;
    if s != [] && t != [] {
      var i :| 0 <= i < |t| && t[i] == s[0];
      var j :| 0 <= j < |s| && s[j] == t[0];
      assert s[0] == t[0];
      forall x ensures x in s[1..] <==> x in t[1..] {
        if x in s[1..] {
          var p :| 1 <= p < |s| && s[p] == x;
          assert Less(key(s[0]), key(x));
          assert x in t;
        }
        if x in t[1..] {
          var p :| 1 <= p < |t| && t[p] == x;
          assert Less(key(t[0]), key(x));
          assert x in s;
        }
      }
      SortedIsCanonical(s[1..], t[1..], key);
      assert s == [s[0]] + s[1..] && t == [t[0]] + t[1..];
    }
  }

  // ---------- runs ----------

  datatype Op<T> = Put(x: T) | Delete(k: Bytes)

  function RunList<T>(ops: seq<Op<T>>, key: T -> Bytes): seq<T> {
    if ops == [] then []
    else
      var s := RunList(ops[..|ops| - 1], key);
      match ops[|ops| - 1]
      case Put(x) => Insert(s, key, x)
      case Delete(k) => Remove(s, key, k)
  }

  function RunMap<T>(ops: seq<Op<T>>, key: T -> Bytes): map<Bytes, T> {
    if ops == [] then map[]
    else
      var m := RunMap(ops[..|ops| - 1], key);
      match ops[|ops| - 1]
      case Put(x) => m[key(x) := x]
      case Delete(k) => m - {k}
  }

  /** Any run of insertions and removals keeps the list strictly increasing and equal, as a map, to the map run. */
  lemma {:induction false} RunRefinesMap<T(!new)>(ops: seq<Op<T>>, key: T -> Bytes)
    ensures Sorted(RunList(ops, key), key)
    ensures AsMap(RunList(ops, key), key) == RunMap(ops, key)
  {
    if ops != [] {
      var s := RunList(ops[..|ops| - 1], key);
      RunRefinesMap(ops[..|ops| - 1], key);
      match ops[|ops| - 1] {
        case Put(x) => InsertRefines(s, key, x);
        case Delete(k) => RemoveRefines(s, key, k);
      }
    }
  }

  // ---------- the source's procedures ----------

  /** The standard library's binary search over a sorted slice. */
  method BinarySearch<T(!new)>(s: seq<T>, key: T -> Bytes, k: Bytes) returns (n: nat, found: bool)
    requires Sorted(s, key)
    ensures n == Index(s, key, k)
    ensures found <==> k in Keys(s, key)
  {
    LessIsStrictTotalOrder();
    var i, j := 0, |s|;
    while i < j
      invariant 0 <= i <= j <= |s|
      invariant forall p :: 0 <= p < i ==> Less(key(s[p]), k)
      invariant forall p :: j <= p < |s| ==> !Less(key(s[p]), k)
    {
      var h := (i + j) / 2;
      if Less(key(s[h]), k) {
        forall p | 0 <= p < h + 1 ensures Less(key(s[p]), k) {
          assert p < h ==> Less(key(s[p]), key(s[h]));
        }
        i := h + 1;
      } else {
        forall p | h <= p < |s| ensures !Less(key(s[p]), k) {
          assert h < p ==> Less(key(s[h]), key(s[p]));
        }
        j := h;
      }
    }
    n, found := i, i < |s| && key(s[i]) == k;
    var m := Index(s, key, k);
    assert m == i;
    HasIsMembership(s, key, k);
  }

  method FindSorted<T(!new)>(s: seq<T>, key: T -> Bytes, k: Bytes) returns (r: Option<T>)
    requires Sorted(s, key)
    ensures r.None? <==> k !in AsMap(s, key)
    ensures r.Some? ==> AsMap(s, key)[k] == r.value
  {
    var n, found := BinarySearch(s, key, k);
    HasIsMembership(s, key, k);
    r := if found then Some(s[n]) else None;
  }

  /** Insertion shifts the tail one slot to the right, or overwrites the element with the same key. */
  method InsertShifting<T(!new)>(s: seq<T>, key: T -> Bytes, x: T) returns (r: seq<T>)
    requires Sorted(s, key)
    ensures r == Insert(s, key, x)
    ensures Sorted(r, key) && AsMap(r, key) == AsMap(s, key)[key(x) := x]
  {
    hide Less, Index, AsMap, Keys;
    var n, found := BinarySearch(s, key, key(x));
    HasIsMembership(s, key, key(x));
    InsertRefines(s, key, x);
    if found {
      r := s[n := x];
    } else {
      var grown := s + [x];
      r := (grown[..n + 1] + s[n..])[n := x];
      assert r == s[..n] + [x] + s[n..];
    }
  }

  method RemoveShifting<T(!new)>(s: seq<T>, key: T -> Bytes, k: Bytes) returns (r: seq<T>)
    requires Sorted(s, key)
    ensures r == Remove(s, key, k)
    ensures Sorted(r, key) && AsMap(r, key) == AsMap(s, key) - {k}
  {
    var n, found := BinarySearch(s, key, k);
    HasIsMembership(s, key, k);
    RemoveRefines(s, key, k);
    r := if found then s[..n] + s[n + 1..] else s;
  }
}
