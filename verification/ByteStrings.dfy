/** Byte strings and the lexicographic order that `bytes.Compare` and Go's string comparison use. */
module ByteStrings {
  newtype byte = x: int | 0 <= x < 256

  type Bytes = seq<byte>

  predicate Less(a: Bytes, b: Bytes)
  {
    if b == [] then false
    else if a == [] then true
    else a[0] < b[0] || (a[0] == b[0] && Less(a[1..], b[1..]))
  }

  /** The first `n` bytes agree. */
  predicate AgreeOn(a: Bytes, b: Bytes, n: nat) {
    n <= |a| && n <= |b| && forall i :: 0 <= i < n ==> a[i] == b[i]
  }

  /** At the first difference `a` has ended or has the smaller byte. */
  lemma {:induction false} LessIsLexicographic(a: Bytes, b: Bytes, n: nat)
    requires AgreeOn(a, b, n) && (n == |a| || n == |b| || a[n] != b[n])
    ensures Less(a, b) <==> n < |b| && (n == |a| || a[n] < b[n])
  {
    if n > 0 {
      LessIsLexicographic(a[1..], b[1..], n - 1);
    }
  }

  lemma {:induction false} LessIrreflexive(a: Bytes)
    ensures !Less(a, a)
  {
    if a != [] {
      LessIrreflexive(a[1..]);
    }
  }

  lemma {:induction false} LessTransitive(a: Bytes, b: Bytes, c: Bytes)
    requires Less(a, b) && Less(b, c)
    ensures Less(a, c)
  {
    if a != [] && a[0] == b[0] == c[0] {
      LessTransitive(a[1..], b[1..], c[1..]);
    }
  }

  lemma LessAsymmetric(a: Bytes, b: Bytes)
    requires Less(a, b)
    ensures !Less(b, a)
  {
    hide Less;
    if Less(b, a) {
      LessTransitive(a, b, a);
      LessIrreflexive(a);
    }
  }

  lemma {:induction false} LessTotal(a: Bytes, b: Bytes)
    ensures Less(a, b) || a == b || Less(b, a)
  {
    if a != [] && b != [] {
      LessTotal(a[1..], b[1..]);
      assert a == [a[0]] + a[1..] && b == [b[0]] + b[1..];
    }
  }

  /** The order is a strict total order, as one quantified fact for the sorted-list proofs. */
  lemma LessIsStrictTotalOrder()
    ensures forall a: Bytes :: !Less(a, a)
    ensures forall a: Bytes, b: Bytes, c: Bytes :: Less(a, b) && Less(b, c) ==> Less(a, c)
    ensures forall a: Bytes, b: Bytes :: Less(a, b) || a == b || Less(b, a)
  {
    forall a: Bytes ensures !Less(a, a) { LessIrreflexive(a); }
    forall a: Bytes, b: Bytes, c: Bytes | Less(a, b) && Less(b, c) ensures Less(a, c) { LessTransitive(a, b, c); }
    forall a: Bytes, b: Bytes ensures Less(a, b) || a == b || Less(b, a) { LessTotal(a, b); }
  }
}
