/**
 Stack names and the byte-wise order Go's `<` gives to strings.

 Dafny's own `<` on sequences means "proper prefix", so the lexicographic order
 is written out here and shown to be a strict total order.
 */
module Names {

  type Name = string

  predicate Less(a: Name, b: Name) {
    if b == "" then false
    else if a == "" then true
    else if a[0] != b[0] then a[0] < b[0]
    else Less(a[1..], b[1..])
  }

  /** a and b agree on their first k characters, and there a ends or has the smaller character. */
  predicate DiffersAt(a: Name, b: Name, k: nat) {
    k <= |a| && k < |b| && a[..k] == b[..k] && (k == |a| || a[k] < b[k])
  }

  /** The order without recursion: a proper prefix comes first, else the first difference decides. */
  lemma {:induction false} LessIff(a: Name, b: Name)
    ensures Less(a, b) <==> exists k: nat :: DiffersAt(a, b, k)
  {
    if a == "" || b == "" || a[0] != b[0] {
      if Less(a, b) { assert DiffersAt(a, b, 0); }
      DiffersAtFront(a, b);
    } else {
      LessIff(a[1..], b[1..]);
      DiffersInTail(a, b);
    }
  }

  lemma {:induction false} DiffersAtFront(a: Name, b: Name)
    requires a == "" || b == "" || a[0] != b[0]
    ensures forall k: nat :: DiffersAt(a, b, k) ==> k == 0
  {
    forall k: nat | 0 < k <= |a| && k <= |b|
      ensures a[..k] != b[..k]
    {
      assert a[..k][0] != b[..k][0];
    }
  }

  lemma {:induction false} DiffersInTail(a: Name, b: Name)
    requires a != "" && b != "" && a[0] == b[0]
    ensures (exists k: nat :: DiffersAt(a, b, k)) <==> exists k: nat :: DiffersAt(a[1..], b[1..], k)
  {
    if k: nat :| DiffersAt(a, b, k) {
      assert a[1..][..k - 1] == a[..k][1..] == b[..k][1..] == b[1..][..k - 1];
      assert DiffersAt(a[1..], b[1..], k - 1);
    }
    if k: nat :| DiffersAt(a[1..], b[1..], k) {
      assert a[..k + 1] == [a[0]] + a[1..][..k] && b[..k + 1] == [b[0]] + b[1..][..k];
      assert DiffersAt(a, b, k + 1);
    }
  }

  lemma {:induction false} LessTotal(a: Name, b: Name)
    ensures a == b || Less(a, b) || Less(b, a)
  {
    if a != "" && b != "" && a[0] == b[0] {
      LessTotal(a[1..], b[1..]);
      assert a == [a[0]] + a[1..] && b == [b[0]] + b[1..];
    }
  }

  lemma {:induction false} LessAsymmetric(a: Name, b: Name)
    requires Less(a, b)
    ensures !Less(b, a) && a != b
  {
    if a != "" && a[0] == b[0] {
      LessAsymmetric(a[1..], b[1..]);
    }
  }

  lemma {:induction false} LessIrreflexive(a: Name)
    ensures !Less(a, a)
  {
    if Less(a, a) { LessAsymmetric(a, a); }
  }

  lemma {:induction false} LessTransitive(a: Name, b: Name, c: Name)
    requires Less(a, b) && Less(b, c)
    ensures Less(a, c)
  {
    if a != "" && a[0] == b[0] && b[0] == c[0] {
      LessTransitive(a[1..], b[1..], c[1..]);
    }
  }
}
