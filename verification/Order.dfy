/** Code-point order on strings and its lift to tuples, as Python compares `str` values and
    tuples of them. It decides the tiebreak between versions, the sort inside a Merkle bucket
    and the member order of canonical JSON. */
module Order {

  /** `a` sorts strictly before `b`, code point by code point. */
  predicate StrLess(a: string, b: string) {
    if b == "" then false
    else if a == "" then true
    else a[0] < b[0] || (a[0] == b[0] && StrLess(a[1..], b[1..]))
  }

  lemma {:induction false} StrIrreflexive(a: string)
    ensures !StrLess(a, a)
    decreases |a|
  {
    if a != "" {
      StrIrreflexive(a[1..]);
    }
  }

  lemma {:induction false} StrTransitive(a: string, b: string, c: string)
    requires StrLess(a, b) && StrLess(b, c)
    ensures StrLess(a, c)
    decreases |a|
  {
    if a != "" && a[0] == b[0] && b[0] == c[0] {
      StrTransitive(a[1..], b[1..], c[1..]);
    }
  }

  lemma {:induction false} StrTotal(a: string, b: string)
    ensures a == b || StrLess(a, b) || StrLess(b, a)
    decreases |a|
  {
    if a != "" && b != "" && a[0] == b[0] {
      StrTotal(a[1..], b[1..]);
      assert a == [a[0]] + a[1..] && b == [b[0]] + b[1..];
    }
  }

  /** `i` is where two strings first differ, and `a` has the smaller code point there, or ends. */
  predicate FirstDifference(a: string, b: string, i: nat) {
    i <= |a| && i < |b| && a[..i] == b[..i] && (i == |a| || a[i] < b[i])
  }

  lemma {:induction false} LessAtFirstDifference(a: string, b: string)
    ensures StrLess(a, b) <==> exists i: nat :: FirstDifference(a, b, i)
    decreases |a|
  {
    if a != "" && b != "" && a[0] == b[0] {
      LessAtFirstDifference(a[1..], b[1..]);
      assert a == [a[0]] + a[1..] && b == [b[0]] + b[1..];
      if i: nat :| FirstDifference(a[1..], b[1..], i) { assert FirstDifference(a, b, i + 1); }
      if i: nat :| FirstDifference(a, b, i) { assert i > 0 && FirstDifference(a[1..], b[1..], i - 1); }
    } else if StrLess(a, b) {
      assert FirstDifference(a, b, 0);
    }
  }

  lemma StrAsymmetric(a: string, b: string)
    requires StrLess(a, b)
    ensures !StrLess(b, a) && a != b
  {
    StrIrreflexive(a);
    if StrLess(b, a) {
      StrTransitive(a, b, a);
    }
  }
}
