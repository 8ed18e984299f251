/** JSON values, their canonical text, and when two values are the same. */
module Json {
  import opened Envelope
  import opened Order
  import opened Decimal
  import opened FloatText
  import opened NumberText
  import opened JsonString

  datatype Pair<T> = Pair(key: string, value: T)

  /** An object keeps its members in insertion order. */
  datatype Json =
    | Null
    | Bool(b: bool)
    | Num(num: Number)
    | Str(text: string)
    | Arr(items: seq<Json>)
    | Obj(members: seq<Pair<Json>>)

  // ---- member order ----

  function Insert<T>(p: Pair<T>, s: seq<Pair<T>>): seq<Pair<T>> {
    if s == [] then [p] else if StrLess(p.key, s[0].key) then [p] + s else [s[0]] + Insert(p, s[1..])
  }

  /** What collecting the members into a B-tree keyed by name yields. */
  function SortByKey<T>(s: seq<Pair<T>>): seq<Pair<T>> {
    if s == [] then [] else Insert(s[0], SortByKey(s[1..]))
  }

  predicate DistinctKeys<T(!new)>(s: seq<Pair<T>>) {
    forall i, j | 0 <= i < j < |s| :: s[i].key != s[j].key
  }

  predicate Ascending<T(!new)>(s: seq<Pair<T>>) {
    forall i, j | 0 <= i < j < |s| :: StrLess(s[i].key, s[j].key)
  }

  lemma {:induction false} InsertMembers<T>(p: Pair<T>, s: seq<Pair<T>>)
    ensures |Insert(p, s)| == |s| + 1 && multiset(Insert(p, s)) == multiset(s) + multiset{p}
  {
    if s != [] {
      assert s == [s[0]] + s[1..];
      if !StrLess(p.key, s[0].key) { InsertMembers(p, s[1..]); }
    }
  }

  /** Sorting keeps the members. */
  lemma {:induction false} SortMembers<T>(s: seq<Pair<T>>)
    ensures |SortByKey(s)| == |s| && multiset(SortByKey(s)) == multiset(s)
  {
    if s != [] {
      assert s == [s[0]] + s[1..];
      SortMembers(s[1..]);
      InsertMembers(s[0], SortByKey(s[1..]));
    }
  }

  lemma SortSameMembers<T>(s: seq<Pair<T>>, p: Pair<T>)
    ensures p in SortByKey(s) <==> p in s
  {
    SortMembers(s);
    assert p in multiset(SortByKey(s)) <==> p in multiset(s);
  }

  lemma {:induction false} InsertAscending<T(!new)>(p: Pair<T>, s: seq<Pair<T>>)
    requires Ascending(s) && forall q | q in s :: q.key != p.key
    ensures Ascending(Insert(p, s))
  {
    if s != [] {
      var rest := s[1..];
      if StrLess(p.key, s[0].key) {
        forall j | 0 <= j < |s| ensures StrLess(p.key, s[j].key) {
          if j > 0 { StrTransitive(p.key, s[0].key, s[j].key); }
        }
      } else {
        StrTotal(p.key, s[0].key);
        assert s[0] in s;
        InsertAscending(p, rest);
        InsertMembers(p, rest);
        var r := Insert(p, rest);
        forall j | 0 <= j < |r| ensures StrLess(s[0].key, r[j].key) {
          assert r[j] in multiset(r);
          if r[j] != p {
            assert r[j] in rest;
          }
        }
      }
    }
  }

  lemma {:induction false} SortAscending<T(!new)>(s: seq<Pair<T>>)
    requires DistinctKeys(s)
    ensures Ascending(SortByKey(s))
  {
    if s != [] {
      SortAscending(s[1..]);
      forall q | q in SortByKey(s[1..]) ensures q.key != s[0].key {
        SortSameMembers(s[1..], q);
      }
      InsertAscending(s[0], SortByKey(s[1..]));
    }
  }

  /** A strictly ascending list is determined by its members. */
  lemma {:induction false} AscendingUnique<T(!new)>(a: seq<Pair<T>>, b: seq<Pair<T>>)
    requires Ascending(a) && Ascending(b) && (forall p :: p in a <==> p in b)
    ensures a == b
    decreases |a|
  {
    assert b != [] ==> b[0] in b;
    if a != [] {
      assert a[0] in b;
      assert b[0] in a;
      var i :| 0 <= i < |b| && b[i] == a[0];
      var j :| 0 <= j < |a| && a[j] == b[0];
      if i > 0 && j > 0 { StrAsymmetric(a[0].key, a[j].key); }
      assert a[0] == b[0];
      TailsMatch(a, b);
      AscendingUnique(a[1..], b[1..]);
    }
  }

  lemma TailsMatch<T(!new)>(a: seq<Pair<T>>, b: seq<Pair<T>>)
    requires a != [] && b != [] && a[0] == b[0] && Ascending(a) && Ascending(b) && (forall p :: p in a <==> p in b)
    ensures forall p :: p in a[1..] <==> p in b[1..]
  {
    StrIrreflexive(a[0].key);
    assert a[0] !in a[1..] && b[0] !in b[1..];
    assert forall p :: p in a <==> p == a[0] || p in a[1..];
    assert forall p :: p in b <==> p == b[0] || p in b[1..];
  }

  // ---- canonical text ----

  function NumberRepr(n: Number): string {
    match n
    case Int(i) => IntText(i)
    case Float(f) => FloatRepr(f)
  }

  /** `first` and then each of the others behind a comma. */
  function Joined(texts: seq<string>): string {
    if texts == [] then "" else texts[0] + Behind(texts[1..])
  }

  function Behind(texts: seq<string>): string {
    if texts == [] then "" else "," + texts[0] + Behind(texts[1..])
  }

  function MemberText(p: Pair<string>): string {
    StringText(p.key) + ":" + p.value
  }

  function MemberTexts(ps: seq<Pair<string>>): (ts: seq<string>)
    ensures |ts| == |ps|
  {
    if ps == [] then [] else [MemberText(ps[0])] + MemberTexts(ps[1..])
  }

  /** The canonical text: no whitespace, members in key order, at every level. */
  function Text(v: Json): string {
    match v
    case Null => "null"
    case Bool(b) => if b then "true" else "false"
    case Num(n) => NumberRepr(n)
    case Str(t) => StringText(t)
    case Arr(items) => "[" + Joined(ItemTexts(items)) + "]"
    case Obj(members) => "{" + Joined(MemberTexts(SortByKey(ValueTexts(members)))) + "}"
  }

  function ItemTexts(items: seq<Json>): (ts: seq<string>)
    ensures |ts| == |items|
  {
    if items == [] then [] else [Text(items[0])] + ItemTexts(items[1..])
  }

  function ValueTexts(members: seq<Pair<Json>>): (ts: seq<Pair<string>>)
    ensures |ts| == |members|
  {
    if members == [] then [] else [Pair(members[0].key, Text(members[0].value))] + ValueTexts(members[1..])
  }

  // ---- values with a canonical text ----

  predicate PrintableNumber(n: Number) {
    n.Float? ==> !n.f.NonFinite?
  }

  /** No number is infinite or NaN, at any level. */
  predicate Printable(v: Json) {
    match v
    case Num(n) => PrintableNumber(n)
    case Arr(items) => forall i {:trigger Printable(items[i])} | 0 <= i < |items| :: Printable(items[i])
    case Obj(members) =>
      forall i {:trigger Printable(members[i].value)} | 0 <= i < |members| :: Printable(members[i].value)
    case _ => true
  }

  /** What every JSON value satisfies: a name occurs once in an object, a float is spelled in
      scientific notation. */
  predicate Proper(v: Json) {
    match v
    case Num(n) => n.Float? ==> Spelled(n.f)
    case Arr(items) => forall i {:trigger Proper(items[i])} | 0 <= i < |items| :: Proper(items[i])
    case Obj(members) =>
      && DistinctKeys(members)
      && forall i {:trigger Proper(members[i].value)} | 0 <= i < |members| :: Proper(members[i].value)
    case _ => true
  }

  // ---- the same value ----

  function Lookup(members: seq<Pair<Json>>, key: string): Option<Json> {
    if members == [] then None
    else if members[0].key == key then Some(members[0].value)
    else Lookup(members[1..], key)
  }

  predicate SameNumber(a: Number, b: Number) {
    match a
    case Int(i) => b == Int(i)
    case Float(f) => b.Float? && Normalised(f) == Normalised(b.f)
  }

  /** Equality of JSON values: arrays item by item, objects as maps from names to values. */
  predicate Same(a: Json, b: Json) {
    match a
    case Num(n) => b.Num? && SameNumber(n, b.num)
    case Arr(items) => b.Arr? && SameItems(items, b.items)
    case Obj(members) => b.Obj? && |members| == |b.members| && SameMembers(members, b.members)
    case _ => a == b
  }

  predicate SameItems(a: seq<Json>, b: seq<Json>) {
    if a == [] then b == [] else b != [] && Same(a[0], b[0]) && SameItems(a[1..], b[1..])
  }

  /** Every name of `a` has the same value in `b`. */
  predicate SameMembers(a: seq<Pair<Json>>, b: seq<Pair<Json>>) {
    a == [] ||
    (&& Lookup(b, a[0].key).Some? && Same(a[0].value, Lookup(b, a[0].key).value)
     && SameMembers(a[1..], b))
  }

  // ---- the canonical representative ----

  function CanonicalNumber(n: Number): Number {
    if n.Float? then Float(Normalised(n.f)) else n
  }

  /** Members in key order and floats without zeros at the end, at every level. */
  function Canonical(v: Json): Json {
    match v
    case Num(n) => Num(CanonicalNumber(n))
    case Arr(items) => Arr(CanonicalItems(items))
    case Obj(members) => Obj(SortByKey(CanonicalMembers(members)))
    case _ => v
  }

  function CanonicalItems(items: seq<Json>): (cs: seq<Json>)
    ensures |cs| == |items|
  {
    if items == [] then [] else [Canonical(items[0])] + CanonicalItems(items[1..])
  }

  function CanonicalMembers(members: seq<Pair<Json>>): (cs: seq<Pair<Json>>)
    ensures |cs| == |members|
  {
    if members == [] then [] else [Pair(members[0].key, Canonical(members[0].value))] + CanonicalMembers(members[1..])
  }

  lemma {:induction false} MemberTextAt(ps: seq<Pair<string>>, i: nat)
    requires i < |ps|
    ensures MemberTexts(ps)[i] == MemberText(ps[i])
  {
    if i > 0 { MemberTextAt(ps[1..], i - 1); }
  }

  lemma {:induction false} ItemTextAt(items: seq<Json>, i: nat)
    requires i < |items|
    ensures ItemTexts(items)[i] == Text(items[i]) && CanonicalItems(items)[i] == Canonical(items[i])
  {
    if i > 0 { ItemTextAt(items[1..], i - 1); }
  }

  lemma {:induction false} MemberAt(members: seq<Pair<Json>>, i: nat)
    requires i < |members|
    ensures ValueTexts(members)[i] == Pair(members[i].key, Text(members[i].value))
    ensures CanonicalMembers(members)[i] == Pair(members[i].key, Canonical(members[i].value))
  {
    if i > 0 { MemberAt(members[1..], i - 1); }
  }

  lemma MembersAt(members: seq<Pair<Json>>)
    ensures forall i | 0 <= i < |members| :: ValueTexts(members)[i] == Pair(members[i].key, Text(members[i].value))
    ensures forall i | 0 <= i < |members| ::
              CanonicalMembers(members)[i] == Pair(members[i].key, Canonical(members[i].value))
  {
    forall i | 0 <= i < |members|
      ensures ValueTexts(members)[i] == Pair(members[i].key, Text(members[i].value))
      ensures CanonicalMembers(members)[i] == Pair(members[i].key, Canonical(members[i].value))
    {
      MemberAt(members, i);
    }
  }

  predicate Prints(v: Json, text: string) {
    Text(v) == text
  }

  // ---- sorting commutes with rewriting the values ----

  predicate Aligned<A(!new), B(!new)>(x: seq<Pair<A>>, y: seq<Pair<B>>, r: (A, B) -> bool) {
    |x| == |y| && forall i | 0 <= i < |x| :: x[i].key == y[i].key && r(x[i].value, y[i].value)
  }

  lemma {:induction false} InsertAligned<A(!new), B(!new)>(
      p: Pair<A>, q: Pair<B>, x: seq<Pair<A>>, y: seq<Pair<B>>, r: (A, B) -> bool)
    requires p.key == q.key && r(p.value, q.value) && Aligned(x, y, r)
    ensures Aligned(Insert(p, x), Insert(q, y), r)
  {
    if x != [] && !StrLess(p.key, x[0].key) {
      InsertAligned(p, q, x[1..], y[1..], r);
    }
  }

  lemma {:induction false} SortAligned<A(!new), B(!new)>(x: seq<Pair<A>>, y: seq<Pair<B>>, r: (A, B) -> bool)
    requires Aligned(x, y, r)
    ensures Aligned(SortByKey(x), SortByKey(y), r)
  {
    if x != [] {
      SortAligned(x[1..], y[1..], r);
      InsertAligned(x[0], y[0], SortByKey(x[1..]), SortByKey(y[1..]), r);
    }
  }
}
