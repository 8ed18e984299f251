/** Canonical text identifies a JSON value: two values print alike exactly when they are equal. */
module JsonSame {
  import opened Envelope
  import opened Order
  import opened FloatText
  import opened NumberText
  import opened JsonString
  import opened Json
  import opened JsonParser

  // ---- looking up members ----

  function Keys<T>(s: seq<Pair<T>>): set<string> {
    set i | 0 <= i < |s| :: s[i].key
  }

  lemma {:induction false} LookupFinds(members: seq<Pair<Json>>, i: nat)
    requires DistinctKeys(members) && i < |members|
    ensures Lookup(members, members[i].key) == Some(members[i].value)
  {
    if i > 0 { LookupFinds(members[1..], i - 1); }
  }

  lemma {:induction false} LookupIsMember(members: seq<Pair<Json>>, key: string) returns (i: nat)
    requires Lookup(members, key).Some?
    ensures i < |members| && members[i] == Pair(key, Lookup(members, key).value)
  {
    if members[0].key == key {
      i := 0;
    } else {
      var j := LookupIsMember(members[1..], key);
      i := j + 1;
    }
  }

  lemma {:induction false} KeyCount<T(!new)>(s: seq<Pair<T>>)
    requires DistinctKeys(s)
    ensures |Keys(s)| == |s|
  {
    if s != [] {
      KeyCount(s[1..]);
      assert Keys(s) == Keys(s[1..]) + {s[0].key};
      forall i | 0 <= i < |s[1..]| ensures s[1..][i].key != s[0].key { assert s[1..][i] == s[i + 1]; }
    }
  }

  lemma SubsetOfSameSize(a: set<string>, b: set<string>)
    requires a <= b && |a| == |b|
    ensures a == b
  {
    assert |b - a| == |b| - |a|;
  }

  /** Names of one object all occur in the other; both have as many; so they have the same names. */
  lemma SameNames(a: seq<Pair<Json>>, b: seq<Pair<Json>>)
    requires DistinctKeys(a) && DistinctKeys(b) && |a| == |b|
    requires forall i | 0 <= i < |a| :: Lookup(b, a[i].key).Some?
    ensures Keys(a) == Keys(b)
  {
    forall k | k in Keys(a) ensures k in Keys(b) {
      var i :| 0 <= i < |a| && a[i].key == k;
      var j := LookupIsMember(b, k);
      assert b[j].key == k;
    }
    KeyCount(a);
    KeyCount(b);
    SubsetOfSameSize(Keys(a), Keys(b));
  }

  // ---- objects as maps from names to values ----

  predicate SameEntry(a: Option<Json>, b: Option<Json>) {
    match a
    case None => b.None?
    case Some(x) => b.Some? && Same(x, b.value)
  }

  ghost predicate SameEntries(a: seq<Pair<Json>>, b: seq<Pair<Json>>) {
    forall k :: SameEntry(Lookup(a, k), Lookup(b, k))
  }

  /** Two objects are equal exactly when every name leads to the same value, or to none, in both. */
  lemma SameByNames(a: seq<Pair<Json>>, b: seq<Pair<Json>>)
    requires DistinctKeys(a) && DistinctKeys(b)
    ensures Same(Obj(a), Obj(b)) <==> SameEntries(a, b)
  {
    if Same(Obj(a), Obj(b)) {
      forall i | 0 <= i < |a| ensures Lookup(b, a[i].key).Some? { SameMembersMeans(a, b, i); }
      SameNames(a, b);
      forall k ensures SameEntry(Lookup(a, k), Lookup(b, k)) { SameEntryByName(a, b, k); }
    }
    if SameEntries(a, b) { SameFromEntries(a, b); }
  }

  lemma SameEntryByName(a: seq<Pair<Json>>, b: seq<Pair<Json>>, k: string)
    requires DistinctKeys(a) && SameMembers(a, b) && Keys(a) == Keys(b)
    ensures SameEntry(Lookup(a, k), Lookup(b, k))
  {
    if Lookup(a, k).Some? {
      var i := LookupIsMember(a, k);
      SameMembersMeans(a, b, i);
    } else if Lookup(b, k).Some? {
      var j := LookupIsMember(b, k);
      assert k in Keys(a);
      var i :| 0 <= i < |a| && a[i].key == k;
      LookupFinds(a, i);
    }
  }

  lemma SameFromEntries(a: seq<Pair<Json>>, b: seq<Pair<Json>>)
    requires DistinctKeys(a) && DistinctKeys(b) && SameEntries(a, b)
    ensures Same(Obj(a), Obj(b))
  {
    forall i | 0 <= i < |a| ensures Lookup(b, a[i].key).Some? && Same(a[i].value, Lookup(b, a[i].key).value) {
      LookupFinds(a, i);
      assert SameEntry(Lookup(a, a[i].key), Lookup(b, a[i].key));
    }
    SameMembersHolds(a, b);
    forall k ensures k in Keys(a) <==> k in Keys(b) {
      NamedIffFound(a, k);
      NamedIffFound(b, k);
      assert SameEntry(Lookup(a, k), Lookup(b, k));
    }
    KeyCount(a);
    KeyCount(b);
    assert Keys(a) == Keys(b);
  }

  lemma NamedIffFound(a: seq<Pair<Json>>, k: string)
    requires DistinctKeys(a)
    ensures k in Keys(a) <==> Lookup(a, k).Some?
  {
    if k in Keys(a) {
      var i :| 0 <= i < |a| && a[i].key == k;
      LookupFinds(a, i);
    }
    if Lookup(a, k).Some? { var i := LookupIsMember(a, k); }
  }

  ghost predicate PrintableEntries(a: seq<Pair<Json>>) {
    forall k | Lookup(a, k).Some? :: Printable(Lookup(a, k).value)
  }

  /** An object can be printed exactly when every value a name leads to can. */
  lemma PrintableByNames(a: seq<Pair<Json>>)
    requires DistinctKeys(a)
    ensures Printable(Obj(a)) <==> PrintableEntries(a)
  {
    if Printable(Obj(a)) {
      forall k | Lookup(a, k).Some? ensures Printable(Lookup(a, k).value) {
        var i := LookupIsMember(a, k);
        assert Printable(a[i].value);
      }
    }
    if PrintableEntries(a) {
      forall i | 0 <= i < |a| ensures Printable(a[i].value) {
        LookupFinds(a, i);
        assert Lookup(a, a[i].key).Some?;
      }
    }
  }

  // ---- same value, same canonical form ----

  lemma {:induction false} SameMembersMeans(a: seq<Pair<Json>>, b: seq<Pair<Json>>, i: nat)
    requires SameMembers(a, b) && i < |a|
    ensures Lookup(b, a[i].key).Some? && Same(a[i].value, Lookup(b, a[i].key).value)
  {
    if i > 0 { SameMembersMeans(a[1..], b, i - 1); }
  }

  lemma {:induction false} SameMembersHolds(a: seq<Pair<Json>>, b: seq<Pair<Json>>)
    requires forall i | 0 <= i < |a| :: Lookup(b, a[i].key).Some? && Same(a[i].value, Lookup(b, a[i].key).value)
    ensures SameMembers(a, b)
  {
    if a != [] {
      assert Lookup(b, a[0].key).Some?;
      forall i | 0 <= i < |a[1..]|
        ensures Lookup(b, a[1..][i].key).Some? && Same(a[1..][i].value, Lookup(b, a[1..][i].key).value)
      {
        assert a[1..][i] == a[i + 1];
      }
      SameMembersHolds(a[1..], b);
    }
  }

  lemma {:induction false} SameItemsMeans(a: seq<Json>, b: seq<Json>)
    ensures SameItems(a, b) <==> |a| == |b| && forall i | 0 <= i < |a| :: Same(a[i], b[i])
  {
    if a != [] && b != [] {
      SameItemsMeans(a[1..], b[1..]);
      assert |a| == |b| ==> forall i | 0 < i < |a| :: a[i] == a[1..][i - 1] && b[i] == b[1..][i - 1];
    }
  }

  /** Objects with the same members, in whatever order, sort to the same list. */
  lemma SortedAlike<T(!new)>(a: seq<Pair<T>>, b: seq<Pair<T>>)
    requires DistinctKeys(a) && DistinctKeys(b) && forall p :: p in a <==> p in b
    ensures SortByKey(a) == SortByKey(b)
  {
    forall p ensures p in SortByKey(a) <==> p in SortByKey(b) {
      SortSameMembers(a, p);
      SortSameMembers(b, p);
    }
    SortAscending(a);
    SortAscending(b);
    AscendingUnique(SortByKey(a), SortByKey(b));
  }

  lemma {:induction false} SameIsCanonical(a: Json, b: Json)
    requires Proper(a) && Proper(b)
    ensures Same(a, b) <==> Canonical(a) == Canonical(b)
    decreases a
  {
    match a
    case Arr(items) =>
      if b.Arr? { ItemsCanonical(items, b.items); }
    case Obj(members) =>
      if b.Obj? { MembersCanonical(members, b.members); }
    case _ =>
  }

  lemma {:induction false} ItemsCanonical(a: seq<Json>, b: seq<Json>)
    requires (forall i | 0 <= i < |a| :: Proper(a[i])) && (forall i | 0 <= i < |b| :: Proper(b[i]))
    ensures SameItems(a, b) <==> CanonicalItems(a) == CanonicalItems(b)
    decreases a
  {
    SameItemsMeans(a, b);
    if |a| == |b| {
      forall i | 0 <= i < |a| ensures Same(a[i], b[i]) <==> Canonical(a[i]) == Canonical(b[i]) {
        SameIsCanonical(a[i], b[i]);
      }
      forall i | 0 <= i < |a|
        ensures CanonicalItems(a)[i] == Canonical(a[i]) && CanonicalItems(b)[i] == Canonical(b[i])
      {
        ItemTextAt(a, i);
        ItemTextAt(b, i);
      }
      assert (forall i | 0 <= i < |a| :: CanonicalItems(a)[i] == CanonicalItems(b)[i]) <==>
             CanonicalItems(a) == CanonicalItems(b);
    }
  }

  lemma {:induction false} MembersCanonical(a: seq<Pair<Json>>, b: seq<Pair<Json>>)
    requires DistinctKeys(a) && DistinctKeys(b)
    requires (forall i | 0 <= i < |a| :: Proper(a[i].value)) && (forall i | 0 <= i < |b| :: Proper(b[i].value))
    ensures (|a| == |b| && SameMembers(a, b)) <==> SortByKey(CanonicalMembers(a)) == SortByKey(CanonicalMembers(b))
    decreases a
  {
    forall i, j | 0 <= i < |a| && 0 <= j < |b|
      ensures Same(a[i].value, b[j].value) <==> Canonical(a[i].value) == Canonical(b[j].value)
    {
      SameIsCanonical(a[i].value, b[j].value);
    }
    if |a| == |b| && SameMembers(a, b) { SameSortAlike(a, b); }
    if SortByKey(CanonicalMembers(a)) == SortByKey(CanonicalMembers(b)) { SortAlikeSame(a, b); }
  }

  predicate PairwiseCanonical(a: seq<Pair<Json>>, b: seq<Pair<Json>>) {
    forall i, j | 0 <= i < |a| && 0 <= j < |b| ::
      Same(a[i].value, b[j].value) <==> Canonical(a[i].value) == Canonical(b[j].value)
  }

  lemma SameSortAlike(a: seq<Pair<Json>>, b: seq<Pair<Json>>)
    requires DistinctKeys(a) && DistinctKeys(b) && PairwiseCanonical(a, b) && |a| == |b| && SameMembers(a, b)
    ensures SortByKey(CanonicalMembers(a)) == SortByKey(CanonicalMembers(b))
  {
    var ca, cb := CanonicalMembers(a), CanonicalMembers(b);
    MembersAt(a);
    MembersAt(b);
    forall i | 0 <= i < |a| ensures Lookup(b, a[i].key).Some? && ca[i] in cb {
      SameMembersMeans(a, b, i);
      var j := LookupIsMember(b, a[i].key);
      assert ca[i] == cb[j];
    }
    SameNames(a, b);
    forall j | 0 <= j < |b| ensures cb[j] in ca {
      assert b[j].key in Keys(a);
      var i :| 0 <= i < |a| && a[i].key == b[j].key;
      SameMembersMeans(a, b, i);
      LookupFinds(b, j);
      assert ca[i] == cb[j];
    }
    SortedAlike(ca, cb);
  }

  lemma SortAlikeSame(a: seq<Pair<Json>>, b: seq<Pair<Json>>)
    requires DistinctKeys(b) && PairwiseCanonical(a, b)
    requires SortByKey(CanonicalMembers(a)) == SortByKey(CanonicalMembers(b))
    ensures |a| == |b| && SameMembers(a, b)
  {
    var ca, cb := CanonicalMembers(a), CanonicalMembers(b);
    MembersAt(a);
    MembersAt(b);
    SortMembers(ca);
    SortMembers(cb);
    forall i | 0 <= i < |a| ensures Lookup(b, a[i].key).Some? && Same(a[i].value, Lookup(b, a[i].key).value) {
      SortSameMembers(ca, ca[i]);
      SortSameMembers(cb, ca[i]);
      var j :| 0 <= j < |cb| && cb[j] == ca[i];
      LookupFinds(b, j);
    }
    SameMembersHolds(a, b);
  }

  // ---- the text identifies the value ----

  /** Texts of values with the same canonical form are equal: the sort of the texts is the sort of
      the members, whose values print like their canonical forms. */
  lemma {:induction false} TextOfCanonical(v: Json)
    requires Proper(v)
    ensures Text(Canonical(v)) == Text(v)
    decreases v
  {
    match v
    case Num(n) =>
      if n.Float? { NormalisedIsNormal(n.f); }
    case Arr(items) =>
      forall i | 0 <= i < |items| ensures ItemTexts(CanonicalItems(items))[i] == ItemTexts(items)[i] {
        TextOfCanonical(items[i]);
        ItemTextAt(items, i);
        ItemTextAt(CanonicalItems(items), i);
      }
      assert ItemTexts(CanonicalItems(items)) == ItemTexts(items);
    case Obj(members) =>
      forall i | 0 <= i < |members| ensures Text(Canonical(members[i].value)) == Text(members[i].value) {
        TextOfCanonical(members[i].value);
      }
      ObjectTextOfCanonical(members);
    case _ =>
  }

  lemma PrintedTexts(vs: seq<Pair<Json>>, texts: seq<Pair<string>>)
    requires Aligned(vs, texts, Prints)
    ensures ValueTexts(vs) == texts
  {
    forall i | 0 <= i < |vs| ensures ValueTexts(vs)[i] == texts[i] {
      MemberAt(vs, i);
      assert Prints(vs[i].value, texts[i].value);
    }
  }

  lemma ObjectTextOfCanonical(members: seq<Pair<Json>>)
    requires DistinctKeys(members)
    requires forall i | 0 <= i < |members| :: Text(Canonical(members[i].value)) == Text(members[i].value)
    ensures Text(Obj(SortByKey(CanonicalMembers(members)))) == Text(Obj(members))
  {
    var canonical, texts := CanonicalMembers(members), ValueTexts(members);
    MembersAt(members);
    SortAligned(canonical, texts, Prints);
    PrintedTexts(SortByKey(canonical), SortByKey(texts));
    SortAscending(texts);
    SortedAlready(SortByKey(texts));
  }

  /** Sorting an ascending list changes nothing. */
  lemma SortedAlready<T(!new)>(s: seq<Pair<T>>)
    requires Ascending(s)
    ensures SortByKey(s) == s
  {
    forall i, j | 0 <= i < j < |s| ensures s[i].key != s[j].key { StrIrreflexive(s[i].key); }
    SortAscending(s);
    forall p ensures p in SortByKey(s) <==> p in s { SortSameMembers(s, p); }
    AscendingUnique(SortByKey(s), s);
  }

  /** Canonical JSON is injective and blind to insertion order: the texts of two values are equal
      if and only if the values are. */
  lemma TextIdentifiesValue(a: Json, b: Json)
    requires Proper(a) && Proper(b) && Printable(a) && Printable(b)
    ensures Text(a) == Text(b) <==> Same(a, b)
  {
    PrintThenParse(a);
    PrintThenParse(b);
    SameIsCanonical(a, b);
    TextOfCanonical(a);
    TextOfCanonical(b);
  }

  /** In particular, reordering members never shows. */
  lemma KeyOrderBlind(a: seq<Pair<Json>>, b: seq<Pair<Json>>)
    requires DistinctKeys(a) && DistinctKeys(b) && forall p :: p in a <==> p in b
    ensures Text(Obj(a)) == Text(Obj(b))
  {
    MembersAt(a);
    MembersAt(b);
    forall p ensures p in ValueTexts(a) <==> p in ValueTexts(b) {
      if p in ValueTexts(a) { TextsWithin(a, b, p); }
      if p in ValueTexts(b) { TextsWithin(b, a, p); }
    }
    SortedAlike(ValueTexts(a), ValueTexts(b));
  }

  lemma TextsWithin(a: seq<Pair<Json>>, b: seq<Pair<Json>>, p: Pair<string>)
    requires p in ValueTexts(a) && forall q :: q in a ==> q in b
    ensures p in ValueTexts(b)
  {
    MembersAt(a);
    MembersAt(b);
    var i :| 0 <= i < |a| && ValueTexts(a)[i] == p;
    assert a[i] in b;
    var j :| 0 <= j < |b| && b[j] == a[i];
    assert ValueTexts(b)[j] == p;
  }
}
