/** The canonical printer: recursive writers that append to one buffer. */
module CanonicalJson {
  import opened FloatText
  import opened Decimal
  import opened NumberText
  import opened JsonString
  import opened Json
  import opened Order

  class Buffer {
    var text: string

    constructor ()
      ensures text == ""
    {
      text := "";
    }

    method Push(s: string)
      modifies this
      ensures text == old(text) + s
    {
      text := text + s;
    }
  }

  // ---- termination: writers recurse on smaller values ----

  function Size(v: Json): nat {
    match v
    case Arr(items) => 1 + ItemsSize(items)
    case Obj(members) => 1 + MembersSize(members)
    case _ => 1
  }

  function ItemsSize(items: seq<Json>): nat {
    if items == [] then 0 else Size(items[0]) + ItemsSize(items[1..])
  }

  function MembersSize(members: seq<Pair<Json>>): nat {
    if members == [] then 0 else Size(members[0].value) + MembersSize(members[1..])
  }

  lemma {:induction false} ItemFits(items: seq<Json>, i: nat)
    requires i < |items|
    ensures Size(items[i]) <= ItemsSize(items)
  {
    if i > 0 { ItemFits(items[1..], i - 1); }
  }

  lemma {:induction false} MemberFits(members: seq<Pair<Json>>, i: nat)
    requires i < |members|
    ensures Size(members[i].value) <= MembersSize(members)
  {
    if i > 0 { MemberFits(members[1..], i - 1); }
  }

  // ---- one item or member at a time ----

  predicate ItemsPrintable(items: seq<Json>) {
    items == [] || (Printable(items[0]) && ItemsPrintable(items[1..]))
  }

  predicate MembersPrintable(members: seq<Pair<Json>>) {
    members == [] || (Printable(members[0].value) && MembersPrintable(members[1..]))
  }

  predicate AllProper(members: seq<Pair<Json>>) {
    forall i {:trigger Proper(members[i].value)} | 0 <= i < |members| :: Proper(members[i].value)
  }

  lemma {:induction false} AllItemsPrintable(items: seq<Json>)
    ensures Printable(Arr(items)) == ItemsPrintable(items)
    ensures items[0..] == items
  {
    if items != [] {
      AllItemsPrintable(items[1..]);
      assert forall i {:trigger Printable(items[1..][i])} | 0 <= i < |items| - 1 ::
          Printable(items[1..][i]) == Printable(items[i + 1]);
      assert Printable(Arr(items)) ==> forall i | 0 <= i < |items| :: Printable(items[i]);
      assert Printable(Arr(items[1..])) && Printable(items[0]) ==> Printable(Arr(items)) by {
        if Printable(Arr(items[1..])) && Printable(items[0]) {
          forall i | 0 <= i < |items| ensures Printable(items[i]) {
            if i > 0 { assert items[1..][i - 1] == items[i] && Printable(items[1..][i - 1]); }
          }
        }
      }
    }
  }

  lemma {:induction false} AllMembersPrintable(members: seq<Pair<Json>>)
    ensures (forall i | 0 <= i < |members| :: Printable(members[i].value)) <==> MembersPrintable(members)
  {
    if members != [] {
      AllMembersPrintable(members[1..]);
      assert (forall i | 0 <= i < |members| :: Printable(members[i].value)) ==>
             forall i | 0 <= i < |members| - 1 :: members[1..][i] == members[i + 1] && Printable(members[1..][i].value);
      if Printable(members[0].value) && MembersPrintable(members[1..]) {
        forall i | 0 <= i < |members| ensures Printable(members[i].value) {
          if i > 0 { assert members[1..][i - 1] == members[i]; }
        }
      }
    }
  }

  lemma NextItem(items: seq<Json>, i: nat)
    requires Proper(Arr(items)) && i < |items|
    ensures Proper(items[i]) && Size(items[i]) <= ItemsSize(items) && ItemTexts(items)[i] == Text(items[i])
    ensures ItemsPrintable(items[i..]) == (Printable(items[i]) && ItemsPrintable(items[i + 1..]))
  {
    ItemFits(items, i);
    ItemTextAt(items, i);
    assert items[i..][1..] == items[i + 1..];
  }

  lemma NextMember(members: seq<Pair<Json>>, i: nat)
    requires AllProper(members) && i < |members|
    ensures Proper(members[i].value) && Size(members[i].value) <= MembersSize(members)
    ensures MemberTexts(ValueTexts(members))[i] == MemberText(Pair(members[i].key, Text(members[i].value)))
    ensures MembersPrintable(members[i..]) == (Printable(members[i].value) && MembersPrintable(members[i + 1..]))
  {
    MemberFits(members, i);
    MemberAt(members, i);
    MemberTextAt(ValueTexts(members), i);
    assert members[i..][1..] == members[i + 1..];
  }

  lemma {:induction false} InsertSize(p: Pair<Json>, s: seq<Pair<Json>>)
    ensures MembersSize(Insert(p, s)) == Size(p.value) + MembersSize(s)
  {
    if s != [] && !StrLess(p.key, s[0].key) {
      InsertSize(p, s[1..]);
    } else {
      assert ([p] + s)[1..] == s;
    }
  }

  lemma {:induction false} SortedSize(members: seq<Pair<Json>>)
    ensures MembersSize(SortByKey(members)) == MembersSize(members)
  {
    if members != [] {
      SortedSize(members[1..]);
      InsertSize(members[0], SortByKey(members[1..]));
    }
  }

  /** The sorted members are the members. */
  lemma SortedFits(members: seq<Pair<Json>>)
    requires Proper(Obj(members))
    ensures AllProper(SortByKey(members)) && MembersSize(SortByKey(members)) == MembersSize(members)
    ensures MembersPrintable(SortByKey(members)) == Printable(Obj(members))
  {
    var sorted := SortByKey(members);
    SortedSize(members);
    forall i | 0 <= i < |sorted| ensures Proper(sorted[i].value) {
      SortSameMembers(members, sorted[i]);
      var j :| 0 <= j < |members| && members[j] == sorted[i];
    }
    SortedPrintable(members);
    AllMembersPrintable(sorted);
  }

  /** One item, behind a comma unless it is the first. */
  function Piece(comma: bool, text: string): string {
    if comma then "," + text else text
  }

  /** What the buffer holds after the first `i` items. */
  function Upto(head: string, texts: seq<string>, i: nat): string
    requires i <= |texts|
  {
    if i == 0 then head else Upto(head, texts, i - 1) + Piece(i > 1, texts[i - 1])
  }

  // ---- the writers ----

  method WriteString(text: string, out: Buffer)
    modifies out
    ensures out.text == old(out.text) + StringText(text)
  {
    var escaped := "";
    for i := 0 to |text|
      invariant escaped == Escaped(text[..i]) && out.text == old(out.text)
    {
      EscapedMore(text, i);
      escaped := escaped + EscapeChar(text[i]);
    }
    assert text[..|text|] == text;
    out.Push("\"" + escaped + "\"");
  }

  method WriteNumber(n: Number, out: Buffer) returns (ok: bool)
    requires n.Float? ==> Spelled(n.f)
    modifies out
    ensures ok == PrintableNumber(n)
    ensures ok ==> out.text == old(out.text) + NumberRepr(n)
  {
    if n.Int? {
      out.Push(IntText(n.n));
      return true;
    }
    var repr;
    ok, repr := PythonFloatRepr(n.f);
    if ok {
      out.Push(repr);
    }
  }

  /** Appends the canonical text of the value; fails exactly when a number in it has none. */
  method WriteValue(v: Json, out: Buffer) returns (ok: bool)
    requires Proper(v)
    modifies out
    ensures ok == Printable(v)
    ensures ok ==> out.text == old(out.text) + Text(v)
    decreases Size(v), 1
  {
    match v {
      case Null => out.Push("null"); ok := true;
      case Bool(b) => out.Push(if b then "true" else "false"); ok := true;
      case Num(n) => ok := WriteNumber(n, out);
      case Str(t) => WriteString(t, out); ok := true;
      case Arr(items) => ok := WriteArray(items, out);
      case Obj(members) => ok := WriteObject(members, out);
    }
  }

  method WriteArray(items: seq<Json>, out: Buffer) returns (ok: bool)
    requires Proper(Arr(items))
    modifies out
    ensures ok == Printable(Arr(items))
    ensures ok ==> out.text == old(out.text) + Text(Arr(items))
    decreases Size(Arr(items)), 0
  {
    ghost var before := out.text;
    out.Push("[");
    ok := WriteItems(items, out);
    if ok {
      AllWritten(before, "[", ItemTexts(items), "]");
      out.Push("]");
    }
  }

  method WriteItems(items: seq<Json>, out: Buffer) returns (ok: bool)
    requires Proper(Arr(items))
    modifies out
    ensures ok == Printable(Arr(items))
    ensures ok ==> out.text == Upto(old(out.text), ItemTexts(items), |items|)
    decreases ItemsSize(items), 3
  {
    ghost var head, texts, all := out.text, ItemTexts(items), Printable(Arr(items));
    AllItemsPrintable(items);
    for i := 0 to |items|
      invariant out.text == Upto(head, texts, i)
      invariant all == ItemsPrintable(items[i..])
    {
      NextItem(items, i);
      ok := WriteItem(i > 0, items[i], out);
      if !ok { return; }
    }
    ok := true;
  }

  method WriteItem(comma: bool, v: Json, out: Buffer) returns (ok: bool)
    requires Proper(v)
    modifies out
    ensures ok == Printable(v)
    ensures ok ==> out.text == old(out.text) + Piece(comma, Text(v))
    decreases Size(v), 2
  {
    ghost var before := out.text;
    if comma {
      out.Push(",");
    }
    ok := WriteValue(v, out);
    Assoc(before, ",", Text(v));
  }

  method WriteObject(members: seq<Pair<Json>>, out: Buffer) returns (ok: bool)
    requires Proper(Obj(members))
    modifies out
    ensures ok == Printable(Obj(members))
    ensures ok ==> out.text == old(out.text) + Text(Obj(members))
    decreases Size(Obj(members)), 0
  {
    var sorted := SortByKey(members);
    ghost var before := out.text;
    SortedTexts(members);
    SortedFits(members);
    out.Push("{");
    ok := WriteMembers(sorted, out);
    if ok {
      AllWritten(before, "{", MemberTexts(ValueTexts(sorted)), "}");
      out.Push("}");
    }
  }

  method WriteMembers(sorted: seq<Pair<Json>>, out: Buffer) returns (ok: bool)
    requires AllProper(sorted)
    modifies out
    ensures ok == MembersPrintable(sorted)
    ensures ok ==> out.text == Upto(old(out.text), MemberTexts(ValueTexts(sorted)), |sorted|)
    decreases MembersSize(sorted), 3
  {
    ghost var head, texts, all := out.text, MemberTexts(ValueTexts(sorted)), MembersPrintable(sorted);
    var first := true;
    assert sorted[0..] == sorted;
    for i := 0 to |sorted|
      invariant first == (i == 0)
      invariant out.text == Upto(head, texts, i)
      invariant all == MembersPrintable(sorted[i..])
    {
      NextMember(sorted, i);
      ok := WriteMember(!first, sorted[i], out);
      if !ok { return; }
      first := false;
    }
    ok := true;
  }

  /** `"name":value`, behind a comma unless it is the first. */
  method WriteMember(comma: bool, p: Pair<Json>, out: Buffer) returns (ok: bool)
    requires Proper(p.value)
    modifies out
    ensures ok == Printable(p.value)
    ensures ok ==> out.text == old(out.text) + Piece(comma, MemberText(Pair(p.key, Text(p.value))))
    decreases Size(p.value), 2
  {
    ghost var before := out.text;
    if comma {
      out.Push(",");
    }
    ghost var start := out.text;
    WriteString(p.key, out);
    out.Push(":");
    ok := WriteValue(p.value, out);
    FourParts(start, StringText(p.key), ":", Text(p.value));
    Assoc(before, ",", MemberText(Pair(p.key, Text(p.value))));
  }

  /** The canonical text of an object, or an error when a number is not finite. */
  method CanonicalText(members: seq<Pair<Json>>) returns (ok: bool, text: string)
    requires Proper(Obj(members))
    ensures ok == Printable(Obj(members))
    ensures ok ==> text == Text(Obj(members))
  {
    var out := new Buffer();
    ok := WriteObject(members, out);
    text := out.text;
    assert "" + Text(Obj(members)) == Text(Obj(members));
  }

  // ---- helpers ----

  lemma {:induction false} EscapedAppend(a: string, b: string)
    ensures Escaped(a + b) == Escaped(a) + Escaped(b)
    decreases |a|
  {
    if a == "" {
      assert a + b == b;
    } else {
      assert (a + b)[1..] == a[1..] + b;
      EscapedAppend(a[1..], b);
    }
  }

  lemma EscapedMore(text: string, i: nat)
    requires i < |text|
    ensures Escaped(text[..i + 1]) == Escaped(text[..i]) + EscapeChar(text[i])
  {
    assert text[..i + 1] == text[..i] + [text[i]];
    EscapedAppend(text[..i], [text[i]]);
  }

  lemma {:induction false} BehindAppend(texts: seq<string>, last: string)
    ensures Behind(texts + [last]) == Behind(texts) + ("," + last)
    decreases |texts|
  {
    if texts == [] {
      assert (texts + [last])[1..] == [];
    } else {
      assert (texts + [last])[1..] == texts[1..] + [last];
      BehindAppend(texts[1..], last);
      Assoc("," + texts[0], Behind(texts[1..]), "," + last);
    }
  }

  lemma JoinedMore(head: string, texts: seq<string>, i: nat)
    requires i < |texts|
    ensures head + Joined(texts[..i + 1]) == head + Joined(texts[..i]) + Piece(i > 0, texts[i])
  {
    var front := texts[..i];
    assert texts[..i + 1] == front + [texts[i]];
    var piece := Piece(i > 0, texts[i]);
    if i > 0 {
      assert (front + [texts[i]])[1..] == front[1..] + [texts[i]];
      BehindAppend(front[1..], texts[i]);
      Assoc(front[0], Behind(front[1..]), piece);
    } else {
      assert texts[..1][1..] == [];
      assert Joined(texts[..1]) == Joined(texts[..0]) + piece;
    }
    Assoc(head, Joined(front), piece);
  }

  lemma {:induction false} UptoIsJoined(head: string, texts: seq<string>, i: nat)
    requires i <= |texts|
    ensures Upto(head, texts, i) == head + Joined(texts[..i])
  {
    if i > 0 {
      UptoIsJoined(head, texts, i - 1);
      JoinedMore(head, texts, i - 1);
    } else {
      assert Joined(texts[..0]) == "" && head + "" == head;
    }
  }

  lemma AllWritten(before: string, open: string, texts: seq<string>, close: string)
    ensures Upto(before + open, texts, |texts|) + close == before + (open + Joined(texts) + close)
  {
    UptoIsJoined(before + open, texts, |texts|);
    assert texts[..|texts|] == texts;
    Assoc(before, open, Joined(texts));
    Assoc(before, open + Joined(texts), close);
  }

  lemma FourParts(a: string, b: string, c: string, d: string)
    ensures a + b + c + d == a + (b + c + d)
  {
    Assoc(a, b, c);
    Assoc(a, b + c, d);
  }

  /** Sorting the members and printing them is printing the members and sorting them. */
  lemma SortedTexts(members: seq<Pair<Json>>)
    ensures ValueTexts(SortByKey(members)) == SortByKey(ValueTexts(members))
  {
    MembersAt(members);
    SortAligned(members, ValueTexts(members), Prints);
    var sorted, texts := SortByKey(members), SortByKey(ValueTexts(members));
    forall i | 0 <= i < |sorted| ensures ValueTexts(sorted)[i] == texts[i] {
      MemberAt(sorted, i);
      assert Prints(sorted[i].value, texts[i].value);
    }
  }

  lemma SortedPrintable(members: seq<Pair<Json>>)
    ensures (forall i | 0 <= i < |SortByKey(members)| :: Printable(SortByKey(members)[i].value)) <==>
              Printable(Obj(members))
  {
    var sorted := SortByKey(members);
    forall i | 0 <= i < |members| ensures members[i] in sorted { SortSameMembers(members, members[i]); }
    forall i | 0 <= i < |sorted| ensures sorted[i] in members { SortSameMembers(members, sorted[i]); }
  }
}
