/** A reader for the JSON grammar of RFC 8259, sections 4 to 7 (no insignificant whitespace), and
    what canonical text reads back as. */
module JsonParser {
  import opened Envelope
  import opened Order
  import opened Decimal
  import opened FloatText
  import opened NumberText
  import opened JsonString
  import opened Json

  // ---- the reader ----

  function ReadLiteral(s: string, word: string, v: Json): (r: Option<(Json, string)>)
    requires word != ""
    ensures r.Some? ==> |r.value.1| < |s|
  {
    if |s| >= |word| && s[..|word|] == word then Some((v, s[|word|..])) else None
  }

  function ReadValue(s: string): (r: Option<(Json, string)>)
    ensures r.Some? ==> |r.value.1| < |s|
    decreases |s|, 0
  {
    if s == "" then None
    else if s[0] == 'n' then ReadLiteral(s, "null", Null)
    else if s[0] == 't' then ReadLiteral(s, "true", Bool(true))
    else if s[0] == 'f' then ReadLiteral(s, "false", Bool(false))
    else if s[0] == '"' then
      var t := ReadString(s[1..]);
      if t.None? then None else Some((Str(t.value.0), t.value.1))
    else if s[0] == '[' then
      if |s| > 1 && s[1] == ']' then Some((Arr([]), s[2..]))
      else
        var items := ReadItems(s[1..]);
        if items.None? then None else Some((Arr(items.value.0), items.value.1))
    else if s[0] == '{' then
      if |s| > 1 && s[1] == '}' then Some((Obj([]), s[2..]))
      else
        var members := ReadMembers(s[1..]);
        if members.None? then None else Some((Obj(members.value.0), members.value.1))
    else ReadNumber(s)
  }

  function ReadNumber(s: string): (r: Option<(Json, string)>)
    ensures r.Some? ==> |r.value.1| < |s|
  {
    var n := ReadNumeral(s);
    if n.None? then None else Some((Num(Meaning(n.value.0)), n.value.1))
  }

  /** One or more items up to the closing bracket. */
  function ReadItems(s: string): (r: Option<(seq<Json>, string)>)
    ensures r.Some? ==> |r.value.1| < |s|
    decreases |s|, 1
  {
    var first := ReadValue(s);
    if first.None? || first.value.1 == "" then None
    else
      var (v, t) := first.value;
      if t[0] == ']' then Some(([v], t[1..]))
      else if t[0] != ',' then None
      else
        var more := ReadItems(t[1..]);
        if more.None? then None else Some(([v] + more.value.0, more.value.1))
  }

  /** `"name":value`. */
  function ReadMember(s: string): (r: Option<(Pair<Json>, string)>)
    ensures r.Some? ==> |r.value.1| < |s|
    decreases |s|, 1
  {
    if s == "" || s[0] != '"' then None
    else
      var key := ReadString(s[1..]);
      if key.None? || key.value.1 == "" || key.value.1[0] != ':' then None
      else
        var v := ReadValue(key.value.1[1..]);
        if v.None? then None else Some((Pair(key.value.0, v.value.0), v.value.1))
  }

  /** One or more members up to the closing brace. */
  function ReadMembers(s: string): (r: Option<(seq<Pair<Json>>, string)>)
    ensures r.Some? ==> |r.value.1| < |s|
    decreases |s|, 2
  {
    var first := ReadMember(s);
    if first.None? || first.value.1 == "" then None
    else
      var (p, t) := first.value;
      if t[0] == '}' then Some(([p], t[1..]))
      else if t[0] != ',' then None
      else
        var more := ReadMembers(t[1..]);
        if more.None? then None else Some(([p] + more.value.0, more.value.1))
  }

  /** A whole text is one value. */
  function Parse(s: string): Option<Json> {
    var r := ReadValue(s);
    if r.Some? && r.value.1 == "" then Some(r.value.0) else None
  }

  // ---- reading canonical text ----

  /** In front of anything that does not continue a number, the text reads as that value. */
  ghost predicate Reads(text: string, v: Json) {
    forall rest | Stops(rest) :: ReadValue(text + rest) == Some((v, rest))
  }

  lemma NumeralStarts(s: string)
    requires ReadNumeral(s).Some?
    ensures s != "" && (s[0] == '-' || IsDigit(s[0]))
  {
  }

  /** Text that reads as a value does not start like the end of an array or an object. */
  lemma ReadsStarts(text: string, v: Json)
    requires Reads(text, v)
    ensures text != "" && text[0] != ']' && text[0] != '}'
  {
    assert ReadValue(text + "") == Some((v, ""));
    assert text + "" == text;
    if text[0] == ']' || text[0] == '}' { NumeralStarts(text); }
  }

  lemma NumberReads(n: Number)
    requires PrintableNumber(n) && (n.Float? ==> Spelled(n.f))
    ensures Reads(NumberRepr(n), Num(CanonicalNumber(n)))
  {
    forall rest | Stops(rest) ensures ReadValue(NumberRepr(n) + rest) == Some((Num(CanonicalNumber(n)), rest)) {
      if n.Int? { IntReadsBack(n.n, rest); } else { FloatReadsBack(n.f, rest); }
      NumberBranch(NumberRepr(n) + rest);
    }
  }

  lemma NumberBranch(s: string)
    requires ReadNumeral(s).Some?
    ensures ReadValue(s) == Some((Num(Meaning(ReadNumeral(s).value.0)), ReadNumeral(s).value.1))
  {
    NumeralStarts(s);
    DigitsAreOther(s);
  }

  lemma DigitsAreOther(s: string)
    requires s != "" && (s[0] == '-' || IsDigit(s[0]))
    ensures ReadValue(s) == ReadNumber(s)
  {
    var c := s[0];
    assert c != 'n' && c != 't' && c != 'f' && c != '"' && c != '[' && c != '{';
  }

  lemma StringReads(t: string)
    ensures Reads(StringText(t), Str(t))
  {
    forall rest | Stops(rest) ensures ReadValue(StringText(t) + rest) == Some((Str(t), rest)) {
      StringTail(t, rest);
      StringReadsBack(t, rest);
    }
  }

  lemma StringTail(t: string, rest: string)
    ensures var s := StringText(t) + rest; s[0] == '"' && s[1..] == Escaped(t) + ("\"" + rest)
  {
    Assoc("\"", Escaped(t), "\"");
    Assoc("\"", Escaped(t) + "\"", rest);
    Assoc(Escaped(t), "\"", rest);
  }

  lemma LiteralReads(word: string, v: Json)
    requires (word == "null" && v == Null) || (word == "true" && v == Bool(true))
          || (word == "false" && v == Bool(false))
    ensures Reads(word, v)
  {
    forall rest | Stops(rest) ensures ReadValue(word + rest) == Some((v, rest)) {
      assert (word + rest)[..|word|] == word && (word + rest)[|word|..] == rest;
    }
  }

  // ---- arrays ----

  ghost predicate AllRead(texts: seq<string>, vs: seq<Json>) {
    |texts| == |vs| && forall i | 0 <= i < |vs| :: Reads(texts[i], vs[i])
  }

  lemma {:induction false} ItemsRead(texts: seq<string>, vs: seq<Json>, rest: string)
    requires AllRead(texts, vs) && vs != []
    ensures ReadItems(Joined(texts) + ("]" + rest)) == Some((vs, rest))
    decreases |vs|
  {
    var tail := Behind(texts[1..]) + ("]" + rest);
    Assoc(texts[0], Behind(texts[1..]), "]" + rest);
    assert Reads(texts[0], vs[0]);
    if |vs| == 1 {
      assert tail == "]" + rest && tail[1..] == rest;
      assert [vs[0]] == vs;
    } else {
      var more := texts[1..];
      assert Behind(more) == "," + Joined(more) by { Assoc(",", more[0], Behind(more[1..])); }
      Assoc(",", Joined(more), "]" + rest);
      assert tail[1..] == Joined(more) + ("]" + rest);
      ItemsRead(more, vs[1..], rest);
      assert [vs[0]] + vs[1..] == vs;
    }
  }

  lemma ArrayReads(texts: seq<string>, vs: seq<Json>)
    requires AllRead(texts, vs)
    ensures Reads("[" + Joined(texts) + "]", Arr(vs))
  {
    forall rest | Stops(rest) ensures ReadValue("[" + Joined(texts) + "]" + rest) == Some((Arr(vs), rest)) {
      var s := "[" + Joined(texts) + "]" + rest;
      Bracketed("[", Joined(texts), "]", rest);
      if vs == [] {
        assert Joined(texts) == "" && s[1] == ']' && s[2..] == rest;
      } else {
        ItemsRead(texts, vs, rest);
        ReadsStarts(texts[0], vs[0]);
        assert s[1] == texts[0][0];
      }
    }
  }

  lemma Bracketed(open: string, body: string, close: string, rest: string)
    requires |open| == 1
    ensures var s := open + body + close + rest; s[0] == open[0] && s[1..] == body + (close + rest)
  {
    Assoc(open + body, close, rest);
    Assoc(open, body, close + rest);
  }

  // ---- objects ----

  lemma MemberReads(key: string, text: string, v: Json, rest: string)
    requires Reads(text, v) && Stops(rest)
    ensures ReadMember(MemberText(Pair(key, text)) + rest) == Some((Pair(key, v), rest))
  {
    var s := MemberText(Pair(key, text)) + rest;
    Assoc(StringText(key), ":", text);
    Assoc(StringText(key), ":" + text, rest);
    Assoc(":", text, rest);
    var tail := ":" + (text + rest);
    assert s == StringText(key) + tail;
    StringTail(key, tail);
    StringReadsBack(key, tail);
    assert tail[1..] == text + rest;
  }

  /** The last member, and a member before others. */
  lemma OneMemberRead(s: string, p: Pair<Json>, tail: string)
    requires ReadMember(s) == Some((p, tail)) && tail != "" && tail[0] == '}'
    ensures ReadMembers(s) == Some(([p], tail[1..]))
  {
  }

  lemma MoreMembersRead(s: string, p: Pair<Json>, tail: string, more: seq<Pair<Json>>, rest: string)
    requires ReadMember(s) == Some((p, tail)) && tail != "" && tail[0] == ','
    requires ReadMembers(tail[1..]) == Some((more, rest))
    ensures ReadMembers(s) == Some(([p] + more, rest))
  {
  }

  lemma {:induction false} MembersRead(x: seq<Pair<string>>, y: seq<Pair<Json>>, rest: string)
    requires Aligned(x, y, Reads) && y != []
    ensures ReadMembers(Joined(MemberTexts(x)) + ("}" + rest)) == Some((y, rest))
    decreases |y|
  {
    var texts := MemberTexts(x);
    var tail := Behind(texts[1..]) + ("}" + rest);
    Assoc(texts[0], Behind(texts[1..]), "}" + rest);
    assert y[0] == Pair(x[0].key, y[0].value) && x[0] == Pair(x[0].key, x[0].value);
    if |y| == 1 {
      assert tail == "}" + rest && tail[1..] == rest;
      MemberReads(x[0].key, x[0].value, y[0].value, tail);
      OneMemberRead(texts[0] + tail, y[0], tail);
      assert [y[0]] == y;
    } else {
      var more := MemberTexts(x[1..]);
      assert texts[1..] == more;
      assert Behind(more) == "," + Joined(more) by { Assoc(",", more[0], Behind(more[1..])); }
      Assoc(",", Joined(more), "}" + rest);
      assert tail[0] == ',' && tail[1..] == Joined(more) + ("}" + rest);
      MemberReads(x[0].key, x[0].value, y[0].value, tail);
      MembersRead(x[1..], y[1..], rest);
      MoreMembersRead(texts[0] + tail, y[0], tail, y[1..], rest);
      assert [y[0]] + y[1..] == y;
    }
  }

  lemma ObjectReads(x: seq<Pair<string>>, y: seq<Pair<Json>>)
    requires Aligned(x, y, Reads)
    ensures Reads("{" + Joined(MemberTexts(x)) + "}", Obj(y))
  {
    forall rest | Stops(rest) ensures ReadValue("{" + Joined(MemberTexts(x)) + "}" + rest) == Some((Obj(y), rest)) {
      var s := "{" + Joined(MemberTexts(x)) + "}" + rest;
      Bracketed("{", Joined(MemberTexts(x)), "}", rest);
      if y == [] {
        assert Joined(MemberTexts(x)) == "" && s[1] == '}' && s[2..] == rest;
      } else {
        MembersRead(x, y, rest);
        ObjectBranch(s, MemberTexts(x), rest);
      }
    }
  }

  lemma ObjectBranch(s: string, texts: seq<string>, rest: string)
    requires s != "" && s[0] == '{' && s[1..] == Joined(texts) + ("}" + rest)
    requires texts != [] && texts[0] != "" && texts[0][0] == '"' && ReadMembers(s[1..]).Some?
    ensures ReadValue(s) == Some((Obj(ReadMembers(s[1..]).value.0), ReadMembers(s[1..]).value.1))
  {
    assert s[1] == texts[0][0];
  }

  // ---- every value ----

  /** Canonical text reads as the canonical form of the value, whatever follows it. */
  lemma {:induction false} TextReads(v: Json)
    requires Printable(v) && Proper(v)
    ensures Reads(Text(v), Canonical(v))
    decreases v
  {
    match v
    case Null => LiteralReads("null", v);
    case Bool(b) => LiteralReads(if b then "true" else "false", v);
    case Num(n) => NumberReads(n);
    case Str(t) => StringReads(t);
    case Arr(items) =>
      forall i | 0 <= i < |items| ensures Reads(ItemTexts(items)[i], CanonicalItems(items)[i]) {
        ItemTextAt(items, i);
        TextReads(items[i]);
      }
      ArrayReads(ItemTexts(items), CanonicalItems(items));
    case Obj(members) =>
      forall i | 0 <= i < |members|
        ensures Reads(Text(members[i].value), Canonical(members[i].value))
      {
        TextReads(members[i].value);
      }
      MembersAt(members);
      assert Aligned(ValueTexts(members), CanonicalMembers(members), Reads);
      SortAligned(ValueTexts(members), CanonicalMembers(members), Reads);
      ObjectReads(SortByKey(ValueTexts(members)), SortByKey(CanonicalMembers(members)));
  }

  /** Print, then parse: the value comes back, with its members in key order. */
  lemma PrintThenParse(v: Json)
    requires Printable(v) && Proper(v)
    ensures Parse(Text(v)) == Some(Canonical(v))
  {
    TextReads(v);
    assert ReadValue(Text(v) + "") == Some((Canonical(v), ""));
    assert Text(v) + "" == Text(v);
  }
}
