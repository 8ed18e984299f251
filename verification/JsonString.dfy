/** JSON strings: the escaping of the canonical printer and a reader for section 7 of RFC 8259. */
module JsonString {
  import opened Envelope
  import opened NumberText

  // ---- printing ----

  function HexDigit(d: nat): (c: char)
    requires d < 16
  {
    if d < 10 then '0' + d as char else 'a' + (d - 10) as char
  }

  /** Quote, backslash and control characters below 0x20 are escaped, everything else is raw. */
  function EscapeChar(c: char): (s: string)
    ensures s != "" && s[0] != '"'
  {
    if c == '"' then "\\\""
    else if c == '\\' then "\\\\"
    else if c == '\U{8}' then "\\b"
    else if c == '\U{c}' then "\\f"
    else if c == '\n' then "\\n"
    else if c == '\r' then "\\r"
    else if c == '\t' then "\\t"
    else if c < ' ' then "\\u00" + [HexDigit(c as int / 16), HexDigit(c as int % 16)]
    else [c]
  }

  function Escaped(t: string): string {
    if t == "" then "" else EscapeChar(t[0]) + Escaped(t[1..])
  }

  function StringText(t: string): string {
    "\"" + Escaped(t) + "\""
  }

  // ---- reading ----

  function HexValue(c: char): Option<nat> {
    if '0' <= c <= '9' then Some(c as int - '0' as int)
    else if 'a' <= c <= 'f' then Some(c as int - 'a' as int + 10)
    else if 'A' <= c <= 'F' then Some(c as int - 'A' as int + 10)
    else None
  }

  /** Four hexadecimal digits. */
  function HexUnit(s: string): (u: Option<nat>)
    requires |s| >= 4
    ensures u.Some? ==> u.value < 0x10000
  {
    var a, b, c, d := HexValue(s[0]), HexValue(s[1]), HexValue(s[2]), HexValue(s[3]);
    if a.Some? && b.Some? && c.Some? && d.Some? && a.value < 16 && b.value < 16 && c.value < 16 && d.value < 16
    then Some(((a.value * 16 + b.value) * 16 + c.value) * 16 + d.value)
    else None
  }

  /** What follows `\u`: one UTF-16 unit, or a surrogate pair spelled as two escapes. */
  function ReadUnicode(s: string): (r: Option<(char, string)>)
    ensures r.Some? ==> |r.value.1| < |s|
  {
    if |s| < 4 || HexUnit(s).None? then None
    else
      var u := HexUnit(s).value;
      if u < 0xD800 || u >= 0xE000 then Some((u as char, s[4..]))
      else if u >= 0xDC00 || |s| < 10 || s[4] != '\\' || s[5] != 'u' || HexUnit(s[6..]).None? then None
      else
        var l := HexUnit(s[6..]).value;
        if 0xDC00 <= l < 0xE000 then Some(((0x10000 + (u - 0xD800) * 0x400 + (l - 0xDC00)) as char, s[10..]))
        else None
  }

  /** What follows a backslash. */
  function ReadEscape(s: string): (r: Option<(char, string)>)
    ensures r.Some? ==> |r.value.1| < |s|
  {
    if s == "" then None
    else if s[0] == '"' || s[0] == '\\' || s[0] == '/' then Some((s[0], s[1..]))
    else if s[0] == 'b' then Some(('\U{8}', s[1..]))
    else if s[0] == 'f' then Some(('\U{c}', s[1..]))
    else if s[0] == 'n' then Some(('\n', s[1..]))
    else if s[0] == 'r' then Some(('\r', s[1..]))
    else if s[0] == 't' then Some(('\t', s[1..]))
    else if s[0] == 'u' then ReadUnicode(s[1..])
    else None
  }

  function ReadChar(s: string): (r: Option<(char, string)>)
    requires s != ""
    ensures r.Some? ==> |r.value.1| < |s|
  {
    if s[0] == '\\' then ReadEscape(s[1..]) else if s[0] < ' ' then None else Some((s[0], s[1..]))
  }

  /** The rest of a string whose opening quote was read. */
  function ReadString(s: string): (r: Option<(string, string)>)
    ensures r.Some? ==> |r.value.1| < |s|
    decreases |s|
  {
    if s == "" then None
    else if s[0] == '"' then Some(("", s[1..]))
    else
      var c := ReadChar(s);
      if c.None? then None
      else
        var more := ReadString(c.value.1);
        if more.None? then None else Some(([c.value.0] + more.value.0, more.value.1))
  }

  // ---- round trip ----

  lemma ControlReadsBack(c: char, rest: string)
    requires c < ' '
    ensures ReadUnicode("00" + [HexDigit(c as int / 16), HexDigit(c as int % 16)] + rest) == Some((c, rest))
  {
    var h, l := HexDigit(c as int / 16), HexDigit(c as int % 16);
    var s := "00" + [h, l] + rest;
    assert s[0] == '0' && s[1] == '0' && s[2] == h && s[3] == l && s[4..] == rest;
    assert HexValue(h) == Some(c as int / 16) && HexValue(l) == Some(c as int % 16) && HexValue('0') == Some(0);
  }

  lemma CharReadsBack(c: char, rest: string)
    ensures ReadChar(EscapeChar(c) + rest) == Some((c, rest))
  {
    var e := EscapeChar(c);
    var s := e + rest;
    if c == '"' || c == '\\' || c == '\U{8}' || c == '\U{c}' || c == '\n' || c == '\r' || c == '\t' {
      assert s[1..] == [e[1]] + rest && s[1..][1..] == rest;
    } else if c < ' ' {
      var hex := "00" + [HexDigit(c as int / 16), HexDigit(c as int % 16)];
      assert e == "\\u" + hex;
      assert s[1..] == "u" + (hex + rest) && s[1..][1..] == hex + rest;
      ControlReadsBack(c, rest);
    } else {
      assert s[1..] == rest;
    }
  }

  /** Reading the text of a string gives the string back. */
  lemma {:induction false} StringReadsBack(t: string, rest: string)
    ensures ReadString(Escaped(t) + ("\"" + rest)) == Some((t, rest))
    decreases |t|
  {
    var tail := "\"" + rest;
    if t == "" {
      assert Escaped(t) + tail == tail && tail[1..] == rest;
    } else {
      var more := Escaped(t[1..]) + tail;
      Assoc(EscapeChar(t[0]), Escaped(t[1..]), tail);
      CharReadsBack(t[0], more);
      StringReadsBack(t[1..], rest);
      assert [t[0]] + t[1..] == t;
    }
  }

  /** Every character that must be escaped is, so a printed string is a token of the grammar. */
  lemma {:induction false} NothingRaw(t: string, i: nat)
    requires i < |Escaped(t)|
    ensures Escaped(t)[i] >= ' '
    decreases |t|
  {
    var e := EscapeChar(t[0]);
    if i < |e| {
      assert Escaped(t)[i] == e[i];
    } else {
      NothingRaw(t[1..], i - |e|);
    }
  }
}
