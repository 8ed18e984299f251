/** The two texts that get signed over a mandate, and why they can never be confused. */
module MandatePayload {
  import opened Envelope
  import opened Json
  import opened JsonParser
  import opened JsonSame
  import opened CanonicalJson

  type Dict = seq<Pair<Json>>

  const USER_SCOPE := "a4p/v1/user-authorization"
  const SERVER_SCOPE := "server"

  /** `Map::insert`: the value is replaced in place, or the member goes to the end. */
  function InsertMember(d: Dict, key: string, v: Json): Dict {
    if d == [] then [Pair(key, v)]
    else if d[0].key == key then [Pair(key, v)] + d[1..]
    else [d[0]] + InsertMember(d[1..], key, v)
  }

  lemma {:induction false} InsertedMember(d: Dict, key: string, v: Json, other: string)
    ensures Lookup(InsertMember(d, key, v), other) == if other == key then Some(v) else Lookup(d, other)
  {
    if d != [] && d[0].key != key { InsertedMember(d[1..], key, v, other); }
  }

  /** A dictionary stays one: names stay distinct, values proper. */
  lemma {:induction false} InsertProper(d: Dict, key: string, v: Json)
    requires Proper(Obj(d)) && Proper(v)
    ensures Proper(Obj(InsertMember(d, key, v)))
    ensures forall k | k in Keys(InsertMember(d, key, v)) :: k == key || k in Keys(d)
  {
    var r := InsertMember(d, key, v);
    if d == [] {
    } else if d[0].key == key {
      assert forall i | 0 < i < |r| :: r[i] == d[i];
    } else {
      TailProper(d);
      InsertProper(d[1..], key, v);
      var rest := InsertMember(d[1..], key, v);
      forall j | 0 <= j < |rest| ensures rest[j].key != d[0].key {
        assert rest[j].key in Keys(rest);
        if rest[j].key in Keys(d[1..]) {
          var i :| 0 <= i < |d[1..]| && d[1..][i].key == rest[j].key;
          assert d[i + 1].key == rest[j].key;
        }
      }
      forall k | k in Keys(r) ensures k == key || k in Keys(d) { NamesBehind(d, r, rest, key, k); }
      PrependProper(d[0], rest);
    }
  }

  lemma NamesBehind(d: Dict, r: Dict, rest: Dict, key: string, k: string)
    requires d != [] && r == [d[0]] + rest && k in Keys(r)
    requires forall n | n in Keys(rest) :: n == key || n in Keys(d[1..])
    ensures k == key || k in Keys(d)
  {
    var i :| 0 <= i < |r| && r[i].key == k;
    if i == 0 {
      assert d[0].key in Keys(d);
    } else {
      assert rest[i - 1].key in Keys(rest);
      if k != key {
        var j :| 0 <= j < |d[1..]| && d[1..][j].key == k;
        assert d[j + 1].key == k;
      }
    }
  }

  lemma TailProper(d: Dict)
    requires d != [] && Proper(Obj(d))
    ensures Proper(Obj(d[1..])) && Proper(d[0].value)
  {
    forall i | 0 <= i < |d[1..]|
      ensures Proper(d[1..][i].value)
    {
      assert d[1..][i] == d[i + 1] && Proper(d[i + 1].value);
    }
  }

  lemma PrependProper(p: Pair<Json>, d: Dict)
    requires Proper(Obj(d)) && Proper(p.value) && forall j | 0 <= j < |d| :: d[j].key != p.key
    ensures Proper(Obj([p] + d))
  {
    var r := [p] + d;
    forall i | 0 <= i < |r| ensures Proper(r[i].value) {
      if i > 0 { assert r[i] == d[i - 1] && Proper(d[i - 1].value); }
    }
  }

  function Enveloped(scope: string, mandate: Dict): Dict {
    [Pair("scope", Str(scope)), Pair("mandate", Obj(mandate))]
  }

  function GetObject(d: Dict, key: string): Option<Dict> {
    var v := Lookup(d, key);
    if v.Some? && v.value.Obj? then Some(v.value.members) else None
  }

  /** The signed mandate without any user signature: the core, and under `signatures` only the
      server's. */
  function ServerSigned(core: Dict, mandate: Dict): Option<Dict> {
    var signatures := GetObject(mandate, "signatures");
    if signatures.None? then None
    else
      var server := GetObject(signatures.value, "server");
      if server.None? then None
      else Some(InsertMember(core, "signatures", Obj([Pair("server", Obj(server.value))])))
  }

  function PayloadText(d: Dict): Option<string> {
    if Printable(Obj(d)) then Some(Text(Obj(d))) else None
  }

  /** `server_signature_payload`. */
  method ServerSignaturePayload(core: Dict) returns (text: Option<string>)
    requires Proper(Obj(core))
    ensures text == PayloadText(Enveloped(SERVER_SCOPE, core))
    ensures text.Some? <==> Printable(Obj(core))
    ensures text.Some? ==> text.value == Text(Obj([Pair("scope", Str("server")), Pair("mandate", Obj(core))]))
  {
    EnvelopedPrintable(SERVER_SCOPE, core);
    EnvelopedProper(SERVER_SCOPE, core);
    var ok, s := CanonicalText([Pair("scope", Str(SERVER_SCOPE)), Pair("mandate", Obj(core))]);
    text := if ok then Some(s) else None;
  }

  function UserPayload(core: Dict, mandate: Dict): Option<string> {
    var signed := ServerSigned(core, mandate);
    if signed.None? then None else PayloadText(Enveloped(USER_SCOPE, signed.value))
  }

  /** The server's signature in a mandate. */
  function ServerSignature(mandate: Dict): Option<Dict> {
    var signatures := GetObject(mandate, "signatures");
    if signatures.None? then None else GetObject(signatures.value, "server")
  }

  /** The member `k` of what a user signs: the core's, except that `signatures` holds the server's
      signature and nothing else. */
  function SignedMember(core: Dict, server: Dict, k: string): Option<Json> {
    if k == "signatures" then Some(Obj([Pair("server", Obj(server))])) else Lookup(core, k)
  }

  /** The text prints an object with the user scope and a mandate with exactly these members. */
  ghost predicate SignsOver(text: string, core: Dict, server: Dict) {
    exists m: Dict | Proper(Obj(m)) :: HasMembers(m, core, server) && text == Text(Obj(UserObject(m)))
  }

  ghost predicate HasMembers(m: Dict, core: Dict, server: Dict) {
    forall k :: Lookup(m, k) == SignedMember(core, server, k)
  }

  function UserObject(m: Dict): Dict {
    [Pair("scope", Str("a4p/v1/user-authorization")), Pair("mandate", Obj(m))]
  }

  /** No number that is signed is infinite or NaN. */
  ghost predicate Signable(core: Dict, server: Dict) {
    && Printable(Obj(server))
    && forall k | k != "signatures" && Lookup(core, k).Some? :: Printable(Lookup(core, k).value)
  }

  /** `canonical_user_authorization_payload`; `core` is the mandate's signed core. */
  method UserAuthorizationPayload(core: Dict, mandate: Dict) returns (text: Option<string>)
    requires Proper(Obj(core)) && Proper(Obj(mandate))
    ensures text == UserPayload(core, mandate)
    ensures text.Some? <==> ServerSignature(mandate).Some? && Signable(core, ServerSignature(mandate).value)
    ensures text.Some? ==> SignsOver(text.value, core, ServerSignature(mandate).value)
  {
    UserPayloadMeans(core, mandate);
    var signed := ServerSigned(core, mandate);
    if signed.None? {
      return None;
    }
    SignedProper(core, mandate);
    EnvelopedProper(USER_SCOPE, signed.value);
    var ok, s := CanonicalText([Pair("scope", Str(USER_SCOPE)), Pair("mandate", Obj(signed.value))]);
    text := if ok then Some(s) else None;
  }

  /** Every member of what is signed. */
  lemma SignedHasMembers(core: Dict, mandate: Dict)
    ensures ServerSigned(core, mandate).Some? <==> ServerSignature(mandate).Some?
    ensures ServerSigned(core, mandate).Some? ==>
              HasMembers(ServerSigned(core, mandate).value, core, ServerSignature(mandate).value)
  {
    if ServerSigned(core, mandate).Some? {
      var server := ServerSignature(mandate).value;
      forall k ensures Lookup(ServerSigned(core, mandate).value, k) == SignedMember(core, server, k) {
        InsertedMember(core, "signatures", Obj([Pair("server", Obj(server))]), k);
      }
    }
  }

  lemma EnvelopedPrintable(scope: string, m: Dict)
    ensures Printable(Obj(Enveloped(scope, m))) <==> Printable(Obj(m))
  {
    var d := Enveloped(scope, m);
    assert d[1].value == Obj(m) && Printable(d[0].value);
    if Printable(Obj(m)) {
      forall i | 0 <= i < |d| ensures Printable(d[i].value) {}
    }
  }

  lemma OnePrintable(server: Dict)
    ensures Printable(Obj([Pair("server", Obj(server))])) <==> Printable(Obj(server))
  {
    var d := [Pair("server", Obj(server))];
    assert d[0].value == Obj(server);
    if Printable(Obj(server)) {
      forall i | 0 <= i < |d| ensures Printable(d[i].value) {}
    }
  }

  /** It can be printed exactly when all of it can. */
  lemma SignablePrints(m: Dict, core: Dict, server: Dict)
    requires Proper(Obj(m)) && HasMembers(m, core, server)
    ensures Printable(Obj(m)) <==> Signable(core, server)
  {
    PrintableByNames(m);
    OnePrintable(server);
    assert Lookup(m, "signatures") == SignedMember(core, server, "signatures");
    forall k | k != "signatures" ensures Lookup(m, k) == Lookup(core, k) {
      assert Lookup(m, k) == SignedMember(core, server, k);
    }
  }

  lemma UserPayloadMeans(core: Dict, mandate: Dict)
    requires Proper(Obj(core)) && Proper(Obj(mandate))
    ensures var text := UserPayload(core, mandate);
            && (text.Some? <==> ServerSignature(mandate).Some? && Signable(core, ServerSignature(mandate).value))
            && (text.Some? ==> SignsOver(text.value, core, ServerSignature(mandate).value))
  {
    SignedHasMembers(core, mandate);
    if ServerSigned(core, mandate).Some? {
      var m, server := ServerSigned(core, mandate).value, ServerSignature(mandate).value;
      SignedProper(core, mandate);
      SignablePrints(m, core, server);
      EnvelopedPrintable(USER_SCOPE, m);
      assert Enveloped(USER_SCOPE, m) == UserObject(m);
    }
  }

  lemma EnvelopedProper(scope: string, mandate: Dict)
    requires Proper(Obj(mandate))
    ensures Proper(Obj(Enveloped(scope, mandate)))
  {
    assert Proper(Str(scope));
  }

  lemma MemberProper(d: Dict, key: string)
    requires Proper(Obj(d)) && Lookup(d, key).Some?
    ensures Proper(Lookup(d, key).value)
  {
    var i := LookupIsMember(d, key);
    assert Proper(d[i].value);
  }

  lemma SignedProper(core: Dict, mandate: Dict)
    requires Proper(Obj(core)) && Proper(Obj(mandate)) && ServerSigned(core, mandate).Some?
    ensures Proper(Obj(ServerSigned(core, mandate).value))
  {
    MemberProper(mandate, "signatures");
    var signatures := GetObject(mandate, "signatures").value;
    MemberProper(signatures, "server");
    var server := GetObject(signatures, "server").value;
    assert Proper(Obj([Pair("server", Obj(server))]));
    InsertProper(core, "signatures", Obj([Pair("server", Obj(server))]));
  }

  // ---- domain separation ----

  lemma EnvelopesSame(s: string, a: Dict, t: string, b: Dict)
    ensures Same(Obj(Enveloped(s, a)), Obj(Enveloped(t, b))) <==> s == t && Same(Obj(a), Obj(b))
  {
    var x, y := Enveloped(s, a), Enveloped(t, b);
    assert Lookup(y, "scope") == Some(Str(t));
    assert y[1..] == [Pair("mandate", Obj(b))];
    assert Lookup(y[1..], "mandate") == Some(Obj(b)) && Lookup(y, "mandate") == Some(Obj(b));
    assert x[1..] == [Pair("mandate", Obj(a))] && x[1..][1..] == [];
    assert SameMembers(x[1..][1..], y);
    assert SameMembers(x[1..], y) <==> Same(Obj(a), Obj(b));
    assert Same(Str(s), Str(t)) <==> s == t;
  }

  /** Two signing inputs are the same text exactly when they have the same scope and equal mandates. */
  lemma PayloadsIdentify(s: string, a: Dict, t: string, b: Dict)
    requires Proper(Obj(a)) && Proper(Obj(b))
    requires PayloadText(Enveloped(s, a)).Some? && PayloadText(Enveloped(t, b)).Some?
    ensures PayloadText(Enveloped(s, a)) == PayloadText(Enveloped(t, b)) <==> s == t && Same(Obj(a), Obj(b))
  {
    EnvelopedProper(s, a);
    EnvelopedProper(t, b);
    TextIdentifiesValue(Obj(Enveloped(s, a)), Obj(Enveloped(t, b)));
    EnvelopesSame(s, a, t, b);
  }

  /** No text is both a server-signature payload and a user-authorization payload, whatever the two
      mandates are. */
  lemma DomainsSeparate(core: Dict, other: Dict, mandate: Dict)
    requires Proper(Obj(core)) && Proper(Obj(other)) && Proper(Obj(mandate))
    requires ServerSigned(other, mandate).Some?
    requires PayloadText(Enveloped(SERVER_SCOPE, core)).Some?
    requires PayloadText(Enveloped(USER_SCOPE, ServerSigned(other, mandate).value)).Some?
    ensures PayloadText(Enveloped(SERVER_SCOPE, core))
         != PayloadText(Enveloped(USER_SCOPE, ServerSigned(other, mandate).value))
  {
    SignedProper(other, mandate);
    PayloadsIdentify(SERVER_SCOPE, core, USER_SCOPE, ServerSigned(other, mandate).value);
  }

  /** User signatures, present or not, never change what a user signs: only the server's signature
      and the core enter the payload. */
  lemma UserSignaturesInvisible(core: Dict, mandate: Dict, signatures: Dict, key: string, v: Json)
    requires GetObject(mandate, "signatures") == Some(signatures) && key != "server"
    ensures ServerSigned(core, InsertMember(mandate, "signatures", Obj(InsertMember(signatures, key, v))))
         == ServerSigned(core, mandate)
  {
    InsertedMember(mandate, "signatures", Obj(InsertMember(signatures, key, v)), "signatures");
    InsertedMember(signatures, key, v, "server");
  }

  /** Two mandates over one core are signed alike exactly when their server signatures are equal. */
  lemma ServerSignatureCounts(core: Dict, m: Dict, n: Dict)
    requires ServerSigned(core, m).Some? && ServerSigned(core, n).Some?
    ensures GetObject(ServerSigned(core, m).value, "signatures") ==
            Some([Pair("server", Obj(GetObject(GetObject(m, "signatures").value, "server").value))])
    ensures ServerSigned(core, m) == ServerSigned(core, n) <==>
            GetObject(GetObject(m, "signatures").value, "server")
            == GetObject(GetObject(n, "signatures").value, "server")
  {
    var sm, sn := GetObject(GetObject(m, "signatures").value, "server").value,
                  GetObject(GetObject(n, "signatures").value, "server").value;
    InsertedMember(core, "signatures", Obj([Pair("server", Obj(sm))]), "signatures");
    InsertedMember(core, "signatures", Obj([Pair("server", Obj(sn))]), "signatures");
    assert [Pair("server", Obj(sm))][0] == Pair("server", Obj(sm));
    assert [Pair("server", Obj(sn))][0] == Pair("server", Obj(sn));
  }

  // ---- what two users sign alike ----

  /** The same JSON object, apart from the member `name`. */
  ghost predicate SameApartFrom(a: Dict, b: Dict, name: string) {
    forall k | k != name :: SameEntry(Lookup(a, k), Lookup(b, k))
  }

  lemma OneMemberSame(a: Dict, b: Dict)
    ensures Same(Obj([Pair("server", Obj(a))]), Obj([Pair("server", Obj(b))])) <==> Same(Obj(a), Obj(b))
  {
    var x, y := [Pair("server", Obj(a))], [Pair("server", Obj(b))];
    assert Lookup(y, "server") == Some(Obj(b)) && x[1..] == [] && SameMembers(x[1..], y);
  }

  lemma SameSigned(m: Dict, c: Dict, server: Dict, n: Dict, d: Dict, other: Dict)
    requires Proper(Obj(m)) && Proper(Obj(n)) && HasMembers(m, c, server) && HasMembers(n, d, other)
    ensures Same(Obj(m), Obj(n)) <==> SameApartFrom(c, d, "signatures") && Same(Obj(server), Obj(other))
  {
    SameByNames(m, n);
    OneMemberSame(server, other);
    forall k ensures Lookup(m, k) == SignedMember(c, server, k) && Lookup(n, k) == SignedMember(d, other, k) {}
    assert Lookup(m, "signatures") == Some(Obj([Pair("server", Obj(server))]));
    assert Lookup(n, "signatures") == Some(Obj([Pair("server", Obj(other))]));
    if SameApartFrom(c, d, "signatures") && Same(Obj(server), Obj(other)) {
      forall k ensures SameEntry(Lookup(m, k), Lookup(n, k)) {}
    }
    if SameEntries(m, n) {
      assert SameEntry(Lookup(m, "signatures"), Lookup(n, "signatures"));
      forall k | k != "signatures" ensures SameEntry(Lookup(c, k), Lookup(d, k)) {
        assert SameEntry(Lookup(m, k), Lookup(n, k));
      }
    }
  }

  /** Two users sign the same text exactly when their cores are the same JSON object apart from
      `signatures` and the server signed both alike. */
  lemma UserPayloadsIdentify(c: Dict, m: Dict, d: Dict, n: Dict)
    requires Proper(Obj(c)) && Proper(Obj(m)) && Proper(Obj(d)) && Proper(Obj(n))
    requires UserPayload(c, m).Some? && UserPayload(d, n).Some?
    ensures UserPayload(c, m) == UserPayload(d, n) <==>
            && SameApartFrom(c, d, "signatures")
            && Same(Obj(ServerSignature(m).value), Obj(ServerSignature(n).value))
  {
    SignedHasMembers(c, m);
    SignedHasMembers(d, n);
    SignedProper(c, m);
    SignedProper(d, n);
    var x, y := ServerSigned(c, m).value, ServerSigned(d, n).value;
    PayloadsIdentify(USER_SCOPE, x, USER_SCOPE, y);
    SameSigned(x, c, ServerSignature(m).value, y, d, ServerSignature(n).value);
  }
}
