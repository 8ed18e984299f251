/** The credential store: principals, API keys and a by-hash index that has to agree with a plain
    scan of the keys, also after the store was persisted and loaded again. */
module Auth {
  import opened Envelope

  datatype Principal = Principal(
    id: string, handle: string, role: string, namespaces: Option<seq<string>>, disabledAt: Option<string>, note: string)

  datatype ApiKey = ApiKey(id: string, owner: string, hash: string, name: string, revokedAt: Option<string>)

  /** `order` is the insertion order of the key table: the order in which it is persisted. */
  datatype State = State(
    principals: map<string, Principal>, keys: map<string, ApiKey>, order: seq<string>, byHash: map<string, string>)

  datatype Failure = EmptyToken | WrongPrefix | InvalidToken | DanglingKey | HashMismatch
    | KeyRevoked | PrincipalDisabled

  datatype Outcome = Granted(principal: Principal) | Denied(why: Failure)

  type Hash = string -> string

  const TOKEN_PREFIX := "a2x_pat_"

  predicate HasPrefix(token: string) {
    TOKEN_PREFIX <= token
  }

  /** `authenticate`: through the index. */
  function Authenticate(hash: Hash, s: State, token: string): Outcome {
    if token == "" then Denied(EmptyToken)
    else if !HasPrefix(token) then Denied(WrongPrefix)
    else if hash(token) !in s.byHash then Denied(InvalidToken)
    else
      var id := s.byHash[hash(token)];
      if id !in s.keys || s.keys[id].owner !in s.principals then Denied(DanglingKey)
      else
        var key, principal := s.keys[id], s.principals[s.keys[id].owner];
        if key.hash != hash(token) then Denied(HashMismatch)
        else if key.revokedAt.Some? then Denied(KeyRevoked)
        else if principal.disabledAt.Some? then Denied(PrincipalDisabled)
        else Granted(principal)
  }

  // ---- the reference: a scan ----

  predicate Usable(s: State, id: string) {
    && id in s.keys && s.keys[id].revokedAt.None?
    && s.keys[id].owner in s.principals && s.principals[s.keys[id].owner].disabledAt.None?
  }

  /** An unrevoked key with the token's hash belongs to an existing, enabled principal. */
  predicate ScanFinds(hash: Hash, s: State, token: string, id: string) {
    HasPrefix(token) && Usable(s, id) && s.keys[id].hash == hash(token)
  }

  ghost predicate Agrees(hash: Hash, s: State, token: string) {
    && (Authenticate(hash, s, token).Granted? <==> exists id :: ScanFinds(hash, s, token, id))
    && (Authenticate(hash, s, token).Granted? ==>
          exists id :: ScanFinds(hash, s, token, id)
            && Authenticate(hash, s, token).principal == s.principals[s.keys[id].owner])
  }

  // ---- operations ----

  const VALID_ROLES: set<string> := {"admin", "provider", "user"}

  predicate RoleOk(role: string, namespaces: Option<seq<string>>) {
    role in VALID_ROLES && (role == "admin" <==> namespaces.None?)
  }

  predicate HandleFree(s: State, handle: string) {
    forall id | id in s.principals :: s.principals[id].handle != handle
  }

  function AddKey(s: State, key: ApiKey): State {
    s.(keys := s.keys[key.id := key], order := s.order + [key.id], byHash := s.byHash[key.hash := key.id])
  }

  function Revoked(s: State, id: string, at: string): State
    requires id in s.keys
  {
    if s.keys[id].revokedAt.Some? then s
    else s.(keys := s.keys[id := s.keys[id].(revokedAt := Some(at))], byHash := s.byHash - {s.keys[id].hash})
  }

  /** A partial update: what is `None` stays. An empty role stays as well. */
  datatype Patch = Patch(
    namespaces: Option<Option<seq<string>>>, role: string, disabled: Option<bool>, note: Option<string>, now: string)

  function Patched(p: Principal, patch: Patch): Principal {
    p.(namespaces := if patch.namespaces.Some? then patch.namespaces.value else p.namespaces,
       role := if patch.role == "" then p.role else patch.role,
       note := if patch.note.Some? then patch.note.value else p.note,
       disabledAt := match patch.disabled
                     case None => p.disabledAt
                     case Some(true) => if p.disabledAt.Some? then p.disabledAt else Some(patch.now)
                     case Some(false) => None)
  }

  predicate PatchOk(p: Principal, patch: Patch) {
    RoleOk(Patched(p, patch).role, Patched(p, patch).namespaces)
  }

  /** What loading the persisted lists rebuilds: every key is indexed, revoked or not, and of keys
      with one hash the last one wins. */
  function IndexAll(keys: map<string, ApiKey>, order: seq<string>): map<string, string> {
    if order == [] then map[]
    else
      var id := order[|order| - 1];
      var before := IndexAll(keys, order[..|order| - 1]);
      if id in keys then before[keys[id].hash := id] else before
  }

  function Reloaded(s: State): State {
    s.(byHash := IndexAll(s.keys, s.order))
  }

  datatype Op =
    | NewPrincipal(principal: Principal, keyId: string, token: string)
    | NewKey(owner: string, keyId: string, token: string, name: string)
    | RevokeKey(id: string, at: string)
    | UpdatePrincipal(id: string, patch: Patch)
    | Reload

  function KeyFor(hash: Hash, owner: string, keyId: string, token: string, name: string): ApiKey {
    ApiKey(keyId, owner, hash(token), name, None)
  }

  /** A failing operation (unknown id, invalid role, handle in use) changes nothing. */
  function Do(hash: Hash, s: State, op: Op): State {
    match op
    case NewPrincipal(p, keyId, token) =>
      if RoleOk(p.role, p.namespaces) && HandleFree(s, p.handle)
      then AddKey(s.(principals := s.principals[p.id := p]), KeyFor(hash, p.id, keyId, token, "initial"))
      else s
    case NewKey(owner, keyId, token, name) =>
      if owner in s.principals then AddKey(s, KeyFor(hash, owner, keyId, token, name)) else s
    case RevokeKey(id, at) => if id in s.keys then Revoked(s, id, at) else s
    case UpdatePrincipal(id, patch) =>
      if id in s.principals && PatchOk(s.principals[id], patch)
      then s.(principals := s.principals[id := Patched(s.principals[id], patch)]) else s
    case Reload => Reloaded(s)
  }

  /** No unrevoked key has the hash. */
  predicate Unused(s: State, h: string) {
    forall id | id in s.keys && s.keys[id].hash == h :: s.keys[id].revokedAt.Some?
  }

  /** Freshly generated ids and tokens: the ids are new and no key in force has the token's hash. */
  predicate Generated(hash: Hash, s: State, op: Op) {
    match op
    case NewPrincipal(p, keyId, token) =>
      p.id !in s.principals && p.disabledAt.None? && keyId !in s.keys && HasPrefix(token) && Unused(s, hash(token))
    case NewKey(owner, keyId, token, name) => keyId !in s.keys && HasPrefix(token) && Unused(s, hash(token))
    case _ => true
  }

  // ---- the invariant ----

  ghost predicate OrderOk(s: State) {
    && (forall i | 0 <= i < |s.order| :: s.order[i] in s.keys)
    && (forall i, j | 0 <= i < j < |s.order| :: s.order[i] != s.order[j])
    && (forall id | id in s.keys :: id in s.order)
  }

  ghost predicate TablesOk(s: State) {
    && (forall id | id in s.keys :: s.keys[id].id == id && s.keys[id].owner in s.principals)
    && (forall id | id in s.principals ::
          s.principals[id].id == id && RoleOk(s.principals[id].role, s.principals[id].namespaces))
  }

  /** The index never lies, and knows every key in force. */
  ghost predicate IndexOk(s: State) {
    && (forall h | h in s.byHash :: s.byHash[h] in s.keys && s.keys[s.byHash[h]].hash == h)
    && (forall id | id in s.keys && s.keys[id].revokedAt.None? ::
          s.keys[id].hash in s.byHash && s.byHash[s.keys[id].hash] == id)
  }

  /** Of the keys with one hash only the last can be in force. */
  ghost predicate InForceIsLast(s: State) {
    forall i, j | 0 <= i < j < |s.order| && s.order[i] in s.keys && s.order[j] in s.keys
        && s.keys[s.order[i]].hash == s.keys[s.order[j]].hash ::
      s.keys[s.order[i]].revokedAt.Some?
  }

  ghost predicate Valid(s: State) {
    OrderOk(s) && TablesOk(s) && IndexOk(s) && InForceIsLast(s)
  }

  lemma AddKeyOrder(s: State, key: ApiKey)
    requires OrderOk(s) && key.id !in s.keys
    ensures OrderOk(AddKey(s, key))
  {
    var t := AddKey(s, key);
    forall id | id in t.keys ensures id in t.order { if id != key.id { assert id in s.order; } }
  }

  lemma AddKeyLast(s: State, key: ApiKey)
    requires OrderOk(s) && InForceIsLast(s) && key.id !in s.keys && Unused(s, key.hash)
    ensures InForceIsLast(AddKey(s, key))
  {
    var t := AddKey(s, key);
    forall i, j | 0 <= i < j < |t.order| && t.order[i] in t.keys && t.order[j] in t.keys
        && t.keys[t.order[i]].hash == t.keys[t.order[j]].hash
      ensures t.keys[t.order[i]].revokedAt.Some?
    {
      assert t.order[i] == s.order[i] && t.keys[t.order[i]] == s.keys[s.order[i]];
      if j < |s.order| { assert t.order[j] == s.order[j] && t.keys[t.order[j]] == s.keys[s.order[j]]; }
    }
  }

  lemma AddKeyIndex(s: State, key: ApiKey)
    requires IndexOk(s) && key.id !in s.keys && Unused(s, key.hash)
    ensures IndexOk(AddKey(s, key))
  {
  }

  lemma AddKeyValid(s: State, key: ApiKey)
    requires Valid(s) && key.id !in s.keys && key.owner in s.principals && key.revokedAt.None? && Unused(s, key.hash)
    ensures Valid(AddKey(s, key))
  {
    AddKeyOrder(s, key);
    AddKeyLast(s, key);
    AddKeyIndex(s, key);
  }

  lemma RevokedIndex(s: State, id: string, at: string)
    requires IndexOk(s) && id in s.keys && s.keys[id].revokedAt.None?
    ensures IndexOk(Revoked(s, id, at))
  {
    assert s.byHash[s.keys[id].hash] == id;
  }

  lemma RevokedValid(s: State, id: string, at: string)
    requires Valid(s) && id in s.keys
    ensures Valid(Revoked(s, id, at))
  {
    if s.keys[id].revokedAt.None? {
      RevokedIndex(s, id, at);
      assert OrderOk(Revoked(s, id, at));
    }
  }

  /** The rebuilt index points to the last key with each hash. */
  lemma {:induction false} IndexAllIsLast(keys: map<string, ApiKey>, order: seq<string>, h: string)
    requires forall i | 0 <= i < |order| :: order[i] in keys
    ensures var index := IndexAll(keys, order);
            && (h in index <==> exists i :: 0 <= i < |order| && keys[order[i]].hash == h)
            && (h in index ==> exists i :: 0 <= i < |order| && order[i] == index[h] && keys[order[i]].hash == h
                                          && forall j | i < j < |order| :: keys[order[j]].hash != h)
  {
    if order != [] {
      var front := order[..|order| - 1];
      IndexAllIsLast(keys, front, h);
      assert forall i | 0 <= i < |front| :: front[i] == order[i];
      var last := order[|order| - 1];
      var index, before := IndexAll(keys, order), IndexAll(keys, front);
      if keys[last].hash == h {
        assert order[|order| - 1] == index[h];
      } else if h in before {
        var i :| 0 <= i < |front| && front[i] == before[h] && keys[front[i]].hash == h
          && forall j | i < j < |front| :: keys[front[j]].hash != h;
        assert order[i] == index[h];
      }
    }
  }

  lemma ReloadedValid(s: State)
    requires Valid(s)
    ensures Valid(Reloaded(s))
  {
    var t := Reloaded(s);
    forall h | h in t.byHash ensures t.byHash[h] in t.keys && t.keys[t.byHash[h]].hash == h {
      IndexAllIsLast(s.keys, s.order, h);
    }
    forall id | id in t.keys && t.keys[id].revokedAt.None?
      ensures t.keys[id].hash in t.byHash && t.byHash[t.keys[id].hash] == id
    {
      InForceIsIndexed(s, id);
    }
  }

  lemma InForceIsIndexed(s: State, id: string)
    requires Valid(s) && id in s.keys && s.keys[id].revokedAt.None?
    ensures var index := IndexAll(s.keys, s.order); s.keys[id].hash in index && index[s.keys[id].hash] == id
  {
    var h := s.keys[id].hash;
    IndexAllIsLast(s.keys, s.order, h);
    assert id in s.order;
    var i :| 0 <= i < |s.order| && s.order[i] == id;
    var index := IndexAll(s.keys, s.order);
    assert s.keys[s.order[i]].hash == h;
    var j :| 0 <= j < |s.order| && s.order[j] == index[h] && s.keys[s.order[j]].hash == h
      && forall m | j < m < |s.order| :: s.keys[s.order[m]].hash != h;
    assert i <= j;
  }

  lemma OpValid(hash: Hash, s: State, op: Op)
    requires Valid(s) && Generated(hash, s, op)
    ensures Valid(Do(hash, s, op))
  {
    match op
    case NewPrincipal(p, keyId, token) =>
      if RoleOk(p.role, p.namespaces) && HandleFree(s, p.handle) {
        AddKeyValid(s.(principals := s.principals[p.id := p]), KeyFor(hash, p.id, keyId, token, "initial"));
      }
    case NewKey(owner, keyId, token, name) =>
      if owner in s.principals { AddKeyValid(s, KeyFor(hash, owner, keyId, token, name)); }
    case RevokeKey(id, at) =>
      if id in s.keys { RevokedValid(s, id, at); }
    case UpdatePrincipal(id, patch) =>
    case Reload => ReloadedValid(s);
  }

  // ---- runs ----

  function Run(hash: Hash, s: State, run: seq<Op>): State
    decreases |run|
  {
    if run == [] then s else Run(hash, Do(hash, s, run[0]), run[1..])
  }

  predicate AllGenerated(hash: Hash, s: State, run: seq<Op>)
    decreases |run|
  {
    run == [] || (Generated(hash, s, run[0]) && AllGenerated(hash, Do(hash, s, run[0]), run[1..]))
  }

  lemma {:induction false} RunValid(hash: Hash, s: State, run: seq<Op>)
    requires Valid(s) && AllGenerated(hash, s, run)
    ensures Valid(Run(hash, s, run))
    decreases |run|
  {
    if run != [] {
      OpValid(hash, s, run[0]);
      RunValid(hash, Do(hash, s, run[0]), run[1..]);
    }
  }

  lemma ValidAgrees(hash: Hash, s: State, token: string)
    requires Valid(s)
    ensures Agrees(hash, s, token)
  {
    if id :| ScanFinds(hash, s, token, id) {
      assert s.byHash[hash(token)] == id;
      assert TOKEN_PREFIX <= token && token != "";
    }
    if Authenticate(hash, s, token).Granted? {
      var id := s.byHash[hash(token)];
      assert ScanFinds(hash, s, token, id);
    }
  }

  const EMPTY_STATE := State(map[], map[], [], map[])

  /** In every reachable state, whatever was created, revoked, updated and reloaded before, the index
      gives the answer of the scan, for every token. */
  lemma IndexAgreesWithScan(hash: Hash, run: seq<Op>, token: string)
    requires AllGenerated(hash, EMPTY_STATE, run)
    ensures Agrees(hash, Run(hash, EMPTY_STATE, run), token)
  {
    RunValid(hash, EMPTY_STATE, run);
    ValidAgrees(hash, Run(hash, EMPTY_STATE, run), token);
  }

  /** Persisting and loading changes no answer: only the reason given for a revoked key. */
  lemma ReloadKeepsAnswers(hash: Hash, s: State, token: string)
    requires Valid(s)
    ensures var a, b := Authenticate(hash, s, token), Authenticate(hash, Reloaded(s), token);
            && (a.Granted? || b.Granted? ==> a == b)
            && (a != b ==> a == Denied(InvalidToken) && b == Denied(KeyRevoked))
  {
    var h := hash(token);
    ReloadedValid(s);
    IndexAllIsLast(s.keys, s.order, h);
    var index := IndexAll(s.keys, s.order);
    if h in s.byHash {
      IndexedIsKept(s, h);
    }
  }

  /** A reload remembers revoked keys: a token whose keys are all revoked is answered so. */
  lemma ReloadRemembersRevoked(hash: Hash, s: State, token: string)
    requires Valid(s) && HasPrefix(token) && Unused(s, hash(token))
    ensures Authenticate(hash, Reloaded(s), token) == Denied(KeyRevoked) <==>
            exists id :: id in s.keys && s.keys[id].hash == hash(token)
  {
    var h := hash(token);
    ReloadedValid(s);
    IndexAllIsLast(s.keys, s.order, h);
    assert TOKEN_PREFIX <= token && token != "";
    if id :| id in s.keys && s.keys[id].hash == h {
      assert id in s.order;
      var i :| 0 <= i < |s.order| && s.order[i] == id;
      assert s.keys[s.order[i]].hash == h;
    }
  }

  /** What the live index knows is the last key with that hash, or a revoked one shadowed by others
      that are revoked as well. */
  lemma IndexedIsKept(s: State, h: string)
    requires Valid(s) && h in s.byHash
    ensures h in IndexAll(s.keys, s.order)
  {
    IndexAllIsLast(s.keys, s.order, h);
    var id := s.byHash[h];
    assert id in s.order;
    var i :| 0 <= i < |s.order| && s.order[i] == id;
    assert s.keys[s.order[i]].hash == h;
  }

  // ---- freshness of tokens is exactly what is needed ----

  /** Whatever happens next, with freshly generated ids and tokens, every answer is the scan's. */
  ghost predicate AlwaysAgrees(hash: Hash, s: State) {
    forall run, token | AllGenerated(hash, s, run) :: Agrees(hash, Run(hash, s, run), token)
  }

  lemma ValidAlwaysAgrees(hash: Hash, s: State)
    requires Valid(s)
    ensures AlwaysAgrees(hash, s)
  {
    forall run, token | AllGenerated(hash, s, run) ensures Agrees(hash, Run(hash, s, run), token) {
      RunValid(hash, s, run);
      ValidAgrees(hash, Run(hash, s, run), token);
    }
  }

  function Enable(): Patch {
    Patch(None, "", Some(false), None, "")
  }

  /** Issue a key whose hash is in force already, revoke it, make sure the other key's owner is
      enabled: the scan still finds the other key, the index has lost it. */
  lemma DuplicateLosesAKey(hash: Hash, s: State, op: Op, other: string)
    requires Valid(s) && op.NewKey? && op.owner in s.principals && op.keyId !in s.keys && HasPrefix(op.token)
    requires other in s.keys && s.keys[other].hash == hash(op.token) && s.keys[other].revokedAt.None?
    ensures var run := [RevokeKey(op.keyId, "now"), UpdatePrincipal(s.keys[other].owner, Enable())];
            var end := Run(hash, Do(hash, s, op), run);
            && AllGenerated(hash, Do(hash, s, op), run)
            && ScanFinds(hash, end, op.token, other) && !Authenticate(hash, end, op.token).Granted?
  {
    var h := hash(op.token);
    var s1 := Do(hash, s, op);
    var revoke, enable := RevokeKey(op.keyId, "now"), UpdatePrincipal(s.keys[other].owner, Enable());
    var s2 := Do(hash, s1, revoke);
    var s3 := Do(hash, s2, enable);
    var run := [revoke, enable];
    assert s1.byHash[h] == op.keyId && s1.keys[op.keyId].revokedAt.None?;
    assert h !in s2.byHash && s2.keys[other] == s.keys[other];
    var owner := s.keys[other].owner;
    assert owner in s.principals && s2.principals == s.principals;
    assert s3.principals[owner].disabledAt.None?;
    assert run[1..] == [enable] && run[1..][1..] == [];
    assert Run(hash, s1, run) == Run(hash, s2, run[1..]) == Run(hash, s3, run[1..][1..]) == s3;
    assert AllGenerated(hash, s3, run[1..][1..]) && AllGenerated(hash, s2, run[1..]) && AllGenerated(hash, s1, run);
  }

  /** Issuing a key is harmless, for everything that can happen afterwards, if and only if no key in
      force has the hash of its token. */
  lemma FreshTokenIffAgreement(hash: Hash, s: State, op: Op)
    requires Valid(s) && op.NewKey? && op.owner in s.principals && op.keyId !in s.keys && HasPrefix(op.token)
    ensures Unused(s, hash(op.token)) <==> AlwaysAgrees(hash, Do(hash, s, op))
  {
    if Unused(s, hash(op.token)) {
      OpValid(hash, s, op);
      ValidAlwaysAgrees(hash, Do(hash, s, op));
    } else {
      var other :| other in s.keys && s.keys[other].hash == hash(op.token) && s.keys[other].revokedAt.None?;
      var run := [RevokeKey(op.keyId, "now"), UpdatePrincipal(s.keys[other].owner, Enable())];
      DuplicateLosesAKey(hash, s, op, other);
      OneRunDisagrees(hash, Do(hash, s, op), run, op.token, other);
    }
  }

  lemma OneRunDisagrees(hash: Hash, s: State, run: seq<Op>, token: string, id: string)
    requires AllGenerated(hash, s, run) && ScanFinds(hash, Run(hash, s, run), token, id)
    requires !Authenticate(hash, Run(hash, s, run), token).Granted?
    ensures !AlwaysAgrees(hash, s)
  {
    assert !Agrees(hash, Run(hash, s, run), token);
  }

  // ---- what every operation does to the answers ----

  /** The answer to a token whose key is in force. */
  lemma InForceAnswer(hash: Hash, s: State, token: string, id: string)
    requires Valid(s) && HasPrefix(token) && id in s.keys
    requires s.keys[id].revokedAt.None? && s.keys[id].hash == hash(token)
    ensures s.keys[id].owner in s.principals
    ensures var p := s.principals[s.keys[id].owner];
            Authenticate(hash, s, token) == if p.disabledAt.Some? then Denied(PrincipalDisabled) else Granted(p)
  {
    assert TOKEN_PREFIX <= token && token != "";
    assert s.byHash[hash(token)] == id;
  }

  /** The reason of every answer, by a look at the key table: a key in force decides; without one the
      token is invalid, or revoked when the index still knows a key for it; the index never dangles. */
  lemma ReasonsAreExact(hash: Hash, s: State, token: string)
    requires Valid(s)
    ensures var r := Authenticate(hash, s, token);
            && (r == Denied(EmptyToken) <==> token == "")
            && (r == Denied(WrongPrefix) <==> token != "" && !HasPrefix(token))
            && (r == Denied(PrincipalDisabled) <==>
                  && HasPrefix(token)
                  && exists id :: id in s.keys && KeyOf(hash, s, token, id) && Disabled(s, s.keys[id].owner))
            && (r == Denied(InvalidToken) || r == Denied(KeyRevoked) <==> HasPrefix(token) && Unused(s, hash(token)))
            && (r == Denied(KeyRevoked) ==> exists id :: id in s.keys && s.keys[id].hash == hash(token))
            && r != Denied(DanglingKey) && r != Denied(HashMismatch)
  {
    if HasPrefix(token) && !Unused(s, hash(token)) {
      var id :| id in s.keys && s.keys[id].hash == hash(token) && s.keys[id].revokedAt.None?;
      InForceAnswer(hash, s, token, id);
      assert KeyOf(hash, s, token, id);
    }
  }

  /** The key is in force and the token's. */
  predicate KeyOf(hash: Hash, s: State, token: string, id: string) {
    id in s.keys && s.keys[id].revokedAt.None? && s.keys[id].hash == hash(token)
  }

  predicate Disabled(s: State, owner: string) {
    owner in s.principals && s.principals[owner].disabledAt.Some?
  }

  /** The first token of a new principal is granted to it, and no other token's answer changes. */
  lemma FirstTokenWorks(hash: Hash, s: State, p: Principal, keyId: string, token: string)
    requires Valid(s) && Generated(hash, s, NewPrincipal(p, keyId, token))
    requires RoleOk(p.role, p.namespaces) && HandleFree(s, p.handle)
    ensures var t := Do(hash, s, NewPrincipal(p, keyId, token));
            && Authenticate(hash, t, token) == Granted(p)
            && forall other | hash(other) != hash(token) :: Authenticate(hash, t, other) == Authenticate(hash, s, other)
  {
    var t := Do(hash, s, NewPrincipal(p, keyId, token));
    OpValid(hash, s, NewPrincipal(p, keyId, token));
    InForceAnswer(hash, t, token, keyId);
    forall other | hash(other) != hash(token) ensures Authenticate(hash, t, other) == Authenticate(hash, s, other) {
      OtherAnswersStay(hash, s, t, other);
    }
  }

  /** A token that is issued to a principal is granted to it unless it is disabled, and no other token's
      answer changes. */
  lemma IssuedTokenWorks(hash: Hash, s: State, owner: string, keyId: string, token: string, name: string)
    requires Valid(s) && Generated(hash, s, NewKey(owner, keyId, token, name)) && owner in s.principals
    ensures var t, p := Do(hash, s, NewKey(owner, keyId, token, name)), s.principals[owner];
            && Authenticate(hash, t, token) == (if p.disabledAt.Some? then Denied(PrincipalDisabled) else Granted(p))
            && forall other | hash(other) != hash(token) :: Authenticate(hash, t, other) == Authenticate(hash, s, other)
  {
    var t := Do(hash, s, NewKey(owner, keyId, token, name));
    OpValid(hash, s, NewKey(owner, keyId, token, name));
    InForceAnswer(hash, t, token, keyId);
    forall other | hash(other) != hash(token) ensures Authenticate(hash, t, other) == Authenticate(hash, s, other) {
      OtherAnswersStay(hash, s, t, other);
    }
  }

  /** An answer depends only on the index at the token's hash and on what it leads to. */
  lemma OtherAnswersStay(hash: Hash, s: State, t: State, token: string)
    requires Valid(s) && Get(t.byHash, hash(token)) == Get(s.byHash, hash(token))
    requires forall id | id in s.keys :: id in t.keys && t.keys[id] == s.keys[id]
    requires forall id | id in s.principals :: id in t.principals && t.principals[id] == s.principals[id]
    ensures Authenticate(hash, t, token) == Authenticate(hash, s, token)
  {
  }

  /** A key that is revoked stops working at once, and no other token's answer changes. */
  lemma RevokedTokenStops(hash: Hash, s: State, id: string, at: string, token: string)
    requires Valid(s) && id in s.keys
    ensures var t := Do(hash, s, RevokeKey(id, at));
            && t.keys[id].revokedAt.Some?
            && (HasPrefix(token) && KeyOf(hash, s, token, id) ==> Authenticate(hash, t, token) == Denied(InvalidToken))
            && (hash(token) != s.keys[id].hash || s.keys[id].revokedAt.Some? ==>
                  Authenticate(hash, t, token) == Authenticate(hash, s, token))
  {
    if HasPrefix(token) { assert token != ""; }
  }

  /** No token with this hash is accepted any more. */
  ghost predicate AllInvalid(hash: Hash, s: State, h: string) {
    forall token | HasPrefix(token) && hash(token) == h :: Authenticate(hash, s, token) == Denied(InvalidToken)
  }

  lemma RevokedTokensStop(hash: Hash, s: State, id: string, at: string)
    requires Valid(s) && id in s.keys && s.keys[id].revokedAt.None?
    ensures AllInvalid(hash, Do(hash, s, RevokeKey(id, at)), s.keys[id].hash)
  {
    forall token | HasPrefix(token) && hash(token) == s.keys[id].hash
      ensures Authenticate(hash, Do(hash, s, RevokeKey(id, at)), token) == Denied(InvalidToken)
    {
      RevokedTokenStops(hash, s, id, at, token);
    }
  }

  predicate Issues(hash: Hash, op: Op, h: string) {
    (op.NewPrincipal? || op.NewKey?) && hash(op.token) == h
  }

  lemma StaysUnused(hash: Hash, s: State, op: Op, h: string)
    requires Unused(s, h) && !Issues(hash, op, h)
    ensures Unused(Do(hash, s, op), h)
  {
  }

  /** And it never works again, whatever happens, until its very token is issued once more. */
  lemma {:induction false} RevokedForever(hash: Hash, s: State, run: seq<Op>, token: string)
    requires Valid(s) && AllGenerated(hash, s, run) && Unused(s, hash(token))
    requires forall op | op in run :: !Issues(hash, op, hash(token))
    ensures !Authenticate(hash, Run(hash, s, run), token).Granted?
    decreases |run|
  {
    if run == [] {
      ReasonsAreExact(hash, s, token);
    } else {
      assert run[0] in run && forall op | op in run[1..] :: op in run;
      OpValid(hash, s, run[0]);
      StaysUnused(hash, s, run[0], hash(token));
      RevokedForever(hash, Do(hash, s, run[0]), run[1..], token);
    }
  }

  // ---- updating a principal ----

  /** The update is accepted: the role and the namespaces fit together afterwards. */
  predicate UpdateFits(s: State, id: string, patch: Patch) {
    && id in s.principals
    && RoleOk(if patch.role == "" then s.principals[id].role else patch.role,
              if patch.namespaces.Some? then patch.namespaces.value else s.principals[id].namespaces)
  }

  /** Role, namespaces and note are the patch's where it gives them; a principal is disabled, since the
      time it was first disabled, enabled, or left as it is; nothing else is touched. */
  predicate UpdatedFrom(was: Principal, p: Principal, patch: Patch) {
    && p.id == was.id && p.handle == was.handle
    && (if patch.role != "" then p.role == patch.role else p.role == was.role)
    && (match patch.namespaces case Some(ns) => p.namespaces == ns case None => p.namespaces == was.namespaces)
    && (match patch.note case Some(note) => p.note == note case None => p.note == was.note)
    && (patch.disabled == None ==> p.disabledAt == was.disabledAt)
    && (patch.disabled == Some(false) ==> p.disabledAt == None)
    && (patch.disabled == Some(true) ==>
          p.disabledAt.Some? && (was.disabledAt.Some? ==> p.disabledAt == was.disabledAt)
          && (was.disabledAt.None? ==> p.disabledAt == Some(patch.now)))
  }

  lemma UpdateIsByFields(hash: Hash, s: State, id: string, patch: Patch)
    ensures var t := Do(hash, s, UpdatePrincipal(id, patch));
            && t.keys == s.keys && t.order == s.order && t.byHash == s.byHash && t.principals.Keys == s.principals.Keys
            && (forall i | i in s.principals && i != id :: t.principals[i] == s.principals[i])
            && (UpdateFits(s, id, patch) ==> UpdatedFrom(s.principals[id], t.principals[id], patch))
            && (!UpdateFits(s, id, patch) ==> t == s)
  {
  }

  /** What an accepted update does to the answers: nothing for tokens of other principals; none of the
      principal's own tokens is granted when it is disabled, all of them are when it is enabled, and
      otherwise exactly those that were. */
  lemma UpdateAnswers(hash: Hash, s: State, id: string, patch: Patch, token: string, key: string)
    requires Valid(s) && UpdateFits(s, id, patch) && HasPrefix(token) && KeyOf(hash, s, token, key)
    ensures var t := Do(hash, s, UpdatePrincipal(id, patch));
            var before, after := Authenticate(hash, s, token), Authenticate(hash, t, token);
            && (s.keys[key].owner != id ==> after == before)
            && (s.keys[key].owner == id && patch.disabled == Some(true) ==> after == Denied(PrincipalDisabled))
            && (s.keys[key].owner == id && patch.disabled == Some(false) ==> after == Granted(t.principals[id]))
            && (s.keys[key].owner == id && patch.disabled == None ==> (after.Granted? <==> before.Granted?))
            && (s.keys[key].owner == id && patch.disabled == None && after.Granted? ==>
                  after == Granted(t.principals[id]))
  {
    var t := Do(hash, s, UpdatePrincipal(id, patch));
    OpValid(hash, s, UpdatePrincipal(id, patch));
    UpdateIsByFields(hash, s, id, patch);
    InForceAnswer(hash, s, token, key);
    InForceAnswer(hash, t, token, key);
  }

  /** Tokens without a key in force keep their answer. */
  lemma UpdateKeepsOthers(hash: Hash, s: State, id: string, patch: Patch, token: string)
    requires Valid(s) && (HasPrefix(token) ==> Unused(s, hash(token)))
    ensures Authenticate(hash, Do(hash, s, UpdatePrincipal(id, patch)), token) == Authenticate(hash, s, token)
  {
    UpdateIsByFields(hash, s, id, patch);
    ReasonsAreExact(hash, s, token);
    OpValid(hash, s, UpdatePrincipal(id, patch));
    ReasonsAreExact(hash, Do(hash, s, UpdatePrincipal(id, patch)), token);
  }

  predicate Enables(op: Op, id: string) {
    op.UpdatePrincipal? && op.id == id && op.patch.disabled == Some(false)
  }

  lemma StaysDisabled(hash: Hash, s: State, op: Op, id: string)
    requires Generated(hash, s, op) && Disabled(s, id) && !Enables(op, id)
    ensures Disabled(Do(hash, s, op), id)
  {
    if op.UpdatePrincipal? { UpdateIsByFields(hash, s, op.id, op.patch); }
  }

  /** Nobody gets in as a disabled principal. */
  lemma DisabledGetsNothing(hash: Hash, s: State, id: string, token: string)
    requires Valid(s) && Disabled(s, id)
    ensures var r := Authenticate(hash, s, token); r.Granted? ==> r.principal.id != id
  {
    ValidAgrees(hash, s, token);
  }

  /** Once disabled, no token is granted to the principal, whatever keys are issued to it, revoked or
      reloaded, until it is enabled. */
  lemma {:induction false} DisabledUntilEnabled(hash: Hash, s: State, run: seq<Op>, id: string, token: string)
    requires Valid(s) && AllGenerated(hash, s, run) && Disabled(s, id) && forall op | op in run :: !Enables(op, id)
    ensures var r := Authenticate(hash, Run(hash, s, run), token); r.Granted? ==> r.principal.id != id
    decreases |run|
  {
    if run == [] {
      DisabledGetsNothing(hash, s, id, token);
    } else {
      assert run[0] in run && forall op | op in run[1..] :: op in run;
      OpValid(hash, s, run[0]);
      StaysDisabled(hash, s, run[0], id);
      DisabledUntilEnabled(hash, Do(hash, s, run[0]), run[1..], id, token);
    }
  }

  /** So a successful update with `disabled` locks the principal out. */
  lemma DisablingLocksOut(hash: Hash, s: State, id: string, patch: Patch, run: seq<Op>, token: string)
    requires Valid(s) && UpdateFits(s, id, patch) && patch.disabled == Some(true)
    requires AllGenerated(hash, Do(hash, s, UpdatePrincipal(id, patch)), run)
    requires forall op | op in run :: !Enables(op, id)
    ensures var r := Authenticate(hash, Run(hash, Do(hash, s, UpdatePrincipal(id, patch)), run), token);
            r.Granted? ==> r.principal.id != id
  {
    OpValid(hash, s, UpdatePrincipal(id, patch));
    UpdateIsByFields(hash, s, id, patch);
    DisabledUntilEnabled(hash, Do(hash, s, UpdatePrincipal(id, patch)), run, id, token);
  }

  // ---- the principals ----

  /** An admin has all namespaces, everybody else a list of them; and no two have one handle. */
  ghost predicate PrincipalsProper(s: State) {
    && (forall id | id in s.principals ::
          var p := s.principals[id];
          p.id == id && ((p.role == "admin" && p.namespaces == None)
                         || ((p.role == "provider" || p.role == "user") && p.namespaces.Some?)))
    && (forall i, j | i in s.principals && j in s.principals && i != j ::
          s.principals[i].handle != s.principals[j].handle)
  }

  lemma PrincipalsStayProper(hash: Hash, s: State, op: Op)
    requires PrincipalsProper(s) && Generated(hash, s, op)
    ensures PrincipalsProper(Do(hash, s, op))
  {
    if op.UpdatePrincipal? { UpdateIsByFields(hash, s, op.id, op.patch); }
  }

  /** In every reachable state, whatever was refused and accepted before. */
  lemma {:induction false} AlwaysProper(hash: Hash, s: State, run: seq<Op>)
    requires PrincipalsProper(s) && AllGenerated(hash, s, run)
    ensures PrincipalsProper(Run(hash, s, run))
    decreases |run|
  {
    if run != [] {
      PrincipalsStayProper(hash, s, run[0]);
      AlwaysProper(hash, Do(hash, s, run[0]), run[1..]);
    }
  }

  /** A new principal is accepted exactly when its role and namespaces fit and its handle is free. */
  lemma AcceptedExactly(hash: Hash, s: State, p: Principal, keyId: string, token: string)
    requires PrincipalsProper(s) && Generated(hash, s, NewPrincipal(p, keyId, token))
    ensures p.id in Do(hash, s, NewPrincipal(p, keyId, token)).principals <==>
              && ((p.role == "admin" && p.namespaces == None)
                  || ((p.role == "provider" || p.role == "user") && p.namespaces.Some?))
              && forall id | id in s.principals :: s.principals[id].handle != p.handle
  {
  }
}
