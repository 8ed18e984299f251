/** The credential store's object: tables and index updated in place, persisted after every change. */
module AuthStore {
  import opened Envelope
  import opened Auth

  datatype Problem = NotFound | InvalidRole | HandleInUse

  class AuthStore {
    const hash: Hash
    var principals: map<string, Principal>
    var keys: map<string, ApiKey>
    var order: seq<string>
    var keysByHash: map<string, string>
    var diskPrincipals: map<string, Principal>
    var diskKeys: seq<ApiKey>

    ghost function Abs(): State
      reads this
    {
      State(principals, keys, order, keysByHash)
    }

    /** The files hold the tables, the keys in insertion order. */
    ghost predicate Persisted()
      reads this
    {
      diskPrincipals == principals && ListsKeys(diskKeys, keys, order)
    }

    /** Load the persisted lists and rebuild the index. */
    constructor Load(hash: Hash, diskPrincipals: map<string, Principal>, diskKeys: seq<ApiKey>)
      ensures this.hash == hash
      ensures forall s: State | Persists(s, diskKeys) && s.principals == diskPrincipals ::
                Abs() == Reloaded(s) && Persisted()
    {
      this.hash, this.diskPrincipals, this.diskKeys := hash, diskPrincipals, diskKeys;
      principals, keys, order, keysByHash := diskPrincipals, map[], [], map[];
      new;
      for i := 0 to |diskKeys|
        invariant principals == diskPrincipals == this.diskPrincipals && this.diskKeys == diskKeys
        invariant forall s: State | Persists(s, diskKeys) :: LoadedUpto(s, i, keys, order, keysByHash)
      {
        var k := diskKeys[i];
        forall s: State | Persists(s, diskKeys)
          ensures k.id !in keys && LoadedUpto(s, i + 1, keys[k.id := k], order + [k.id], keysByHash[k.hash := k.id])
        {
          assert LoadedUpto(s, i, keys, order, keysByHash);
          LoadNext(s, diskKeys, i, keys, order, keysByHash);
        }
        if k.id !in keys {
          order := order + [k.id];
        }
        keys := keys[k.id := k];
        keysByHash := keysByHash[k.hash := k.id];
      }
      forall s: State | Persists(s, diskKeys)
        ensures keys == s.keys && order == s.order && keysByHash == Reloaded(s).byHash
      {
        assert LoadedUpto(s, |diskKeys|, keys, order, keysByHash);
        UptoAll(s);
      }
    }

    method PersistKeys()
      requires OrderOk(Abs())
      modifies this`diskKeys
      ensures ListsKeys(diskKeys, keys, order)
    {
      diskKeys := [];
      for i := 0 to |order|
        invariant |diskKeys| == i && forall j | 0 <= j < i :: diskKeys[j] == keys[order[j]]
      {
        diskKeys := diskKeys + [keys[order[i]]];
      }
    }

    /** Verify a token through the index. */
    method AuthenticateToken(token: string) returns (r: Outcome)
      ensures r == Authenticate(hash, Abs(), token)
      ensures Auth.Valid(Abs()) ==> (r.Granted? <==> exists id :: ScanFinds(hash, Abs(), token, id))
    {
      if Auth.Valid(Abs()) { ValidAgrees(hash, Abs(), token); }
      if token == "" {
        return Denied(EmptyToken);
      }
      if !HasPrefix(token) {
        return Denied(WrongPrefix);
      }
      var h := hash(token);
      if h !in keysByHash {
        return Denied(InvalidToken);
      }
      var keyId := keysByHash[h];
      if keyId !in keys || keys[keyId].owner !in principals {
        return Denied(DanglingKey);
      }
      var key := keys[keyId];
      var principal := principals[key.owner];
      if key.hash != h {
        return Denied(HashMismatch);
      }
      if key.revokedAt.Some? {
        return Denied(KeyRevoked);
      }
      if principal.disabledAt.Some? {
        return Denied(PrincipalDisabled);
      }
      r := Granted(principal);
    }

    method StoreKey(key: ApiKey)
      requires OrderOk(Abs()) && key.id !in keys
      modifies this`keys, this`order, this`keysByHash, this`diskKeys
      ensures Abs() == AddKey(old(Abs()), key) && ListsKeys(diskKeys, keys, order)
    {
      AddKeyOrder(Abs(), key);
      keys := keys[key.id := key];
      order := order + [key.id];
      keysByHash := keysByHash[key.hash := key.id];
      PersistKeys();
    }

    method IsHandleFree(handle: string) returns (free: bool)
      ensures free == HandleFree(Abs(), handle)
    {
      var todo := principals.Keys;
      while todo != {}
        invariant todo <= principals.Keys
        invariant forall id | id in principals && id !in todo :: principals[id].handle != handle
        decreases |todo|
      {
        var id :| id in todo;
        if principals[id].handle == handle {
          return false;
        }
        todo := todo - {id};
      }
      free := true;
    }

    /** A new principal with its first key. `token`, `id` and `keyId` are freshly generated. */
    method CreatePrincipal(p: Principal, keyId: string, token: string) returns (problem: Option<Problem>)
      requires Auth.Valid(Abs()) && Persisted() && Generated(hash, Abs(), NewPrincipal(p, keyId, token))
      modifies this
      ensures Auth.Valid(Abs()) && Persisted() && Abs() == Do(hash, old(Abs()), NewPrincipal(p, keyId, token))
      ensures problem == if !RoleOk(p.role, p.namespaces) then Some(InvalidRole)
                         else if !HandleFree(old(Abs()), p.handle) then Some(HandleInUse) else None
      ensures problem.None? ==> Authenticate(hash, Abs(), token) == Granted(p)
    {
      ghost var next := Do(hash, Abs(), NewPrincipal(p, keyId, token));
      OpValid(hash, Abs(), NewPrincipal(p, keyId, token));
      if RoleOk(p.role, p.namespaces) && HandleFree(Abs(), p.handle) {
        FirstTokenWorks(hash, Abs(), p, keyId, token);
      }
      if !RoleOk(p.role, p.namespaces) {
        return Some(InvalidRole);
      }
      var free := IsHandleFree(p.handle);
      if !free {
        return Some(HandleInUse);
      }
      principals := principals[p.id := p];
      diskPrincipals := principals;
      StoreKey(ApiKey(keyId, p.id, hash(token), "initial", None));
      assert Abs() == next;
      problem := None;
    }

    method CreateKey(owner: string, keyId: string, token: string, name: string) returns (problem: Option<Problem>)
      requires Auth.Valid(Abs()) && Persisted() && Generated(hash, Abs(), NewKey(owner, keyId, token, name))
      modifies this
      ensures Auth.Valid(Abs()) && Persisted() && Abs() == Do(hash, old(Abs()), NewKey(owner, keyId, token, name))
      ensures problem == if owner in old(principals) then None else Some(NotFound)
      ensures problem.None? ==> keys == old(keys)[keyId := ApiKey(keyId, owner, hash(token), name, None)]
      ensures problem.None? && old(principals)[owner].disabledAt.None? ==>
                Authenticate(hash, Abs(), token) == Granted(old(principals)[owner])
    {
      OpValid(hash, Abs(), NewKey(owner, keyId, token, name));
      if owner in principals { IssuedTokenWorks(hash, Abs(), owner, keyId, token, name); }
      if owner !in principals {
        return Some(NotFound);
      }
      StoreKey(ApiKey(keyId, owner, hash(token), name, None));
      problem := None;
    }

    /** Revoking twice changes nothing. */
    method Revoke(keyId: string, now: string) returns (key: Option<ApiKey>)
      requires Auth.Valid(Abs()) && Persisted()
      modifies this
      ensures Auth.Valid(Abs()) && Persisted() && Abs() == Do(hash, old(Abs()), RevokeKey(keyId, now))
      ensures key == Get(keys, keyId) && (key.Some? <==> keyId in old(keys))
      ensures key.Some? ==>
                var was := old(keys)[keyId];
                key.value == was.(revokedAt := if was.revokedAt.Some? then was.revokedAt else Some(now))
      ensures key.Some? && old(keys)[keyId].revokedAt.None? ==> AllInvalid(hash, Abs(), key.value.hash)
    {
      if keyId in keys && keys[keyId].revokedAt.None? { RevokedTokensStop(hash, Abs(), keyId, now); }
      ghost var next := Do(hash, Abs(), RevokeKey(keyId, now));
      OpValid(hash, Abs(), RevokeKey(keyId, now));
      if keyId !in keys {
        return None;
      }
      if keys[keyId].revokedAt.None? {
        MarkRevoked(keyId, now);
      }
      assert Abs() == next;
      key := Some(keys[keyId]);
    }

    method MarkRevoked(keyId: string, now: string)
      requires OrderOk(Abs()) && keyId in keys && keys[keyId].revokedAt.None?
      modifies this`keys, this`keysByHash, this`diskKeys
      ensures Abs() == Revoked(old(Abs()), keyId, now) && ListsKeys(diskKeys, keys, order)
    {
      var h := keys[keyId].hash;
      keys := keys[keyId := keys[keyId].(revokedAt := Some(now))];
      keysByHash := keysByHash - {h};
      PersistKeys();
    }

    method Update(id: string, patch: Patch) returns (problem: Option<Problem>)
      requires Auth.Valid(Abs()) && Persisted()
      modifies this
      ensures Auth.Valid(Abs()) && Persisted() && Abs() == Do(hash, old(Abs()), UpdatePrincipal(id, patch))
      ensures problem == if id !in old(principals) then Some(NotFound)
                         else if !UpdateFits(old(Abs()), id, patch) then Some(InvalidRole)
                         else None
      ensures problem.Some? ==> Abs() == old(Abs())
      ensures problem.None? ==>
                && UpdatedFrom(old(principals)[id], principals[id], patch) && principals.Keys == old(principals.Keys)
                && (forall i | i in principals && i != id :: principals[i] == old(principals)[i])
                && keys == old(keys) && keysByHash == old(keysByHash)
    {
      ghost var next := Do(hash, Abs(), UpdatePrincipal(id, patch));
      OpValid(hash, Abs(), UpdatePrincipal(id, patch));
      UpdateIsByFields(hash, Abs(), id, patch);
      if id !in principals {
        return Some(NotFound);
      }
      var p := ApplyPatch(principals[id], patch);
      if p.None? {
        return Some(InvalidRole);
      }
      StorePrincipal(p.value);
      assert Abs() == next;
      problem := None;
    }

    /** The patched principal, or `None` when role and namespaces do not fit. */
    method ApplyPatch(was: Principal, patch: Patch) returns (p: Option<Principal>)
      ensures p == if PatchOk(was, patch) then Some(Patched(was, patch)) else None
    {
      var newRole := if patch.role == "" then was.role else patch.role;
      var newNs := if patch.namespaces.Some? then patch.namespaces.value else was.namespaces;
      if !RoleOk(newRole, newNs) {
        return None;
      }
      var newDisabled := was.disabledAt;
      if patch.disabled == Some(true) {
        newDisabled := if newDisabled.Some? then newDisabled else Some(patch.now);
      } else if patch.disabled == Some(false) {
        newDisabled := None;
      }
      var newNote := if patch.note.Some? then patch.note.value else was.note;
      p := Some(Principal(was.id, was.handle, newRole, newNs, newDisabled, newNote));
    }

    method StorePrincipal(p: Principal)
      modifies this`principals, this`diskPrincipals
      ensures principals == old(principals)[p.id := p] && diskPrincipals == principals
    {
      principals := principals[p.id := p];
      diskPrincipals := principals;
    }
  }

  /** The list holds the keys in the given order. */
  ghost predicate ListsKeys(list: seq<ApiKey>, keys: map<string, ApiKey>, order: seq<string>) {
    |list| == |order| && forall i | 0 <= i < |order| :: order[i] in keys && keys[order[i]] == list[i]
  }

  /** The first `i` keys of a state. */
  ghost function Upto(s: State, i: nat): map<string, ApiKey>
    requires i <= |s.order|
  {
    map id | id in s.keys && id in s.order[..i] :: s.keys[id]
  }

  /** The list is what a well-formed state persists. */
  ghost predicate Persists(s: State, list: seq<ApiKey>) {
    OrderOk(s) && TablesOk(s) && ListsKeys(list, s.keys, s.order)
  }

  ghost predicate LoadedUpto(
      s: State, i: nat, keys: map<string, ApiKey>, order: seq<string>, byHash: map<string, string>)
  {
    i <= |s.order| && order == s.order[..i] && keys == Upto(s, i) && byHash == IndexAll(s.keys, s.order[..i])
  }

  lemma IndexNext(keys: map<string, ApiKey>, order: seq<string>, i: nat)
    requires i < |order| && order[i] in keys
    ensures order[..i + 1] == order[..i] + [order[i]]
    ensures IndexAll(keys, order[..i + 1]) == IndexAll(keys, order[..i])[keys[order[i]].hash := order[i]]
  {
    var more := order[..i + 1];
    assert more[..|more| - 1] == order[..i] && more[|more| - 1] == order[i];
  }

  lemma InFrontOnce(order: seq<string>, i: nat)
    requires i < |order| && forall a, b | 0 <= a < b < |order| :: order[a] != order[b]
    ensures order[i] !in order[..i] && forall id :: id in order[..i + 1] <==> id in order[..i] || id == order[i]
  {
    assert order[..i + 1] == order[..i] + [order[i]];
    forall j | 0 <= j < i ensures order[..i][j] != order[i] { assert order[j] != order[i]; }
  }

  lemma UptoNext(s: State, i: nat)
    requires OrderOk(s) && i < |s.order|
    ensures s.order[i] !in Upto(s, i) && Upto(s, i + 1) == Upto(s, i)[s.order[i] := s.keys[s.order[i]]]
  {
    InFrontOnce(s.order, i);
  }

  lemma LoadOne(s: State, list: seq<ApiKey>, i: nat)
    requires Persists(s, list) && i < |list|
    ensures var k := list[i];
            && k.id !in Upto(s, i) && s.order[i] == k.id && s.keys[s.order[i]] == k
            && Upto(s, i + 1) == Upto(s, i)[k.id := k] && s.order[..i + 1] == s.order[..i] + [k.id]
            && IndexAll(s.keys, s.order[..i + 1]) == IndexAll(s.keys, s.order[..i])[k.hash := k.id]
  {
    IndexNext(s.keys, s.order, i);
    UptoNext(s, i);
  }

  lemma LoadNext(
      s: State, list: seq<ApiKey>, i: nat, keys: map<string, ApiKey>, order: seq<string>, byHash: map<string, string>)
    requires Persists(s, list) && i < |list| && LoadedUpto(s, i, keys, order, byHash)
    ensures var k := list[i];
            k.id !in keys && LoadedUpto(s, i + 1, keys[k.id := k], order + [k.id], byHash[k.hash := k.id])
  {
    LoadOne(s, list, i);
  }

  lemma UptoAll(s: State)
    requires OrderOk(s)
    ensures Upto(s, |s.order|) == s.keys && s.order[..|s.order|] == s.order
  {
    assert s.order[..|s.order|] == s.order;
  }
}
