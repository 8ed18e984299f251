/** The cluster module's single stateful object. Its fields are updated in place; `Abs` is the
    abstract node state, and every method is tied to the state function of module Node. */
module ClusterStore {
  import opened Envelope
  import opened Merkle
  import opened Node
  import opened Exchange

  class ClusterStore {
    const id: NodeId
    const cfg: Config
    const sha: Sha
    var datasets: set<string>
    var registry: map<LocalKey, string>
    var clock: int
    var localVersions: map<LocalKey, Version>
    var tombstones: map<LocalKey, Tombstone>
    var disk: Saved
    var foreign: Overlay
    var sessions: map<NodeId, Peer>
    var evictedUntil: map<NodeId, real>

    ghost function Abs(): Node
      reads this
    {
      Node(id, datasets, registry, clock, localVersions, tombstones, disk, foreign, sessions, evictedUntil)
    }

    /** Build the store from a persisted state file; overlay, sessions and cooldowns start empty. */
    constructor Load(
        id: NodeId, cfg: Config, sha: Sha, saved: Saved, datasets: set<string>, registry: map<LocalKey, string>)
      ensures this.id == id && this.cfg == cfg && this.sha == sha
      ensures Abs() == Node(id, datasets, registry, saved.clock, saved.localVersions, saved.tombstones, saved,
                            map[], map[], map[])
    {
      this.id, this.cfg, this.sha := id, cfg, sha;
      this.datasets, this.registry := datasets, registry;
      clock, localVersions, tombstones, disk := saved.clock, saved.localVersions, saved.tombstones, saved;
      foreign, sessions, evictedUntil := map[], map[], map[];
    }

    // ---- version minting ----

    method NextTimestamp(wall: int) returns (ts: int)
      modifies this`clock
      ensures ts == NextTs(old(clock), wall) && clock == ts
      ensures ts > old(clock) && ts >= wall && (ts == wall || ts == old(clock) + 1)
    {
      ts := if wall >= clock + 1 then wall else clock + 1;
      clock := ts;
    }

    method NextVersion(wall: int) returns (v: Version)
      modifies this`clock
      ensures v == Version(clock, id) && clock == NextTs(old(clock), wall)
    {
      var ts := NextTimestamp(wall);
      v := Version(ts, id);
    }

    method NextVersionAfter(wall: int, floor: int) returns (v: Version)
      modifies this`clock
      ensures v == Version(clock, id) && clock == NextTsAfter(old(clock), wall, floor)
      ensures clock > old(clock) && clock > floor && clock >= wall
      ensures clock == wall || clock == old(clock) + 1 || clock == floor + 1
    {
      var ts := if wall >= clock + 1 then wall else clock + 1;
      if floor + 1 > ts {
        ts := floor + 1;
      }
      clock := ts;
      v := Version(ts, id);
    }

    method ObserveVersion(ms: int)
      modifies this`clock
      ensures clock == Max(old(clock), ms)
      ensures clock >= old(clock) && clock >= ms && (clock == old(clock) || clock == ms)
    {
      if ms > clock {
        clock := ms;
      }
    }

    method SaveState()
      modifies this`disk
      ensures Abs() == Save(old(Abs())) && disk == Saved(clock, localVersions, tombstones)
    {
      disk := Saved(clock, localVersions, tombstones);
    }

    /** Give every registered record without a version one, and save once if anything changed. What
        comes out is what stamping the records one by one leaves. */
    method EnsureLocalVersions(wall: int) returns (ghost order: seq<LocalKey>)
      modifies this`clock, this`localVersions, this`disk
      ensures Abs() == StampAll(old(Abs()), wall, order) && Versioned(Abs())
      ensures old(Versioned(Abs())) ==> Abs() == old(Abs())
    {
      var changed := false;
      var todo := registry.Keys;
      ghost var n := Abs();
      order := [];
      while todo != {}
        invariant todo <= registry.Keys
        invariant forall lk | lk in registry && lk !in todo :: lk in localVersions || lk in tombstones
        invariant StampedSoFar(n, wall, order, Abs()) && changed == (order != [])
        decreases |todo|
      {
        var lk :| lk in todo;
        ghost var cur := Abs();
        var stamped := StampRecord(lk, wall);
        StampedNext(n, wall, order, cur, lk, Abs());
        if stamped {
          changed := true;
          order := order + [lk];
        }
        todo := todo - {lk};
      }
      if changed {
        SaveState();
      }
    }

    /** The version of one record, when it has none; nothing is saved yet. */
    method StampRecord(lk: LocalKey, wall: int) returns (stamped: bool)
      requires lk in registry
      modifies this`clock, this`localVersions
      ensures stamped == Unversioned(old(Abs()), lk)
      ensures Abs() == Stamp(old(Abs()), wall, lk).(disk := disk)
      ensures lk in localVersions || lk in tombstones
      ensures forall l | l in old(localVersions) :: l in localVersions
    {
      stamped := lk !in localVersions && lk !in tombstones;
      if stamped {
        var ts := NextTimestamp(wall);
        localVersions := localVersions[lk := Version(ts, id)];
      }
    }

    // ---- indexes ----

    method LocalIndexOf(ns: set<string>) returns (idx: Index)
      ensures idx == LocalIndex(Abs(), ns)
      ensures forall k :: k in idx <==> k.origin == id && InScope(ns, k.dataset) && Owns(LocalOf(k))
      ensures forall k | k in idx ::
                idx[k] == if LocalOf(k) in tombstones then tombstones[LocalOf(k)].version else localVersions[LocalOf(k)]
    {
      idx := map[];
      var todo := registry.Keys;
      while todo != {}
        invariant todo <= registry.Keys
        invariant forall k :: k in idx <==>
                    && k.origin == id && InScope(ns, k.dataset) && LocalOf(k) in registry && LocalOf(k) !in todo
                    && LocalOf(k) in localVersions
        invariant forall k | k in idx :: idx[k] == localVersions[LocalOf(k)]
        decreases |todo|
      {
        var lk :| lk in todo;
        if InScope(ns, lk.dataset) && lk in localVersions {
          idx := idx[KeyOf(id, lk) := localVersions[lk]];
        }
        todo := todo - {lk};
      }
      todo := tombstones.Keys;
      ghost var n := Abs();
      while todo != {}
        invariant todo <= tombstones.Keys
        invariant forall k :: k in idx <==>
                    && k.origin == id && InScope(ns, k.dataset)
                    && ((LocalOf(k) in registry && LocalOf(k) in localVersions)
                        || (LocalOf(k) in tombstones && LocalOf(k) !in todo))
        invariant forall k | k in idx ::
                    idx[k] == if LocalOf(k) in tombstones && LocalOf(k) !in todo then tombstones[LocalOf(k)].version
                              else localVersions[LocalOf(k)]
        decreases |todo|
      {
        var lk :| lk in todo;
        if InScope(ns, lk.dataset) {
          idx := idx[KeyOf(id, lk) := tombstones[lk].version];
        }
        todo := todo - {lk};
      }
      forall k ensures k in idx <==> k in LocalIndex(n, ns) { OwnKeysExact(n, k); }
    }

    /** A record of ours, live or deleted. */
    predicate Owns(lk: LocalKey)
      reads this
    {
      lk in tombstones || (lk in registry && lk in localVersions)
    }

    method FullIndexOf(ns: set<string>) returns (idx: Index)
      ensures idx == FullIndex(Abs(), ns)
      ensures forall k ::
                k in idx <==> InScope(ns, k.dataset) && (k in foreign || (k.origin == id && Owns(LocalOf(k))))
      ensures forall k | k in idx && k in foreign :: idx[k] == foreign[k].version
    {
      var local := LocalIndexOf(ns);
      idx := local;
      var todo := foreign.Keys;
      AllForeign(local, foreign, ns);
      while todo != {}
        invariant todo <= foreign.Keys && idx == WithForeign(local, foreign, ns, todo)
        decreases |todo|
      {
        var k :| k in todo;
        ForeignNext(local, foreign, ns, todo, k);
        if InScope(ns, k.dataset) {
          idx := idx[k := foreign[k].version];
        }
        todo := todo - {k};
      }
      AllForeign(local, foreign, ns);
    }

    // ---- inbound ----

    method ApplyInbound(env: Envelope, now: real) returns (stored: bool)
      modifies this`foreign
      ensures stored == Accepts(old(Abs()), env, now)
      ensures Abs() == Apply(old(Abs()), env, now)
      ensures var o := env.key.origin;
              stored <==>
                && o != id && !(o in evictedUntil && now < evictedUntil[o])
                && (env.key in old(foreign) ==> After(env.version, old(foreign)[env.key].version))
      ensures foreign == if stored then old(foreign)[env.key := env] else old(foreign)
    {
      if env.key.origin == id {
        return false;
      }
      if env.key.origin in evictedUntil && now < evictedUntil[env.key.origin] {
        return false;
      }
      var cur := VersionAt(foreign, env.key);
      if !Newer(env.version, cur) {
        return false;
      }
      foreign := foreign[env.key := env];
      return true;
    }

    /** Apply a batch of envelopes in order. */
    method ApplyBatch(envs: seq<Envelope>, now: real) returns (accepted: nat)
      modifies this`foreign
      ensures Abs() == ApplyList(old(Abs()), envs, now)
      ensures accepted == CountStored(old(Abs()), envs, now)
    {
      accepted := 0;
      ghost var n := Abs();
      for i := 0 to |envs|
        invariant Abs() == ApplyList(n, envs[..i], now)
        invariant accepted == CountStored(n, envs[..i], now)
      {
        assert envs[..i + 1][..i] == envs[..i];
        var stored := ApplyInbound(envs[i], now);
        if stored {
          accepted := accepted + 1;
        }
      }
      assert envs[..|envs|] == envs;
    }

    // ---- handlers: a peer calls us ----

    method TouchPeer(from: NodeId, now: real)
      modifies this`sessions
      ensures Abs() == Touch(old(Abs()), from, now)
      ensures sessions == if from in old(sessions) then old(sessions)[from := Peer(old(sessions)[from].namespaces, now)]
                          else old(sessions)
    {
      if from in sessions {
        sessions := sessions[from := sessions[from].(lastSeen := now)];
      }
    }

    method HandleOpen(from: NodeId, offered: set<string>, now: real) returns (accepted: set<string>)
      modifies this`sessions, this`evictedUntil
      ensures accepted == Accepted(old(Abs()), offered)
      ensures Abs() == Open(old(Abs()), from, accepted, now)
      ensures accepted == offered + datasets && sessions == old(sessions)[from := Peer(accepted, now)]
      ensures evictedUntil == old(evictedUntil) - {from}
    {
      accepted := offered + datasets;
      sessions := sessions[from := Peer(accepted, now)];
      evictedUntil := evictedUntil - {from};
    }

    method AllowedFor(from: NodeId, requested: set<string>) returns (base: set<string>)
      ensures base == Allowed(Abs(), from, requested)
      ensures forall d ::
                d in base <==>
                  && (if from in sessions then d in sessions[from].namespaces else d in datasets)
                  && (requested == {} || d in requested)
    {
      base := if from in sessions then sessions[from].namespaces else datasets;
      if requested != {} {
        base := base * requested;
      }
    }

    method ServeMerkle(from: NodeId, ns: set<string>, now: real) returns (hashes: map<nat, Digest>)
      requires cfg.buckets > 0
      modifies this`sessions
      ensures Abs() == Touch(old(Abs()), from, now)
      ensures hashes == BucketHashes(sha, TheirView(old(Abs()), from, ns), cfg.buckets)
    {
      TouchInvisible(Abs(), from, now);
      TouchPeer(from, now);
      var allowed := AllowedFor(from, ns);
      var idx := FullIndexOf(allowed);
      var visible := map k | k in idx && k.dataset in allowed :: idx[k];
      assert visible == TheirView(Abs(), from, ns);
      hashes := ComputeBucketHashes(sha, visible, cfg.buckets);
    }

    method ServeDigest(from: NodeId, ns: set<string>, buckets: set<nat>, now: real) returns (rows: Index)
      requires cfg.buckets > 0
      modifies this`sessions
      ensures Abs() == Touch(old(Abs()), from, now)
      ensures rows == RowsIn(sha, TheirView(old(Abs()), from, ns), cfg.buckets, buckets)
    {
      TouchInvisible(Abs(), from, now);
      TouchPeer(from, now);
      var allowed := AllowedFor(from, ns);
      var idx := FullIndexOf(allowed);
      rows := map k | k in idx && k.dataset in allowed && BucketOf(sha, k, cfg.buckets) in buckets :: idx[k];
      assert rows == RowsIn(sha, TheirView(Abs(), from, ns), cfg.buckets, buckets);
    }

    method EnvelopeFor(k: Key) returns (env: Option<Envelope>)
      ensures env == BuildFor(Abs(), k)
    {
      if k.origin != id {
        return Get(foreign, k);
      }
      var lk := LocalOf(k);
      if lk in tombstones {
        return Some(Envelope(k, tombstones[lk].version, true, None));
      }
      if lk !in localVersions || lk !in registry {
        return None;
      }
      return Some(Envelope(k, localVersions[lk], false, Some(registry[lk])));
    }

    method BuildAll(keys: set<Key>) returns (out: Overlay)
      ensures out == Built(Abs(), keys)
    {
      out := map[];
      var todo := keys;
      while todo != {}
        invariant todo <= keys
        invariant out == map k | k in keys && k !in todo && BuildFor(Abs(), k).Some? :: BuildFor(Abs(), k).value
        decreases |todo|
      {
        var k :| k in todo;
        var env := EnvelopeFor(k);
        if env.Some? {
          out := out[k := env.value];
        }
        todo := todo - {k};
      }
    }

    method ServePull(from: NodeId, keys: set<Key>, now: real) returns (out: Overlay)
      modifies this`sessions
      ensures Abs() == Touch(old(Abs()), from, now)
      ensures out == Served(old(Abs()), from, keys)
    {
      TouchServes(Abs(), from, now);
      TouchPeer(from, now);
      var allowed := AllowedFor(from, {});
      var inside := set k | k in keys && k.dataset in allowed;
      out := BuildAll(inside);
      ServedInside(Abs(), from, keys);
    }

    method ServeUpdates(from: NodeId, envs: seq<Envelope>, now: real) returns (accepted: nat)
      modifies this`sessions, this`foreign
      ensures Abs() == ApplyList(Touch(old(Abs()), from, now), envs, now)
      ensures accepted == CountStored(Touch(old(Abs()), from, now), envs, now)
    {
      TouchPeer(from, now);
      accepted := ApplyBatch(envs, now);
    }

    // ---- liveness and housekeeping ----

    /** The single eviction path. */
    method DisconnectPeer(peer: NodeId, now: real) returns (existed: bool)
      modifies this`sessions, this`foreign, this`evictedUntil
      ensures existed == (peer in old(sessions))
      ensures Abs() == Evict(cfg, old(Abs()), {peer}, now)
      ensures evictedUntil == old(evictedUntil)[peer := now + cfg.hold + cfg.keepalive]
      ensures forall k | k in foreign :: k.origin != peer
    {
      EvictOne(cfg, Abs(), peer, now);
      existed := peer in sessions;
      sessions := sessions - {peer};
      foreign := map k | k in foreign && k.origin != peer :: foreign[k];
      evictedUntil := evictedUntil[peer := now + cfg.hold + cfg.keepalive];
    }

    method CheckHoldNow(now: real) returns (dropped: set<NodeId>)
      modifies this`sessions, this`foreign, this`evictedUntil
      ensures dropped == Stale(cfg, old(Abs()), now)
      ensures Abs() == CheckHold(cfg, old(Abs()), now)
      ensures forall p :: p in dropped <==> p in old(sessions) && now - old(sessions)[p].lastSeen > cfg.hold
      ensures sessions == old(sessions) - dropped
      ensures ForgetsOrigins(old(foreign), foreign, dropped)
      ensures CoolsDown(old(evictedUntil), evictedUntil, dropped, now + cfg.hold + cfg.keepalive)
    {
      ghost var n := Abs();
      dropped := set p | p in sessions && now - sessions[p].lastSeen > cfg.hold;
      var todo := dropped;
      ghost var done: set<NodeId> := {};
      EvictNobody(cfg, n, now);
      while todo != {}
        invariant todo <= dropped && done == dropped - todo
        invariant Abs() == Evict(cfg, n, done, now)
        decreases |todo|
      {
        var p :| p in todo;
        var existed := DisconnectPeer(p, now);
        EvictTwice(cfg, n, done, {p}, now);
        todo, done := todo - {p}, done + {p};
      }
      assert done == dropped;
      EvictByFields(cfg, n, dropped, now);
    }

    method PruneSuppression(now: real)
      modifies this`evictedUntil
      ensures Abs() == Prune(old(Abs()), now)
      ensures forall o ::
                Get(evictedUntil, o)
                == (if o in old(evictedUntil) && now < old(evictedUntil)[o] then Some(old(evictedUntil)[o]) else None)
    {
      evictedUntil := map o | o in evictedUntil && now < evictedUntil[o] :: evictedUntil[o];
    }

    /** Forget expired tombstones, our own and replicated ones, and tell how many. */
    method GcTombstones(wall: int) returns (removed: nat)
      modifies this`tombstones, this`disk, this`foreign
      ensures Abs() == Gc(cfg, old(Abs()), wall)
      ensures forall lk ::
                lk in tombstones <==>
                  lk in old(tombstones) && wall - old(tombstones)[lk].deletedAt <= cfg.RetentionMs()
      ensures forall lk | lk in tombstones :: tombstones[lk] == old(tombstones)[lk]
      ensures forall k ::
                k in foreign <==>
                  && k in old(foreign)
                  && (old(foreign)[k].tombstone ==> wall - old(foreign)[k].version.ms <= cfg.RetentionMs())
      ensures forall k | k in foreign :: foreign[k] == old(foreign)[k]
      ensures disk == if tombstones == old(tombstones) then old(disk) else Saved(clock, localVersions, tombstones)
      ensures removed == |old(tombstones)| - |tombstones| + |old(foreign)| - |foreign|
    {
      var own := CollectOwn(wall);
      var goneForeign := set k | k in foreign && foreign[k].tombstone && Expired(cfg, foreign[k].version.ms, wall);
      GoneForeign(cfg, foreign, wall, goneForeign);
      foreign := foreign - goneForeign;
      removed := own + |goneForeign|;
    }

    method CollectOwn(wall: int) returns (removed: nat)
      modifies this`tombstones, this`disk
      ensures Abs() == GcOwn(cfg, old(Abs()), wall)
      ensures removed == |old(tombstones)| - |tombstones|
    {
      var gone := set lk | lk in tombstones && Expired(cfg, tombstones[lk].deletedAt, wall);
      GoneOwn(cfg, Abs(), wall, gone);
      if gone != {} {
        tombstones := tombstones - gone;
        SaveState();
      }
      removed := |gone|;
    }

    /** A local create, update or delete: the registry write, its version stamp and the save, and
        the envelope that is broadcast afterwards. */
    method OnLocalMutation(wall: int, lk: LocalKey, change: Change) returns (env: Option<Envelope>)
      modifies this`registry, this`clock, this`localVersions, this`tombstones, this`disk
      ensures Abs() == Mutate(old(Abs()), wall, lk, change)
      ensures clock > old(clock) && clock >= wall && disk == Saved(clock, localVersions, tombstones)
      ensures var version := Version(clock, id);
              match change
              case Put(payload) =>
                && registry == old(registry)[lk := payload] && localVersions == old(localVersions)[lk := version]
                && tombstones == old(tombstones) - {lk}
                && env == Some(Envelope(Key(lk.dataset, id, lk.service), version, false, Some(payload)))
              case Delete =>
                && registry == old(registry) - {lk} && localVersions == old(localVersions) - {lk}
                && tombstones == old(tombstones)[lk := Tombstone(version, clock)]
                && env == Some(Envelope(Key(lk.dataset, id, lk.service), version, true, None))
    {
      var ts := NextTimestamp(wall);
      match change {
        case Delete =>
          registry := registry - {lk};
          tombstones := tombstones[lk := Tombstone(Version(ts, id), ts)];
          localVersions := localVersions - {lk};
        case Put(payload) =>
          registry := registry[lk := payload];
          localVersions := localVersions[lk := Version(ts, id)];
          tombstones := tombstones - {lk};
      }
      SaveState();
      env := EnvelopeFor(KeyOf(id, lk));
    }

    // ---- orchestration: we call a peer ----

    method PullFrom(remote: ClusterStore, keys: set<Key>, now: real, remoteNow: real, reachable: bool)
      returns (pulled: nat, ok: bool)
      requires this != remote && OverlayOk(remote.Abs())
      requires remote.Abs() == Touch(remote.Abs(), id, remoteNow)
      modifies this`foreign, remote`sessions
      ensures remote.Abs() == old(remote.Abs())
      ensures Abs() == if ok then PulledState(old(Abs()), remote.Abs(), keys, now) else old(Abs())
      ensures ok ==> pulled == |Taken(old(Abs()), Served(remote.Abs(), id, keys), now)|
      ensures reachable ==> ok
    {
      if keys == {} {
        NoKeysNothingSent(Abs(), remote.Abs(), id, now);
        return 0, true;
      }
      if !reachable {
        return 0, false;
      }
      var envs := remote.ServePull(id, keys, remoteNow);
      SentKeyed(remote.Abs(), id, keys);
      var list := ToList(envs);
      ListIsAbsorb(Abs(), list, envs, now);
      pulled := ApplyBatch(list, now);
      ok := true;
    }

    method PushTo(remote: ClusterStore, keys: set<Key>, remoteNow: real, reachable: bool)
      returns (pushed: nat, ok: bool)
      requires this != remote && OverlayOk(Abs())
      requires remote.Abs() == Touch(remote.Abs(), id, remoteNow)
      modifies remote`sessions, remote`foreign
      ensures remote.Abs() == old(remote.Abs()).(foreign := remote.foreign)
      ensures remote.foreign ==
                (if ok then PushedOverlay(Abs(), old(remote.Abs()), keys, remoteNow) else old(remote.foreign))
      ensures ok ==> pushed == |Taken(old(remote.Abs()), Built(Abs(), keys), remoteNow)|
      ensures reachable ==> ok
    {
      NoKeysNothingSent(remote.Abs(), remote.Abs(), id, remoteNow);
      SentKeyed(Abs(), id, keys);
      var envs := BuildAll(keys);
      if envs == map[] {
        return 0, true;
      }
      if !reachable {
        return 0, false;
      }
      var list := ToList(envs);
      ListIsAbsorb(remote.Abs(), list, envs, remoteNow);
      pushed := remote.ServeUpdates(id, list, remoteNow);
      ok := true;
    }

    /** Fetch the rows of the differing buckets, pull what beats ours and push what beats theirs. */
    method Transfer(remote: ClusterStore, localIndex: Index, diff: set<nat>, now: real, remoteNow: real, reach: nat)
      returns (pulled: nat, pushed: nat, ok: bool)
      requires this != remote && remote.id in sessions
      requires cfg.buckets > 0 && remote.cfg.buckets > 0
      requires OverlayOk(Abs()) && OverlayOk(remote.Abs()) && remote.Abs() == Touch(remote.Abs(), id, remoteNow)
      modifies this`foreign, remote`sessions, remote`foreign
      ensures var l, r := old(Abs()), old(remote.Abs());
              var y := TheirView(r, id, l.sessions[remote.id].namespaces);
              var rows, sub := RowsIn(remote.sha, y, remote.cfg.buckets, diff),
                               RowsIn(sha, localIndex, cfg.buckets, diff);
              var pull, push := NewerKeys(rows, sub), NewerKeys(sub, rows);
              var after := PulledState(l, r, pull, now);
              && (Abs() == after || (!ok && Abs() == l))
              && remote.Abs() == r.(foreign := if ok then PushedOverlay(after, r, push, remoteNow) else r.foreign)
              && (ok ==>
                    && pulled == |Taken(l, Served(r, id, pull), now)|
                    && pushed == |Taken(r, Built(after, push), remoteNow)|)
              && (reach >= 4 ==> ok)
    {
      ghost var l, r := Abs(), remote.Abs();
      pulled, pushed, ok := 0, 0, false;
      if reach < 2 { return; }
      var rows := remote.ServeDigest(id, sessions[remote.id].namespaces, diff, remoteNow);
      var sub := RowsIn(sha, localIndex, cfg.buckets, diff);
      var toPull := NewerKeys(rows, sub);
      PulledStateOk(l, r, toPull, now);
      pulled, ok := PullFrom(remote, toPull, now, remoteNow, reach >= 3);
      if ok {
        pushed, ok := PushTo(remote, NewerKeys(sub, rows), remoteNow, reach >= 4);
      }
    }

    /** The calls of one anti-entropy round. `reach` is how many of the remote calls get through;
        the first that does not aborts the rest. */
    method Rounds(remote: ClusterStore, now: real, remoteNow: real, reach: nat)
      returns (pulled: nat, pushed: nat, ok: bool)
      requires this != remote && remote.id in sessions && sha == remote.sha
      requires cfg.buckets > 0 && remote.cfg.buckets > 0
      requires OverlayOk(Abs()) && OverlayOk(remote.Abs())
      modifies this`foreign, remote`sessions, remote`foreign
      ensures var l, r := old(Abs()), old(remote.Abs());
              var x, y := OurView(l, l.sessions[remote.id].namespaces),
                          TheirView(r, id, l.sessions[remote.id].namespaces);
              var diff := DifferingBuckets(BucketHashes(sha, x, cfg.buckets), BucketHashes(sha, y, remote.cfg.buckets));
              var pull := PullSet(sha, x, cfg.buckets, y, remote.cfg.buckets, diff);
              var push := PullSet(sha, y, remote.cfg.buckets, x, cfg.buckets, diff);
              var after := PulledState(l, r, pull, now);
              && (Abs() == after || (!ok && Abs() == l))
              && remote.Abs() == (if reach == 0 then r else Touch(r, id, remoteNow)).(foreign := remote.foreign)
              && remote.foreign == (if ok then PushedOverlay(after, r, push, remoteNow) else r.foreign)
              && (ok ==>
                    && pulled == |Taken(l, Served(r, id, pull), now)|
                    && pushed == |Taken(r, Built(after, push), remoteNow)|)
              && (reach >= 4 ==> ok)
      ensures var l, r := old(Abs()), old(remote.Abs());
              var ns := l.sessions[remote.id].namespaces;
              OurView(l, ns) == TheirView(r, id, ns) && cfg.buckets == remote.cfg.buckets && reach >= 1 ==>
                ok && pulled == 0 && pushed == 0 && foreign == l.foreign && remote.foreign == r.foreign
    {
      ghost var l, r := Abs(), remote.Abs();
      pulled, pushed, ok := 0, 0, false;
      var ns := sessions[remote.id].namespaces;
      var localIndex := FullIndexOf(ns);
      var localBuckets := ComputeBucketHashes(sha, localIndex, cfg.buckets);
      if reach < 1 { return; }
      ghost var visible := TheirView(r, id, ns);
      TouchInvisible(r, id, remoteNow);
      TouchServes(r, id, remoteNow);
      var remoteBuckets := remote.ServeMerkle(id, ns, remoteNow);
      var diff := DifferingBuckets(localBuckets, remoteBuckets);
      assert localBuckets == remoteBuckets ==> diff == {};
      if diff == {} {
        NoBucketsNoRows(sha, localIndex, cfg.buckets, visible, remote.cfg.buckets);
        NoKeysNothingSent(l, r, id, now);
        NoKeysNothingSent(r, l, id, remoteNow);
        NoKeysNothingSent(PulledState(l, r, {}, now), l, id, remoteNow);
        ok := true;
        return;
      }
      pulled, pushed, ok := Transfer(remote, localIndex, diff, now, remoteNow, reach);
    }

    /** Anti-entropy between two stores whose records all have versions. When all calls get through, both overlays end
        exactly as after a whole-index exchange in both directions, and the counts are the numbers
        of records that really changed, unless two hashed inputs collide. When one fails, at most
        the completed pull has happened. Two sides that already agree are done after the first call,
        whatever the hash does. */
    method ReconcileStamped(remote: ClusterStore, now: real, remoteNow: real, reach: nat)
      returns (pulled: nat, pushed: nat, ok: bool)
      requires this != remote && remote.id in sessions && sha == remote.sha
      requires cfg.buckets > 0 && remote.cfg.buckets > 0
      requires OverlayOk(Abs()) && OverlayOk(remote.Abs())
      requires CleanNode(Abs()) && CleanNode(remote.Abs())
      modifies this`foreign, remote`sessions, remote`foreign
      ensures var l, r := old(Abs()), old(remote.Abs());
              var ns := l.sessions[remote.id].namespaces;
              var x, y := OurView(l, ns), TheirView(r, id, ns);
              Collision(sha, x, cfg.buckets, y, remote.cfg.buckets) ||
                (&& (ok ==>
                      && foreign == Absorb(l, Offer(r, y), now) && pulled == |Taken(l, Offer(r, y), now)|
                      && remote.foreign == Absorb(r, Offer(l, x), remoteNow)
                      && pushed == |Taken(r, Offer(l, x), remoteNow)|)
                 && (!ok ==>
                       remote.foreign == r.foreign && (foreign == l.foreign || foreign == Absorb(l, Offer(r, y), now))))
      ensures var l, r := old(Abs()), old(remote.Abs());
              var ns := l.sessions[remote.id].namespaces;
              OurView(l, ns) == TheirView(r, id, ns) && cfg.buckets == remote.cfg.buckets && reach >= 1 ==>
                ok && pulled == 0 && pushed == 0 && foreign == l.foreign && remote.foreign == r.foreign
      ensures Abs() == old(Abs()).(foreign := foreign)
      ensures remote.Abs()
           == (if reach == 0 then old(remote.Abs()) else Touch(old(remote.Abs()), id, remoteNow))
              .(foreign := remote.foreign)
      ensures reach >= 4 ==> ok
      ensures OverlayOk(Abs()) && OverlayOk(remote.Abs()) && CleanNode(Abs()) && CleanNode(remote.Abs())
    {
      ghost var l, r := Abs(), remote.Abs();
      CleanIsIndexed(l);
      CleanIsIndexed(r);
      ghost var pull, push := RoundsKeep(sha, l, cfg.buckets, r, remote.cfg.buckets, now, remoteNow,
                                              sessions[remote.id].namespaces);
      ghost var ns := sessions[remote.id].namespaces;
      if !Collision(sha, OurView(l, ns), cfg.buckets, TheirView(r, id, ns), remote.cfg.buckets) {
        ReconcileExact(sha, l, cfg.buckets, r, remote.cfg.buckets, ns, now, remoteNow);
      }
      pulled, pushed, ok := Rounds(remote, now, remoteNow, reach);
    }

    /** `reconcile`: building an index first stamps records without a version, here and, once the first
        call got through, there (`l` and `r` are the two states after that); from then on it is the
        exchange above. */
    method Reconcile(remote: ClusterStore, wall: int, remoteWall: int, now: real, remoteNow: real, reach: nat)
      returns (pulled: nat, pushed: nat, ok: bool, ghost l: Node, ghost r: Node)
      requires this != remote && remote.id in sessions && sha == remote.sha
      requires cfg.buckets > 0 && remote.cfg.buckets > 0
      requires OverlayOk(Abs()) && OverlayOk(remote.Abs())
      requires CleanNode(Abs()) && CleanNode(remote.Abs())
      modifies this`clock, this`localVersions, this`disk, this`foreign
      modifies remote`clock, remote`localVersions, remote`disk, remote`sessions, remote`foreign
      ensures StampedFrom(old(Abs()), wall, l)
      ensures if reach == 0 then r == old(remote.Abs()) else StampedFrom(old(remote.Abs()), remoteWall, r)
      ensures l.sessions == old(sessions)
      ensures var ns := old(sessions)[remote.id].namespaces;
              var x, y := OurView(l, ns), TheirView(r, id, ns);
              && (Collision(sha, x, cfg.buckets, y, remote.cfg.buckets) ||
                   (&& (ok ==>
                         && Exchanged(l, r, ns, now, remoteNow, foreign, remote.foreign)
                         && pulled == |Taken(l, Offer(r, y), now)| && pushed == |Taken(r, Offer(l, x), remoteNow)|)
                    && (!ok ==>
                          && remote.foreign == r.foreign
                          && (foreign == l.foreign || foreign == Absorb(l, Offer(r, y), now)))))
              && (x == y && cfg.buckets == remote.cfg.buckets && reach >= 1 ==>
                   ok && pulled == 0 && pushed == 0 && foreign == l.foreign && remote.foreign == r.foreign)
      ensures Abs() == l.(foreign := foreign)
      ensures remote.Abs() == (if reach == 0 then r else Touch(r, id, remoteNow)).(foreign := remote.foreign)
      ensures reach >= 4 ==> ok
      ensures OverlayOk(Abs()) && OverlayOk(remote.Abs()) && CleanNode(Abs()) && CleanNode(remote.Abs())
    {
      ghost var n, m := Abs(), remote.Abs();
      ghost var order := EnsureLocalVersions(wall);
      l := Abs();
      StampedKeeps(n, wall, order);
      if reach > 0 {
        ghost var remoteOrder := remote.EnsureLocalVersions(remoteWall);
        StampedKeeps(m, remoteWall, remoteOrder);
      }
      r := remote.Abs();
      pulled, pushed, ok := ReconcileStamped(remote, now, remoteNow, reach);
    }

    /** Our side of an accepted OPEN: hold the session and lift the cooldown. */
    method RecordSession(peer: NodeId, accepted: set<string>, now: real)
      modifies this`sessions, this`evictedUntil
      ensures Abs() == Open(old(Abs()), peer, accepted, now)
      ensures sessions == old(sessions)[peer := Peer(accepted, now)] && evictedUntil == old(evictedUntil) - {peer}
      ensures sessions.Keys == old(sessions.Keys) + {peer}
    {
      sessions := sessions[peer := Peer(accepted, now)];
      evictedUntil := evictedUntil - {peer};
    }

    /** The OPEN itself: both sides record the session. */
    method OpenWith(remote: ClusterStore, namespaces: set<string>, now: real, remoteNow: real)
      returns (accepted: set<string>)
      requires this != remote && OverlayOk(Abs()) && OverlayOk(remote.Abs()) && CleanNode(Abs())
      requires CleanNode(remote.Abs())
      modifies this`sessions, this`evictedUntil, remote`sessions, remote`evictedUntil
      ensures accepted == Accepted(old(remote.Abs()), if namespaces == {} then old(datasets) else namespaces)
      ensures Abs() == Open(old(Abs()), remote.id, accepted, now)
      ensures remote.Abs() == Open(old(remote.Abs()), id, accepted, remoteNow)
      ensures OverlayOk(Abs()) && OverlayOk(remote.Abs()) && CleanNode(Abs()) && CleanNode(remote.Abs())
      ensures remote.id in sessions && sessions[remote.id].namespaces == accepted
    {
      accepted := remote.HandleOpen(id, if namespaces == {} then datasets else namespaces, remoteNow);
      RecordSession(remote.id, accepted, now);
    }

    /** Open a session with the store behind `remote` and reconcile over it. `namespaces` defaults to
        our own datasets. A failed OPEN changes nothing; otherwise both sides hold the session with
        the accepted datasets, both cooldowns are lifted, and the reconcile runs over it. */
    method ConnectPeer(
        remote: ClusterStore, namespaces: set<string>, wall: int, remoteWall: int, now: real, remoteNow: real,
        reach: nat)
      returns (ok: bool, ghost l: Node, ghost r: Node)
      requires this != remote && sha == remote.sha && cfg.buckets > 0 && remote.cfg.buckets > 0
      requires OverlayOk(Abs()) && OverlayOk(remote.Abs()) && CleanNode(Abs()) && CleanNode(remote.Abs())
      modifies this`clock, this`localVersions, this`disk, this`sessions, this`evictedUntil, this`foreign
      modifies remote`clock, remote`localVersions, remote`disk, remote`sessions, remote`evictedUntil, remote`foreign
      ensures reach == 0 ==> !ok && Abs() == old(Abs()) && remote.Abs() == old(remote.Abs())
      ensures var offered := if namespaces == {} then old(datasets) else namespaces;
              var ns := Accepted(old(remote.Abs()), offered);
              reach > 0 ==>
                && StampedFrom(Open(old(Abs()), remote.id, ns, now), wall, l)
                && (if reach == 1 then r == Open(old(remote.Abs()), id, ns, remoteNow)
                    else StampedFrom(Open(old(remote.Abs()), id, ns, remoteNow), remoteWall, r))
                && Abs() == l.(foreign := foreign)
                && remote.Abs() == (if reach == 1 then r else Touch(r, id, remoteNow)).(foreign := remote.foreign)
                && (ok ==>
                      || Collision(sha, OurView(l, ns), cfg.buckets, TheirView(r, id, ns), remote.cfg.buckets)
                      || Exchanged(l, r, ns, now, remoteNow, foreign, remote.foreign))
      ensures reach >= 5 ==> ok
      ensures OverlayOk(Abs()) && OverlayOk(remote.Abs()) && CleanNode(Abs()) && CleanNode(remote.Abs())
      ensures reach > 0 ==>
                var offered := if namespaces == {} then old(datasets) else namespaces;
                sessions == old(sessions)[remote.id := Peer(Accepted(old(remote.Abs()), offered), now)]
    {
      ok, l, r := false, Abs(), remote.Abs();
      if reach == 0 { return; }
      var accepted := OpenWith(remote, namespaces, now, remoteNow);
      var pulled, pushed;
      pulled, pushed, ok, l, r := Reconcile(remote, wall, remoteWall, now, remoteNow, reach - 1);
    }
  }

  // ---- what an eviction leaves, record by record ----

  /** Exactly the records of these origins are gone. */
  ghost predicate ForgetsOrigins(before: Overlay, after: Overlay, gone: set<NodeId>) {
    forall k :: Get(after, k) == if k.origin in gone then None else Get(before, k)
  }

  /** Exactly these origins' cooldowns start anew. */
  ghost predicate CoolsDown(before: map<NodeId, real>, after: map<NodeId, real>, gone: set<NodeId>, until: real) {
    forall o :: Get(after, o) == if o in gone then Some(until) else Get(before, o)
  }

  lemma EvictByFields(cfg: Config, n: Node, gone: set<NodeId>, now: real)
    ensures var m := Evict(cfg, n, gone, now);
            && m == n.(sessions := n.sessions - gone, foreign := m.foreign, evictedUntil := m.evictedUntil)
            && ForgetsOrigins(n.foreign, m.foreign, gone)
            && CoolsDown(n.evictedUntil, m.evictedUntil, gone, now + cfg.hold + cfg.keepalive)
  {
  }

  // ---- helpers of the methods above ----

  /** `cur` is what stamping the records in `order` leaves, not saved yet. */
  ghost predicate StampedSoFar(n: Node, wall: int, order: seq<LocalKey>, cur: Node) {
    var m := StampAll(n, wall, order);
    && cur == m.(disk := n.disk)
    && (order != [] ==> Save(m) == m)
    && (order == [] || !Versioned(n))
  }

  lemma StampedNext(n: Node, wall: int, order: seq<LocalKey>, cur: Node, lk: LocalKey, next: Node)
    requires StampedSoFar(n, wall, order, cur) && next == Stamp(cur, wall, lk).(disk := n.disk)
    ensures StampedSoFar(n, wall, if Unversioned(cur, lk) then order + [lk] else order, next)
  {
    StampAllKeeps(n, wall, order);
    StampAllMore(n, wall, order, lk);
  }

  lemma StampAllMore(n: Node, wall: int, order: seq<LocalKey>, lk: LocalKey)
    ensures StampAll(n, wall, order + [lk]) == Stamp(StampAll(n, wall, order), wall, lk)
  {
    assert (order + [lk])[..|order|] == order;
  }

  /** The index when the replicas in `todo` have not been added yet. */
  function WithForeign(local: Index, o: Overlay, ns: set<string>, todo: set<Key>): Index {
    local + map k | k in o && k !in todo && InScope(ns, k.dataset) :: o[k].version
  }

  lemma ForeignNext(local: Index, o: Overlay, ns: set<string>, todo: set<Key>, k: Key)
    requires k in todo && k in o
    ensures WithForeign(local, o, ns, todo - {k})
         == (if InScope(ns, k.dataset) then WithForeign(local, o, ns, todo)[k := o[k].version]
             else WithForeign(local, o, ns, todo))
  {
  }

  lemma AllForeign(local: Index, o: Overlay, ns: set<string>)
    ensures WithForeign(local, o, ns, o.Keys) == local
    ensures WithForeign(local, o, ns, {}) == local + map k | k in o && InScope(ns, k.dataset) :: o[k].version
  {
  }

  lemma ListsMore(envs: seq<Envelope>, o: Overlay, e: Envelope)
    requires Lists(envs, o) && e.key !in o
    ensures Lists(envs + [e], o[e.key := e])
  {
    var more := o[e.key := e];
    forall k | k in more ensures more[k] in envs + [e] {
      if k != e.key { assert o[k] in envs; }
    }
  }

  /** The envelopes of a map as a list, in some order. */
  method ToList(o: Overlay) returns (envs: seq<Envelope>)
    requires Keyed(o)
    ensures Lists(envs, o)
  {
    envs := [];
    var todo := o.Keys;
    while todo != {}
      invariant todo <= o.Keys
      invariant Lists(envs, o - todo)
      decreases |todo|
    {
      var k :| k in todo;
      ListsMore(envs, o - todo, o[k]);
      assert (o - todo)[k := o[k]] == o - (todo - {k});
      envs := envs + [o[k]];
      todo := todo - {k};
    }
    assert o - todo == o;
  }

  lemma TouchServes(r: Node, from: NodeId, now: real)
    ensures var t := Touch(r, from, now);
            && (forall keys :: Served(t, from, keys) == Served(r, from, keys))
            && (forall envs ::
                  Absorb(t, envs, now) == Absorb(r, envs, now) && Taken(t, envs, now) == Taken(r, envs, now))
            && OverlayOk(t) == OverlayOk(r)
  {
    TouchInvisible(r, from, now);
  }

  /** The two overlays after a whole-index exchange in both directions over the namespaces `ns`. */
  ghost predicate Exchanged(l: Node, r: Node, ns: set<string>, now: real, rnow: real, lf: Overlay, rf: Overlay) {
    && lf == Absorb(l, Offer(r, TheirView(r, l.id, ns)), now)
    && rf == Absorb(r, Offer(l, OurView(l, ns)), rnow)
  }

  /** What stamping the records without a version leaves, in some order of the records. */
  ghost predicate StampedFrom(n: Node, wall: int, m: Node) {
    Versioned(m) && (Versioned(n) ==> m == n) && exists order :: m == StampAll(n, wall, order)
  }

  /** Ids do not contain the separator. */
  ghost predicate CleanNode(n: Node) {
    && (forall lk | lk in n.registry.Keys + n.tombstones.Keys :: Clean(KeyOf(n.id, lk)))
    && forall k | k in n.foreign :: Clean(k)
  }

  lemma ServedClean(n: Node, k: Key)
    requires OverlayOk(n) && CleanNode(n) && BuildFor(n, k).Some?
    ensures Clean(k) && BuildFor(n, k).value.key == k
  {
    if k.origin == n.id { assert k == KeyOf(n.id, LocalOf(k)); }
  }

  lemma AbsorbedClean(n: Node, offer: Overlay, now: real)
    requires OverlayOk(n) && CleanNode(n) && Keyed(offer) && forall k | k in offer :: Clean(k)
    ensures OverlayOk(n.(foreign := Absorb(n, offer, now))) && CleanNode(n.(foreign := Absorb(n, offer, now)))
  {
  }

  /** The rows one reconcile selects leave both overlays well-formed. */
  lemma RoundsKeep(sha: Sha, l: Node, n: nat, r: Node, m: nat, now: real, rnow: real, ns: set<string>)
    returns (pull: set<Key>, push: set<Key>)
    requires n > 0 && m > 0 && OverlayOk(l) && OverlayOk(r) && CleanNode(l) && CleanNode(r)
    ensures var x, y := OurView(l, ns), TheirView(r, l.id, ns);
            var diff := DifferingBuckets(BucketHashes(sha, x, n), BucketHashes(sha, y, m));
            pull == PullSet(sha, x, n, y, m, diff) && push == PullSet(sha, y, m, x, n, diff)
    ensures OverlayOk(PulledState(l, r, pull, now)) && CleanNode(PulledState(l, r, pull, now))
    ensures var o := PushedOverlay(PulledState(l, r, pull, now), r, push, rnow);
            OverlayOk(r.(foreign := o)) && CleanNode(r.(foreign := o))
  {
    var x, y := OurView(l, ns), TheirView(r, l.id, ns);
    var diff := DifferingBuckets(BucketHashes(sha, x, n), BucketHashes(sha, y, m));
    pull, push := PullSet(sha, x, n, y, m, diff), PullSet(sha, y, m, x, n, diff);
    PulledKeeps(l, r, pull, now);
    PushedKeeps(PulledState(l, r, pull, now), r, push, rnow);
  }

  lemma PulledKeeps(l: Node, r: Node, pull: set<Key>, now: real)
    requires OverlayOk(l) && OverlayOk(r) && CleanNode(l) && CleanNode(r)
    ensures OverlayOk(PulledState(l, r, pull, now)) && CleanNode(PulledState(l, r, pull, now))
  {
    var offer := Served(r, l.id, pull);
    forall k | k in offer ensures offer[k].key == k && Clean(k) { ServedClean(r, k); }
    AbsorbedClean(l, offer, now);
  }

  lemma PushedKeeps(l: Node, r: Node, push: set<Key>, rnow: real)
    requires OverlayOk(l) && OverlayOk(r) && CleanNode(l) && CleanNode(r)
    ensures var o := PushedOverlay(l, r, push, rnow); OverlayOk(r.(foreign := o)) && CleanNode(r.(foreign := o))
  {
    var offer := Built(l, push);
    forall k | k in offer ensures offer[k].key == k && Clean(k) { ServedClean(l, k); }
    AbsorbedClean(r, offer, rnow);
  }

  lemma CleanIsIndexed(n: Node)
    requires CleanNode(n)
    ensures CleanIndex(FullIndex(n, {}))
  {
    forall k | k in FullIndex(n, {}) ensures Clean(k) {
      if k !in n.foreign {
        OwnKeysExact(n, k);
        assert k == KeyOf(n.id, LocalOf(k));
      }
    }
  }

  lemma StampedKeeps(n: Node, wall: int, order: seq<LocalKey>)
    requires OverlayOk(n) && CleanNode(n)
    ensures var m := StampAll(n, wall, order);
            OverlayOk(m) && CleanNode(m) && m.sessions == n.sessions && m.foreign == n.foreign
  {
    StampAllKeeps(n, wall, order);
  }

  lemma ServedInside(n: Node, from: NodeId, keys: set<Key>)
    ensures Built(n, set k | k in keys && k.dataset in Allowed(n, from, {})) == Served(n, from, keys)
  {
  }

  lemma EvictOne(cfg: Config, n: Node, peer: NodeId, now: real)
    ensures Evict(cfg, n, {peer}, now)
         == n.(sessions := n.sessions - {peer},
               foreign := map k | k in n.foreign && k.origin != peer :: n.foreign[k],
               evictedUntil := n.evictedUntil[peer := now + cfg.hold + cfg.keepalive])
  {
  }

  lemma EvictNobody(cfg: Config, n: Node, now: real)
    ensures Evict(cfg, n, {}, now) == n
  {
  }

  lemma RemovedSize<K, V>(m: map<K, V>, gone: set<K>)
    requires gone <= m.Keys
    ensures |m - gone| == |m| - |gone|
  {
    assert (m - gone).Keys == m.Keys - gone;
  }

  lemma GoneOwn(cfg: Config, n: Node, wall: int, gone: set<LocalKey>)
    requires gone == set lk | lk in n.tombstones && Expired(cfg, n.tombstones[lk].deletedAt, wall)
    ensures GcOwn(cfg, n, wall) == if gone == {} then n else Save(n.(tombstones := n.tombstones - gone))
    ensures |n.tombstones - gone| == |n.tombstones| - |gone|
  {
    var kept := map lk | lk in n.tombstones && !Expired(cfg, n.tombstones[lk].deletedAt, wall) :: n.tombstones[lk];
    assert kept == n.tombstones - gone;
    assert gone != {} ==> kept != n.tombstones by {
      if lk :| lk in gone { assert lk !in kept; }
    }
    RemovedSize(n.tombstones, gone);
  }

  lemma GoneForeign(cfg: Config, o: Overlay, wall: int, gone: set<Key>)
    requires gone == set k | k in o && o[k].tombstone && Expired(cfg, o[k].version.ms, wall)
    ensures o - gone == GcForeign(cfg, o, wall) && |o - gone| == |o| - |gone|
  {
    RemovedSize(o, gone);
  }

  lemma EvictTwice(cfg: Config, n: Node, a: set<NodeId>, b: set<NodeId>, now: real)
    ensures Evict(cfg, Evict(cfg, n, a, now), b, now) == Evict(cfg, n, a + b, now)
  {
    SessionsTwice(n.sessions, a, b);
    WithoutTwice(n.foreign, a, b);
    CooledTwice(n.evictedUntil, a, b, now + cfg.Retention());
  }

  lemma SessionsTwice(m: map<NodeId, Peer>, a: set<NodeId>, b: set<NodeId>)
    ensures m - a - b == m - (a + b)
  {
  }

  lemma WithoutTwice(o: Overlay, a: set<NodeId>, b: set<NodeId>)
    ensures Without(Without(o, a), b) == Without(o, a + b)
  {
  }

  lemma CooledTwice(until: map<NodeId, real>, a: set<NodeId>, b: set<NodeId>, end: real)
    ensures Cooled(Cooled(until, a, end), b, end) == Cooled(until, a + b, end)
  {
  }
}
