/** The state one registry node keeps for the cluster, and the meaning of every operation on it
    as a function from state to state. */
module Node {
  import opened Envelope
  import opened Merkle

  datatype Config = Config(hold: real, keepalive: real, buckets: nat) {
    /** How long tombstones and the post-eviction suppression are kept. */
    function Retention(): real {
      hold + keepalive
    }

    /** `int(retention * 1000)`: truncation toward zero. */
    function RetentionMs(): int {
      var x := Retention() * 1000.0;
      if x < 0.0 then 0 - (0.0 - x).Floor else x.Floor
    }
  }

  /** The retention in whole milliseconds, cut off, and never negative for sane timings. */
  lemma RetentionIsMilliseconds(cfg: Config)
    requires cfg.hold + cfg.keepalive >= 0.0
    ensures var ms := (cfg.hold + cfg.keepalive) * 1000.0;
            0 <= cfg.RetentionMs() && cfg.RetentionMs() as real <= ms < (cfg.RetentionMs() + 1) as real
  {
  }

  /** `dataset NUL service_id`: the key of the persisted maps. */
  datatype LocalKey = LocalKey(dataset: string, service: string)

  datatype Tombstone = Tombstone(version: Version, deletedAt: int)

  /** What `cluster_state.json` holds of the service plane. */
  datatype Saved = Saved(clock: int, localVersions: map<LocalKey, Version>, tombstones: map<LocalKey, Tombstone>)

  datatype Peer = Peer(namespaces: set<string>, lastSeen: real)

  datatype Node = Node(
    id: NodeId,
    datasets: set<string>,
    registry: map<LocalKey, string>,
    clock: int,
    localVersions: map<LocalKey, Version>,
    tombstones: map<LocalKey, Tombstone>,
    disk: Saved,
    foreign: Overlay,
    sessions: map<NodeId, Peer>,
    evictedUntil: map<NodeId, real>)

  datatype Change = Put(payload: string) | Delete

  // ---- version minting ----

  function Max(a: int, b: int): int {
    if a >= b then a else b
  }

  function NextTs(clock: int, wall: int): (ts: int)
    ensures ts > clock
  {
    Max(wall, clock + 1)
  }

  function NextTsAfter(clock: int, wall: int, floor: int): (ts: int)
    ensures ts > clock && ts > floor
  {
    Max(NextTs(clock, wall), floor + 1)
  }

  function Save(n: Node): Node {
    n.(disk := Saved(n.clock, n.localVersions, n.tombstones))
  }

  /** A registry write or removal together with its `on_local_mutation` stamp and save. */
  function Mutate(n: Node, wall: int, lk: LocalKey, change: Change): Node {
    var ts := NextTs(n.clock, wall);
    var v := Version(ts, n.id);
    match change
    case Put(payload) =>
      Save(n.(registry := n.registry[lk := payload], clock := ts,
              localVersions := n.localVersions[lk := v], tombstones := n.tombstones - {lk}))
    case Delete =>
      Save(n.(registry := n.registry - {lk}, clock := ts,
              localVersions := n.localVersions - {lk}, tombstones := n.tombstones[lk := Tombstone(v, ts)]))
  }

  predicate Unversioned(n: Node, lk: LocalKey) {
    lk in n.registry && lk !in n.localVersions && lk !in n.tombstones
  }

  /** `_ensure_local_versions` on one record. */
  function Stamp(n: Node, wall: int, lk: LocalKey): Node {
    if Unversioned(n, lk) then
      var ts := NextTs(n.clock, wall);
      Save(n.(clock := ts, localVersions := n.localVersions[lk := Version(ts, n.id)]))
    else n
  }

  /** `_ensure_local_versions` on several records, one after the other. */
  function StampAll(n: Node, wall: int, lks: seq<LocalKey>): Node {
    if lks == [] then n else Stamp(StampAll(n, wall, lks[..|lks| - 1]), wall, lks[|lks| - 1])
  }

  predicate Versioned(n: Node) {
    forall lk | lk in n.registry :: lk in n.localVersions || lk in n.tombstones
  }

  // ---- indexes and envelopes ----

  /** An empty namespace list means every dataset. */
  predicate InScope(ns: set<string>, dataset: string) {
    ns == {} || dataset in ns
  }

  function KeyOf(id: NodeId, lk: LocalKey): Key {
    Key(lk.dataset, id, lk.service)
  }

  function LocalOf(k: Key): LocalKey {
    LocalKey(k.dataset, k.service)
  }

  predicate OwnsRecord(n: Node, lk: LocalKey) {
    lk in n.tombstones || (lk in n.registry && lk in n.localVersions)
  }

  /** A tombstone shadows a live version. */
  function OwnVersion(n: Node, lk: LocalKey): Version
    requires OwnsRecord(n, lk)
  {
    if lk in n.tombstones then n.tombstones[lk].version else n.localVersions[lk]
  }

  function OwnKeys(n: Node): set<Key> {
    set lk | lk in n.registry.Keys + n.tombstones.Keys && OwnsRecord(n, lk) :: KeyOf(n.id, lk)
  }

  function LocalIndex(n: Node, ns: set<string>): Index {
    map k | k in OwnKeys(n) && InScope(ns, k.dataset) :: OwnVersion(n, LocalOf(k))
  }

  function FullIndex(n: Node, ns: set<string>): Index {
    LocalIndex(n, ns) + (map k | k in n.foreign && InScope(ns, k.dataset) :: n.foreign[k].version)
  }

  /** The rows a peer with the allowed namespaces may see. */
  function VisibleIndex(n: Node, allowed: set<string>): Index {
    var idx := FullIndex(n, allowed);
    map k | k in idx && k.dataset in allowed :: idx[k]
  }

  function BuildLocal(n: Node, lk: LocalKey): Option<Envelope> {
    if lk in n.tombstones then Some(Envelope(KeyOf(n.id, lk), n.tombstones[lk].version, true, None))
    else if lk in n.localVersions && lk in n.registry then
      Some(Envelope(KeyOf(n.id, lk), n.localVersions[lk], false, Some(n.registry[lk])))
    else None
  }

  function BuildFor(n: Node, k: Key): Option<Envelope> {
    if k.origin == n.id then BuildLocal(n, LocalOf(k)) else Get(n.foreign, k)
  }

  // ---- inbound ----

  predicate Suppressed(n: Node, origin: NodeId, now: real) {
    origin in n.evictedUntil && now < n.evictedUntil[origin]
  }

  predicate Accepts(n: Node, env: Envelope, now: real) {
    && env.key.origin != n.id
    && !Suppressed(n, env.key.origin, now)
    && Newer(env.version, VersionAt(n.foreign, env.key))
  }

  /** `apply_inbound`. */
  function Apply(n: Node, env: Envelope, now: real): Node {
    if Accepts(n, env, now) then n.(foreign := n.foreign[env.key := env]) else n
  }

  /** A list of envelopes applied in order; duplicates are allowed. */
  function ApplyList(n: Node, envs: seq<Envelope>, now: real): Node {
    if envs == [] then n else Apply(ApplyList(n, envs[..|envs| - 1], now), envs[|envs| - 1], now)
  }

  /** How many of them are stored. */
  function CountStored(n: Node, envs: seq<Envelope>, now: real): nat {
    if envs == [] then 0 else
      var front := envs[..|envs| - 1];
      var last := if Accepts(ApplyList(n, front, now), envs[|envs| - 1], now) then 1 else 0;
      CountStored(n, front, now) + last
  }

  // ---- sessions, liveness, eviction ----

  function Touch(n: Node, from: NodeId, now: real): Node {
    if from in n.sessions then n.(sessions := n.sessions[from := n.sessions[from].(lastSeen := now)]) else n
  }

  /** Record a session with `peer` and lift its suppression. */
  function Open(n: Node, peer: NodeId, namespaces: set<string>, now: real): Node {
    n.(sessions := n.sessions[peer := Peer(namespaces, now)], evictedUntil := n.evictedUntil - {peer})
  }

  /** `handle_open` on an open cluster accepts what the caller offered and what we host. */
  function Accepted(n: Node, offered: set<string>): set<string> {
    offered + n.datasets
  }

  /** Drop the sessions with `gone`, evict what originated there and start their cooldowns. */
  function Evict(cfg: Config, n: Node, gone: set<NodeId>, now: real): Node {
    n.(sessions := n.sessions - gone,
       foreign := Without(n.foreign, gone),
       evictedUntil := Cooled(n.evictedUntil, gone, now + cfg.Retention()))
  }

  function Without(o: Overlay, gone: set<NodeId>): Overlay {
    map k | k in o && k.origin !in gone :: o[k]
  }

  function Cooled(until: map<NodeId, real>, gone: set<NodeId>, end: real): map<NodeId, real> {
    until + map o | o in gone :: end
  }

  /** Peers silent for longer than the HOLD timeout. */
  function Stale(cfg: Config, n: Node, now: real): set<NodeId> {
    set p | p in n.sessions && now - n.sessions[p].lastSeen > cfg.hold
  }

  function CheckHold(cfg: Config, n: Node, now: real): Node {
    Evict(cfg, n, Stale(cfg, n, now), now)
  }

  // ---- housekeeping ----

  predicate Expired(cfg: Config, ms: int, wall: int) {
    wall - ms > cfg.RetentionMs()
  }

  /** Expired local tombstones go, and the shorter map is saved. */
  function GcOwn(cfg: Config, n: Node, wall: int): Node {
    var kept := map lk | lk in n.tombstones && !Expired(cfg, n.tombstones[lk].deletedAt, wall) :: n.tombstones[lk];
    if kept == n.tombstones then n else Save(n.(tombstones := kept))
  }

  /** Expired replicated tombstones go. */
  function GcForeign(cfg: Config, o: Overlay, wall: int): Overlay {
    map k | k in o && !(o[k].tombstone && Expired(cfg, o[k].version.ms, wall)) :: o[k]
  }

  function Gc(cfg: Config, n: Node, wall: int): Node {
    GcOwn(cfg, n, wall).(foreign := GcForeign(cfg, n.foreign, wall))
  }

  function Prune(n: Node, now: real): Node {
    n.(evictedUntil := map o | o in n.evictedUntil && now < n.evictedUntil[o] :: n.evictedUntil[o])
  }

  /** Process restart: the saved state survives, overlay, sessions and cooldowns do not. */
  function Restart(n: Node): Node {
    n.(clock := n.disk.clock, localVersions := n.disk.localVersions, tombstones := n.disk.tombstones,
       foreign := map[], sessions := map[], evictedUntil := map[])
  }

  /** Stamping touches only the clock, the missing versions and the saved state; every stamp is a
      fresh version of ours, above everything minted before. */
  lemma {:induction false} StampAllKeeps(n: Node, wall: int, lks: seq<LocalKey>)
    ensures var m := StampAll(n, wall, lks);
            && m == n.(clock := m.clock, localVersions := m.localVersions, disk := m.disk) && m.clock >= n.clock
            && (forall lk | lk in n.localVersions ::
                  lk in m.localVersions && m.localVersions[lk] == n.localVersions[lk])
            && (forall lk | lk in m.localVersions && lk !in n.localVersions ::
                  Unversioned(n, lk) && m.localVersions[lk].node == n.id && n.clock < m.localVersions[lk].ms <= m.clock)
            && (m == n || m.disk == Saved(m.clock, m.localVersions, m.tombstones))
            && (Versioned(n) ==> m == n)
  {
    if lks != [] { StampAllKeeps(n, wall, lks[..|lks| - 1]); }
  }

  // ---- well-formedness every operation keeps ----

  predicate OverlayOk(n: Node) {
    forall k | k in n.foreign :: n.foreign[k].key == k && k.origin != n.id
  }

  lemma OwnKeysExact(n: Node, k: Key)
    ensures k in OwnKeys(n) <==> k.origin == n.id && OwnsRecord(n, LocalOf(k))
  {
    var lk := LocalOf(k);
    if k.origin == n.id && OwnsRecord(n, lk) {
      assert KeyOf(n.id, lk) == k && lk in n.registry.Keys + n.tombstones.Keys;
    }
    if k in OwnKeys(n) {
      var l :| l in n.registry.Keys + n.tombstones.Keys && OwnsRecord(n, l) && k == KeyOf(n.id, l);
      assert l == lk;
    }
  }

  /** A node indexes exactly the keys in scope it can serve an envelope for, and reports the
      version of that envelope. */
  lemma IndexEntry(n: Node, ns: set<string>, k: Key)
    requires OverlayOk(n)
    ensures k in FullIndex(n, ns) <==> InScope(ns, k.dataset) && BuildFor(n, k).Some?
    ensures k in FullIndex(n, ns) ==>
              BuildFor(n, k).value.key == k && FullIndex(n, ns)[k] == BuildFor(n, k).value.version
  {
    OwnKeysExact(n, k);
  }

  lemma VisibleEntry(n: Node, allowed: set<string>, k: Key)
    requires OverlayOk(n)
    ensures k in VisibleIndex(n, allowed) <==> k.dataset in allowed && BuildFor(n, k).Some?
    ensures k in VisibleIndex(n, allowed) ==>
              BuildFor(n, k).value.key == k && VisibleIndex(n, allowed)[k] == BuildFor(n, k).value.version
  {
    IndexEntry(n, allowed, k);
  }

  // ---- whole-index exchange: the reference for reconcile ----

  /** Everything `n` can serve for the keys of an index it reported. */
  function Offer(n: Node, idx: Index): Overlay {
    map k | k in idx && BuildFor(n, k).Some? :: BuildFor(n, k).value
  }

  /** The offered envelopes `apply_inbound` would store. */
  function Taken(n: Node, offer: Overlay, now: real): (t: set<Key>)
    ensures t <= offer.Keys
  {
    set k | k in offer && Accepts(n, offer[k], now)
  }

  /** The overlay after every offered envelope went through `apply_inbound`. */
  function Absorb(n: Node, offer: Overlay, now: real): Overlay {
    var t := Taken(n, offer, now);
    map k | k in n.foreign.Keys + t :: if k in t then offer[k] else n.foreign[k]
  }
}
