/** The cluster as a step system: any number of nodes, a network that may delay, duplicate,
    reorder and lose, arbitrary wall clocks, one non-decreasing monotonic clock. */
module Protocol {
  import opened Envelope
  import opened Merkle
  import opened Node
  import opened Exchange

  /** An envelope on its way to `to`. */
  datatype Msg = Msg(to: NodeId, env: Envelope, sentAt: real)

  /** `built` remembers every envelope an origin could ever serve for its own records. */
  datatype World = World(nodes: map<NodeId, Node>, net: set<Msg>, now: real, built: set<Envelope>)

  datatype Step =
    | Advance(t: real)
    | LocalChange(i: NodeId, wall: int, lk: LocalKey, change: Change)
    | StampOne(i: NodeId, wall: int, lk: LocalKey)
    | MintMembership(i: NodeId, wall: int, floor: int)
    | Observe(i: NodeId, ms: int)
    | SaveState(i: NodeId)
    | Send(i: NodeId, to: NodeId, key: Key)
    | Deliver(m: Msg)
    | Hear(i: NodeId, peer: NodeId)
    | OpenSession(i: NodeId, peer: NodeId, namespaces: set<string>)
    | Reconcile(i: NodeId, peer: NodeId)
    | Connect(i: NodeId, peer: NodeId, offered: set<string>)
    | HoldTick(i: NodeId)
    | Disconnect(i: NodeId, peer: NodeId)
    | Collect(i: NodeId, wall: int)
    | Forget(i: NodeId)
    | Reboot(i: NodeId)

  /** A session of one side covers the dataset: the links records travel over, by broadcast, pull or
      push. An empty namespace list covers everything. */
  predicate Linked(w: World, i: NodeId, j: NodeId, dataset: string)
    requires i in w.nodes && j in w.nodes
  {
    || (j in w.nodes[i].sessions && InScope(w.nodes[i].sessions[j].namespaces, dataset))
    || (i in w.nodes[j].sessions && InScope(w.nodes[j].sessions[i].namespaces, dataset))
  }

  /** The step sends, if it does, over a session. An answer to a call under way may still be sent when
      the session has gone in the meantime, so `Enabled` asks for none. */
  predicate OnLink(w: World, s: Step) {
    s.Send? ==> s.i in w.nodes && s.to in w.nodes && Linked(w, s.i, s.to, s.key.dataset)
  }

  predicate Enabled(w: World, s: Step) {
    match s
    case Advance(t) => t >= w.now
    case LocalChange(i, wall, lk, change) => i in w.nodes && (change.Delete? ==> lk in w.nodes[i].registry)
    case Send(i, to, key) =>
      i in w.nodes && to in w.nodes && i != to && BuildFor(w.nodes[i], key).Some?
    case Deliver(m) => m in w.net && m.to in w.nodes
    case OpenSession(i, peer, namespaces) => i in w.nodes && peer in w.nodes && i != peer
    case Reconcile(i, peer) => i in w.nodes && peer in w.nodes && i != peer && peer in w.nodes[i].sessions
    case Connect(i, peer, offered) => i in w.nodes && peer in w.nodes && i != peer
    case _ => s.i in w.nodes
  }

  /** A completed reconcile of `i` with `j`: the whole-index exchange that `ClusterStore.Reconcile`
      leaves on both sides unless two hashed inputs collide (`Refinement.ReconcileIsMeet`). */
  function Meet(w: World, i: NodeId, j: NodeId, ns: set<string>): World
    requires i in w.nodes && j in w.nodes && i != j
  {
    var a, b := w.nodes[i], w.nodes[j];
    WithNode(WithNode(w, a.(foreign := Absorb(a, Offer(b, TheirView(b, a.id, ns)), w.now))),
             Touch(b, a.id, w.now).(foreign := Absorb(b, Offer(a, OurView(a, ns)), w.now)))
  }

  /** Both ends of an accepted OPEN. */
  function Opened(w: World, i: NodeId, j: NodeId, ns: set<string>): World
    requires i in w.nodes && j in w.nodes && i != j
  {
    WithNode(WithNode(w, Open(w.nodes[j], i, ns, w.now)), Open(w.nodes[i], j, ns, w.now))
  }

  function WithNode(w: World, n: Node): World {
    w.(nodes := w.nodes[n.id := n])
  }

  function Publish(w: World, n: Node, lk: LocalKey): World {
    var env := BuildLocal(n, lk);
    WithNode(w, n).(built := w.built + if env.Some? then {env.value} else {})
  }

  function Next(cfg: Config, w: World, s: Step): World
    requires Enabled(w, s)
  {
    match s
    case Advance(t) => w.(now := t)
    case LocalChange(i, wall, lk, change) => Publish(w, Mutate(w.nodes[i], wall, lk, change), lk)
    case StampOne(i, wall, lk) => Publish(w, Stamp(w.nodes[i], wall, lk), lk)
    case MintMembership(i, wall, floor) =>
      WithNode(w, w.nodes[i].(clock := NextTsAfter(w.nodes[i].clock, wall, floor)))
    case Observe(i, ms) => WithNode(w, w.nodes[i].(clock := Max(w.nodes[i].clock, ms)))
    case SaveState(i) => WithNode(w, Save(w.nodes[i]))
    case Send(i, to, key) => w.(net := w.net + {Msg(to, BuildFor(w.nodes[i], key).value, w.now)})
    case Deliver(m) => WithNode(w, Apply(w.nodes[m.to], m.env, w.now))
    case Hear(i, peer) => WithNode(w, Touch(w.nodes[i], peer, w.now))
    case OpenSession(i, peer, namespaces) => WithNode(w, Open(w.nodes[i], peer, namespaces, w.now))
    case Reconcile(i, peer) => Meet(w, i, peer, w.nodes[i].sessions[peer].namespaces)
    case Connect(i, peer, offered) =>
      var ns := Accepted(w.nodes[peer], offered);
      var w1 := Opened(w, i, peer, ns);
      Meet(w1, i, peer, ns)
    case HoldTick(i) => WithNode(w, CheckHold(cfg, w.nodes[i], w.now))
    case Disconnect(i, peer) => WithNode(w, Evict(cfg, w.nodes[i], {peer}, w.now))
    case Collect(i, wall) => WithNode(w, Gc(cfg, w.nodes[i], wall))
    case Forget(i) => WithNode(w, Prune(w.nodes[i], w.now))
    case Reboot(i) => WithNode(w, Restart(w.nodes[i]))
  }

  /** The two sides of a reconcile of `i` with `j`. */
  function Caller(w: World, i: NodeId, j: NodeId, ns: set<string>): Node
    requires i in w.nodes && j in w.nodes
  {
    w.nodes[i].(foreign := Absorb(w.nodes[i], Offer(w.nodes[j], TheirView(w.nodes[j], i, ns)), w.now))
  }

  function Callee(w: World, i: NodeId, j: NodeId, ns: set<string>): Node
    requires i in w.nodes && j in w.nodes
  {
    Touch(w.nodes[j], i, w.now).(foreign := Absorb(w.nodes[j], Offer(w.nodes[i], OurView(w.nodes[i], ns)), w.now))
  }

  lemma MeetNodes(w: World, i: NodeId, j: NodeId, ns: set<string>)
    requires i in w.nodes && j in w.nodes && i != j && w.nodes[i].id == i && w.nodes[j].id == j
    ensures var w' := Meet(w, i, j, ns);
            && w'.nodes == w.nodes[i := Caller(w, i, j, ns)][j := Callee(w, i, j, ns)]
            && w'.net == w.net && w'.now == w.now && w'.built == w.built
  {
  }

  lemma OpenedNodes(w: World, i: NodeId, j: NodeId, ns: set<string>)
    requires i in w.nodes && j in w.nodes && i != j && w.nodes[i].id == i && w.nodes[j].id == j
    ensures var w' := Opened(w, i, j, ns);
            && w'.nodes == w.nodes[j := Open(w.nodes[j], i, ns, w.now)][i := Open(w.nodes[i], j, ns, w.now)]
            && w'.net == w.net && w'.now == w.now && w'.built == w.built
  {
  }

  lemma OpenAllows(n: Node, peer: NodeId, ns: set<string>, now: real)
    ensures Allowed(Open(n, peer, ns, now), peer, ns) == ns
  {
  }

  /** Both ends after an OPEN and its reconcile. */
  lemma ConnectShape(cfg: Config, w: World, i: NodeId, j: NodeId, offered: set<string>)
    requires i in w.nodes && j in w.nodes && i != j && w.nodes[i].id == i && w.nodes[j].id == j
    ensures var ns := Accepted(w.nodes[j], offered);
            var a, b := Open(w.nodes[i], j, ns, w.now), Open(w.nodes[j], i, ns, w.now);
            var a' := a.(foreign := Absorb(a, Offer(b, TheirView(b, i, ns)), w.now));
            var b' := Touch(b, i, w.now).(foreign := Absorb(b, Offer(a, OurView(a, ns)), w.now));
            && Allowed(b, i, ns) == ns
            && Next(cfg, w, Connect(i, j, offered)) == WithNode(WithNode(w, a'), b')
  {
    var ns := Accepted(w.nodes[j], offered);
    OpenAllows(w.nodes[j], i, ns, w.now);
    MeetAfterOpen(w, i, j, ns);
  }

  lemma MeetAfterOpen(w: World, i: NodeId, j: NodeId, ns: set<string>)
    requires i in w.nodes && j in w.nodes && i != j && w.nodes[i].id == i && w.nodes[j].id == j
    ensures i in Opened(w, i, j, ns).nodes && j in Opened(w, i, j, ns).nodes
    ensures var a, b := Open(w.nodes[i], j, ns, w.now), Open(w.nodes[j], i, ns, w.now);
            var a' := a.(foreign := Absorb(a, Offer(b, TheirView(b, i, ns)), w.now));
            var b' := Touch(b, i, w.now).(foreign := Absorb(b, Offer(a, OurView(a, ns)), w.now));
            Meet(Opened(w, i, j, ns), i, j, ns) == WithNode(WithNode(w, a'), b')
  {
    OpenedNodes(w, i, j, ns);
    MeetShape(w, Opened(w, i, j, ns), i, j, ns);
  }

  lemma TwoNodesReplaced(w: World, w1: World, i: NodeId, j: NodeId, a': Node, b': Node)
    requires i in w.nodes && j in w.nodes && i != j && w1 == w.(nodes := w1.nodes)
    requires w1.nodes.Keys == w.nodes.Keys && (forall l | l in w.nodes && l != i && l != j :: w1.nodes[l] == w.nodes[l])
    requires a'.id == i && b'.id == j
    ensures WithNode(WithNode(w1, a'), b') == WithNode(WithNode(w, a'), b')
  {
    assert w1.nodes[i := a'][j := b'] == w.nodes[i := a'][j := b'];
  }

  lemma MeetShape(w: World, w1: World, i: NodeId, j: NodeId, ns: set<string>)
    requires i in w.nodes && j in w.nodes && i != j && w1 == w.(nodes := w1.nodes)
    requires w1.nodes.Keys == w.nodes.Keys && (forall l | l in w.nodes && l != i && l != j :: w1.nodes[l] == w.nodes[l])
    requires w1.nodes[i].id == i && w1.nodes[j].id == j
    ensures var a, b := w1.nodes[i], w1.nodes[j];
            var a' := a.(foreign := Absorb(a, Offer(b, TheirView(b, i, ns)), w.now));
            var b' := Touch(b, i, w.now).(foreign := Absorb(b, Offer(a, OurView(a, ns)), w.now));
            Meet(w1, i, j, ns) == WithNode(WithNode(w, a'), b')
  {
    var a, b := w1.nodes[i], w1.nodes[j];
    var oa := Absorb(a, Offer(b, TheirView(b, i, ns)), w.now);
    var ob := Absorb(b, Offer(a, OurView(a, ns)), w.now);
    TwoNodesReplaced(w, w1, i, j, a.(foreign := oa), Touch(b, i, w.now).(foreign := ob));
  }

  // ---- runs ----

  predicate Valid(cfg: Config, w: World, run: seq<Step>)
    decreases |run|, 0
  {
    run == [] || (Valid(cfg, w, Front(run)) && Enabled(Exec(cfg, w, Front(run)), Last(run)))
  }

  function Front(run: seq<Step>): seq<Step>
    requires run != []
  {
    run[..|run| - 1]
  }

  function Last(run: seq<Step>): Step
    requires run != []
  {
    run[|run| - 1]
  }

  function Exec(cfg: Config, w: World, run: seq<Step>): World
    requires Valid(cfg, w, run)
    decreases |run|, 1
  {
    if run == [] then w else Next(cfg, Exec(cfg, w, Front(run)), Last(run))
  }

  /** One run after the other is a run. */
  lemma {:induction false} RunsCompose(cfg: Config, w: World, first: seq<Step>, second: seq<Step>)
    requires Valid(cfg, w, first) && Valid(cfg, Exec(cfg, w, first), second)
    ensures Valid(cfg, w, first + second)
    ensures Exec(cfg, w, first + second) == Exec(cfg, Exec(cfg, w, first), second)
    decreases |second|
  {
    if second == [] {
      assert first + second == first;
    } else {
      RunsCompose(cfg, w, first, Front(second));
      assert Front(first + second) == first + Front(second) && Last(first + second) == Last(second);
    }
  }

  /** Runs without such late answers: what the runs that refute a property confine themselves to. */
  predicate Orderly(cfg: Config, w: World, run: seq<Step>)
    requires Valid(cfg, w, run)
    decreases |run|
  {
    run == [] || (Orderly(cfg, w, Front(run)) && OnLink(Exec(cfg, w, Front(run)), Last(run)))
  }

  // ---- the invariant ----

  /** What every operation keeps about one node on its own: the saved maps are the live ones, the
      saved clock covers every service version, and a key is live or deleted, never both. */
  ghost predicate NodeOk(n: Node) {
    && OverlayOk(n)
    && n.disk.localVersions == n.localVersions && n.disk.tombstones == n.tombstones
    && n.disk.clock <= n.clock
    && n.localVersions.Keys !! n.tombstones.Keys
    && n.localVersions.Keys <= n.registry.Keys
    && (forall lk | lk in n.localVersions :: n.localVersions[lk].node == n.id && n.localVersions[lk].ms <= n.disk.clock)
    && (forall lk | lk in n.tombstones ::
          && n.tombstones[lk].version.node == n.id && n.tombstones[lk].version.ms <= n.disk.clock
          && n.tombstones[lk].deletedAt == n.tombstones[lk].version.ms)
  }

  /** A node against the envelopes ever built: what it serves and stores was built, and nothing its
      own origin built is newer than its clock or than the version it now holds for that key. */
  ghost predicate NodeInv(n: Node, built: set<Envelope>) {
    && NodeOk(n)
    && (forall lk :: BuildLocal(n, lk).Some? ==> BuildLocal(n, lk).value in built)
    && (forall k | k in n.foreign :: n.foreign[k] in built)
    && (forall e | e in built && e.key.origin == n.id ::
          && e.version.node == n.id && e.version.ms <= n.disk.clock
          && (OwnsRecord(n, LocalOf(e.key)) ==> e.version.ms <= OwnVersion(n, LocalOf(e.key)).ms))
  }

  ghost predicate Inv(w: World) {
    && (forall i | i in w.nodes :: w.nodes[i].id == i && NodeInv(w.nodes[i], w.built))
    && (forall e | e in w.built :: e.key.origin in w.nodes)
    && (forall m | m in w.net :: m.env in w.built)
    && Functional(w.built)
  }

  /** Some orderly run leads here from a cluster at rest. */
  ghost predicate Reachable(cfg: Config, w: World) {
    exists w0, run :: LeadsTo(cfg, w0, run, w)
  }

  ghost predicate LeadsTo(cfg: Config, w0: World, run: seq<Step>, w: World) {
    Init(w0) && Valid(cfg, w0, run) && Orderly(cfg, w0, run) && Exec(cfg, w0, run) == w
  }

  /** A cluster at rest: any registries and saved states, nothing replicated yet. */
  ghost predicate Init(w: World) {
    && (forall i | i in w.nodes :: w.nodes[i].id == i && NodeOk(w.nodes[i]) && w.nodes[i].foreign == map[])
    && w.net == {}
    && (forall e ::
          e in w.built <==> e.key.origin in w.nodes && BuildLocal(w.nodes[e.key.origin], LocalOf(e.key)) == Some(e))
  }

  lemma IdsMatch(w: World, i: NodeId)
    requires Inv(w) && i in w.nodes
    ensures w.nodes[i].id == i && OverlayOk(w.nodes[i])
  {
    assert NodeInv(w.nodes[i], w.built);
  }

  lemma OkNode(w: World, i: NodeId)
    requires Inv(w) && i in w.nodes
    ensures NodeOk(w.nodes[i])
  {
    assert NodeInv(w.nodes[i], w.built);
  }

  lemma InitInv(w: World)
    requires Init(w)
    ensures Inv(w)
  {
    forall i, lk | i in w.nodes && BuildLocal(w.nodes[i], lk).Some?
      ensures BuildLocal(w.nodes[i], lk).value in w.built
    {
      var e := BuildLocal(w.nodes[i], lk).value;
      assert LocalOf(e.key) == lk && e.key.origin == i;
    }
  }

  /** The step at a node that builds one new envelope of its own. */
  lemma FreshEnvelope(n: Node, built: set<Envelope>, n': Node, lk: LocalKey)
    requires NodeInv(n, built) && Functional(built)
    requires NodeOk(n') && n'.id == n.id && n'.foreign == n.foreign
    requires OwnsRecord(n', lk) && n.clock < OwnVersion(n', lk).ms && n.clock <= n'.disk.clock
    requires forall l | l != lk :: BuildLocal(n', l) == BuildLocal(n, l) && OwnsRecord(n', l) == OwnsRecord(n, l)
    ensures BuildLocal(n', lk).Some?
    ensures var e := BuildLocal(n', lk).value;
            && e.key == KeyOf(n.id, lk)
            && NodeInv(n', built + {e}) && Functional(built + {e})
  {
    var e := BuildLocal(n', lk).value;
    assert LocalOf(e.key) == lk;
    forall f | f in built && f.key.origin == n.id && OwnsRecord(n', LocalOf(f.key))
      ensures f.version.ms <= OwnVersion(n', LocalOf(f.key)).ms
    {
      var l := LocalOf(f.key);
      if l != lk {
        assert BuildLocal(n', l).value.version == OwnVersion(n', l);
        assert BuildLocal(n, l).value.version == OwnVersion(n, l);
      }
    }
    forall f | f in built && f.key == e.key ensures f.version != e.version {
    }
  }

  lemma MutateKeeps(n: Node, built: set<Envelope>, wall: int, lk: LocalKey, change: Change)
    requires NodeInv(n, built) && Functional(built)
    ensures var n' := Mutate(n, wall, lk, change);
            && BuildLocal(n', lk).Some?
            && BuildLocal(n', lk).value.key == KeyOf(n.id, lk)
            && NodeInv(n', built + {BuildLocal(n', lk).value}) && Functional(built + {BuildLocal(n', lk).value})
  {
    FreshEnvelope(n, built, Mutate(n, wall, lk, change), lk);
  }

  lemma StampKeeps(n: Node, built: set<Envelope>, wall: int, lk: LocalKey)
    requires NodeInv(n, built) && Functional(built)
    ensures var n' := Stamp(n, wall, lk);
            var env := BuildLocal(n', lk);
            var more := built + if env.Some? then {env.value} else {};
            && NodeInv(n', more) && Functional(more)
            && (env.Some? ==> env.value.key == KeyOf(n.id, lk))
  {
    var n' := Stamp(n, wall, lk);
    if Unversioned(n, lk) {
      FreshEnvelope(n, built, n', lk);
    } else {
      var env := BuildLocal(n', lk);
      assert built + (if env.Some? then {env.value} else {}) == built;
    }
  }

  /** A step that does not touch what the node owns, and only stores or drops replicas. */
  lemma ReplicaStepKeeps(n: Node, built: set<Envelope>, n': Node)
    requires NodeInv(n, built)
    requires n' == n.(clock := n'.clock, disk := n'.disk, foreign := n'.foreign,
                            sessions := n'.sessions, evictedUntil := n'.evictedUntil)
    requires n'.clock >= n'.disk.clock >= n.disk.clock && n'.disk == n.disk.(clock := n'.disk.clock)
    requires forall k | k in n'.foreign :: k.origin != n.id && n'.foreign[k] in built && n'.foreign[k].key == k
    ensures NodeInv(n', built)
  {
    assert forall lk :: BuildLocal(n', lk) == BuildLocal(n, lk);
    assert forall lk :: OwnsRecord(n', lk) == OwnsRecord(n, lk);
  }

  lemma GcOwns(cfg: Config, n: Node, wall: int, lk: LocalKey)
    requires NodeOk(n)
    ensures var n' := Gc(cfg, n, wall);
            && (OwnsRecord(n', lk) ==> OwnsRecord(n, lk) && OwnVersion(n', lk) == OwnVersion(n, lk))
            && (BuildLocal(n', lk).Some? ==> BuildLocal(n', lk) == BuildLocal(n, lk))
  {
  }

  lemma GcOwnOk(cfg: Config, n: Node, wall: int)
    requires NodeOk(n)
    ensures var n' := GcOwn(cfg, n, wall);
            NodeOk(n') && n'.disk.clock >= n.disk.clock && n'.id == n.id && n'.foreign == n.foreign
  {
    var n' := GcOwn(cfg, n, wall);
    assert n'.tombstones.Keys <= n.tombstones.Keys;
    assert forall lk | lk in n'.tombstones :: n'.tombstones[lk] == n.tombstones[lk];
  }

  lemma GcNodeOk(cfg: Config, n: Node, wall: int)
    requires NodeOk(n)
    ensures NodeOk(Gc(cfg, n, wall)) && Gc(cfg, n, wall).disk.clock >= n.disk.clock
    ensures Gc(cfg, n, wall).id == n.id
  {
    GcOwnOk(cfg, n, wall);
    GcForeignSubset(cfg, n.foreign, wall);
  }

  lemma GcForeignSubset(cfg: Config, o: Overlay, wall: int)
    ensures var o' := GcForeign(cfg, o, wall); forall k | k in o' :: k in o && o'[k] == o[k]
  {
  }

  lemma GcKeeps(cfg: Config, n: Node, built: set<Envelope>, wall: int)
    requires NodeInv(n, built)
    ensures NodeInv(Gc(cfg, n, wall), built)
  {
    GcNodeOk(cfg, n, wall);
    GcForeignSubset(cfg, n.foreign, wall);
    forall lk
      ensures BuildLocal(Gc(cfg, n, wall), lk).Some? ==> BuildLocal(Gc(cfg, n, wall), lk).value in built
    {
      GcOwns(cfg, n, wall, lk);
    }
    forall e | e in built && e.key.origin == n.id && OwnsRecord(Gc(cfg, n, wall), LocalOf(e.key))
      ensures e.version.ms <= OwnVersion(Gc(cfg, n, wall), LocalOf(e.key)).ms
    {
      GcOwns(cfg, n, wall, LocalOf(e.key));
    }
  }

  lemma RestartKeeps(n: Node, built: set<Envelope>)
    requires NodeInv(n, built)
    ensures NodeInv(Restart(n), built)
  {
    ReplicaStepKeeps(n, built, Restart(n));
  }

  /** Replacing one node, with the set of built envelopes grown by that node's own. */
  lemma WithNodeInv(w: World, n': Node, more: set<Envelope>)
    requires Inv(w) && n'.id in w.nodes
    requires NodeInv(n', more) && Functional(more) && w.built <= more
    requires forall e | e in more && e !in w.built :: e.key.origin == n'.id
    ensures Inv(WithNode(w, n').(built := more))
  {
    forall i | i in w.nodes && i != n'.id ensures NodeInv(w.nodes[i], more) {
      assert NodeInv(w.nodes[i], w.built);
    }
  }

  lemma OfferBuilt(n: Node, built: set<Envelope>, idx: Index)
    requires NodeInv(n, built)
    ensures Keyed(Offer(n, idx)) && forall k | k in Offer(n, idx) :: Offer(n, idx)[k] in built
  {
  }

  lemma AbsorbKeeps(n: Node, built: set<Envelope>, offer: Overlay, now: real)
    requires NodeInv(n, built) && Keyed(offer) && forall k | k in offer :: offer[k] in built
    ensures NodeInv(n.(foreign := Absorb(n, offer, now)), built)
  {
    ReplicaStepKeeps(n, built, n.(foreign := Absorb(n, offer, now)));
  }

  lemma MeetInv(w: World, i: NodeId, j: NodeId, ns: set<string>)
    requires Inv(w) && i in w.nodes && j in w.nodes && i != j
    ensures Inv(Meet(w, i, j, ns))
  {
    var a, b := w.nodes[i], w.nodes[j];
    OfferBuilt(b, w.built, TheirView(b, i, ns));
    OfferBuilt(a, w.built, OurView(a, ns));
    AbsorbKeeps(a, w.built, Offer(b, TheirView(b, i, ns)), w.now);
    AbsorbKeeps(b, w.built, Offer(a, OurView(a, ns)), w.now);
    var a' := a.(foreign := Absorb(a, Offer(b, TheirView(b, i, ns)), w.now));
    var b1 := b.(foreign := Absorb(b, Offer(a, OurView(a, ns)), w.now));
    ReplicaStepKeeps(b1, w.built, Touch(b, i, w.now).(foreign := b1.foreign));
    WithNodeInv(w, a', w.built);
    WithNodeInv(WithNode(w, a'), Touch(b, i, w.now).(foreign := b1.foreign), w.built);
  }

  lemma OpenedInv(w: World, i: NodeId, j: NodeId, ns: set<string>)
    requires Inv(w) && i in w.nodes && j in w.nodes && i != j
    ensures Inv(Opened(w, i, j, ns)) && i in Opened(w, i, j, ns).nodes && j in Opened(w, i, j, ns).nodes
  {
    var b' := Open(w.nodes[j], i, ns, w.now);
    ReplicaStepKeeps(w.nodes[j], w.built, b');
    WithNodeInv(w, b', w.built);
    var a' := Open(w.nodes[i], j, ns, w.now);
    ReplicaStepKeeps(w.nodes[i], w.built, a');
    WithNodeInv(WithNode(w, b'), a', w.built);
  }

  lemma MeetStepInv(cfg: Config, w: World, s: Step)
    requires Inv(w) && Enabled(w, s) && (s.Reconcile? || s.Connect?)
    ensures Inv(Next(cfg, w, s))
  {
    match s
    case Reconcile(i, peer) =>
      MeetInv(w, i, peer, w.nodes[i].sessions[peer].namespaces);
    case Connect(i, peer, offered) =>
      var ns := Accepted(w.nodes[peer], offered);
      OpenedInv(w, i, peer, ns);
      MeetInv(Opened(w, i, peer, ns), i, peer, ns);
  }

  /** A step that builds or drops records of the node itself. */
  lemma OwnStepInv(cfg: Config, w: World, s: Step)
    requires Inv(w) && Enabled(w, s) && (s.LocalChange? || s.StampOne? || s.Collect?)
    ensures Inv(Next(cfg, w, s))
  {
    match s
    case LocalChange(i, wall, lk, change) =>
      MutateKeeps(w.nodes[i], w.built, wall, lk, change);
      var n' := Mutate(w.nodes[i], wall, lk, change);
      WithNodeInv(w, n', w.built + {BuildLocal(n', lk).value});
    case StampOne(i, wall, lk) =>
      StampKeeps(w.nodes[i], w.built, wall, lk);
      var n' := Stamp(w.nodes[i], wall, lk);
      var env := BuildLocal(n', lk);
      WithNodeInv(w, n', w.built + if env.Some? then {env.value} else {});
    case Collect(i, wall) =>
      GcKeeps(cfg, w.nodes[i], w.built, wall);
      WithNodeInv(w, Gc(cfg, w.nodes[i], wall), w.built);
  }

  lemma StepInv(cfg: Config, w: World, s: Step)
    requires Inv(w) && Enabled(w, s)
    ensures Inv(Next(cfg, w, s))
  {
    if s.Reconcile? || s.Connect? {
      MeetStepInv(cfg, w, s);
    } else if s.LocalChange? || s.StampOne? || s.Collect? {
      OwnStepInv(cfg, w, s);
    } else if s.Send? {
      SendInv(w, s.i, s.key);
    } else if !s.Advance? {
      ReplicaStepInv(cfg, w, s);
    }
  }

  lemma SendInv(w: World, i: NodeId, key: Key)
    requires Inv(w) && i in w.nodes && BuildFor(w.nodes[i], key).Some?
    ensures BuildFor(w.nodes[i], key).value in w.built
  {
    assert NodeInv(w.nodes[i], w.built);
  }

  lemma ReplicaStepInv(cfg: Config, w: World, s: Step)
    requires Inv(w) && Enabled(w, s)
    requires s.MintMembership? || s.Observe? || s.SaveState? || s.Deliver? || s.Hear?
          || s.OpenSession? || s.HoldTick? || s.Disconnect? || s.Forget? || s.Reboot?
    ensures Inv(Next(cfg, w, s))
  {
    var i := if s.Deliver? then s.m.to else s.i;
    var n' := Next(cfg, w, s).nodes[i];
    ReplicaStepKeeps(w.nodes[i], w.built, n');
    WithNodeInv(w, n', w.built);
  }

  lemma {:induction false} RunKeepsInv(cfg: Config, w: World, run: seq<Step>)
    requires Inv(w) && Valid(cfg, w, run)
    ensures Inv(Exec(cfg, w, run))
    decreases |run|
  {
    if run != [] {
      RunKeepsInv(cfg, w, Front(run));
      StepInv(cfg, Exec(cfg, w, Front(run)), Last(run));
    }
  }

  lemma RunInv(cfg: Config, w: World, run: seq<Step>)
    requires Init(w) && Valid(cfg, w, run)
    ensures Inv(Exec(cfg, w, run))
  {
    InitInv(w);
    RunKeepsInv(cfg, w, run);
  }

  lemma ReachableInv(cfg: Config, w: World)
    requires Reachable(cfg, w)
    ensures Inv(w)
  {
    var w0, run :| LeadsTo(cfg, w0, run, w);
    RunInv(cfg, w0, run);
  }

  lemma AtRestIsReachable(cfg: Config, w: World)
    requires Init(w)
    ensures Reachable(cfg, w)
  {
    assert LeadsTo(cfg, w, [], w);
  }

  lemma ReachableNext(cfg: Config, w: World, s: Step)
    requires Reachable(cfg, w) && Enabled(w, s) && OnLink(w, s)
    ensures Reachable(cfg, Next(cfg, w, s))
  {
    var w0, run :| LeadsTo(cfg, w0, run, w);
    var longer := run + [s];
    assert Front(longer) == run && Last(longer) == s;
    assert LeadsTo(cfg, w0, longer, Next(cfg, w, s));
  }

  // ---- authority ----

  lemma {:induction false} ValidPrefix(cfg: Config, w: World, run: seq<Step>, t: nat)
    requires Valid(cfg, w, run) && t <= |run|
    ensures Valid(cfg, w, run[..t])
    decreases |run|
  {
    if t < |run| {
      ValidPrefix(cfg, w, Front(run), t);
      assert Front(run)[..t] == run[..t];
    } else {
      assert run[..t] == run;
    }
  }

  /** The world before step `t` of the run. */
  function At(cfg: Config, w: World, run: seq<Step>, t: nat): World
    requires Valid(cfg, w, run) && t <= |run|
  {
    ValidPrefix(cfg, w, run, t);
    Exec(cfg, w, run[..t])
  }

  /** At time `t` of the run, `e` is what its origin served for its own record. */
  ghost predicate ServedByOriginAt(cfg: Config, w: World, run: seq<Step>, t: nat, e: Envelope)
    requires Valid(cfg, w, run) && t <= |run|
  {
    ValidPrefix(cfg, w, run, t);
    var u := Exec(cfg, w, run[..t]);
    e.key.origin in u.nodes && BuildLocal(u.nodes[e.key.origin], LocalOf(e.key)) == Some(e)
  }

  /** An envelope is built by the step after which its origin serves it. */
  lemma JustBuilt(cfg: Config, u: World, s: Step, e: Envelope)
    requires Inv(u) && Enabled(u, s) && e in Next(cfg, u, s).built && e !in u.built
    ensures var v := Next(cfg, u, s);
            e.key.origin in v.nodes && BuildLocal(v.nodes[e.key.origin], LocalOf(e.key)) == Some(e)
  {
    NothingElseBuilds(cfg, u, s);
    IdsMatch(u, s.i);
    match s
    case LocalChange(i, wall, lk, change) => JustPublished(u, Mutate(u.nodes[i], wall, lk, change), lk, e);
    case StampOne(i, wall, lk) => JustPublished(u, Stamp(u.nodes[i], wall, lk), lk, e);
  }

  lemma NothingElseBuilds(cfg: Config, u: World, s: Step)
    requires Enabled(u, s)
    ensures s.LocalChange? || s.StampOne? || Next(cfg, u, s).built == u.built
  {
  }

  lemma JustPublished(u: World, n: Node, lk: LocalKey, e: Envelope)
    requires e in Publish(u, n, lk).built && e !in u.built
    ensures var v := Publish(u, n, lk);
            e.key.origin in v.nodes && BuildLocal(v.nodes[e.key.origin], LocalOf(e.key)) == Some(e)
  {
    assert BuildLocal(n, lk) == Some(e) && e.key == KeyOf(n.id, lk) && LocalOf(e.key) == lk;
  }

  lemma {:induction false} BuiltWasServed(cfg: Config, w: World, run: seq<Step>, e: Envelope)
    requires Init(w) && Valid(cfg, w, run) && e in Exec(cfg, w, run).built
    ensures exists t :: 0 <= t <= |run| && ServedByOriginAt(cfg, w, run, t, e)
    decreases |run|
  {
    if run == [] {
      assert run[..0] == run;
      assert ServedByOriginAt(cfg, w, run, 0, e);
    } else {
      var u := Exec(cfg, w, Front(run));
      if e in u.built {
        BuiltWasServed(cfg, w, Front(run), e);
        var t :| 0 <= t <= |Front(run)| && ServedByOriginAt(cfg, w, Front(run), t, e);
        assert Front(run)[..t] == run[..t];
        assert ServedByOriginAt(cfg, w, run, t, e);
      } else {
        RunInv(cfg, w, Front(run));
        JustBuilt(cfg, u, Last(run), e);
        assert run[..|run|] == run;
        assert ServedByOriginAt(cfg, w, run, |run|, e);
      }
    }
  }
}
