/** A cluster of three nodes with one record, built step by step from rest: the stage for the runs
    that show which assumptions the theorems cannot do without. */
module SmallCluster {
  import opened Envelope
  import opened Merkle
  import opened Node
  import opened Exchange
  import opened Protocol

  const A: NodeId := "A"
  const B: NodeId := "B"
  const C: NodeId := "C"

  const D: set<string> := {"d"}
  const RECORD: LocalKey := LocalKey("d", "s")
  const KEY: Key := Key("d", C, "s")

  /** The record of C, and its deletion. */
  const ENV: Envelope := Envelope(KEY, Version(1, C), false, Some("x"))
  const TOMB: Envelope := Envelope(KEY, Version(2, C), true, None)

  /** A node without records of its own: what it holds of C's record, its sessions and cooldowns. */
  function Replica(id: NodeId, holds: Option<Envelope>, sessions: map<NodeId, Peer>, until: map<NodeId, real>): Node {
    Node(id, D, map[], 0, map[], map[], Saved(0, map[], map[]), One(holds), sessions, until)
  }

  function One(env: Option<Envelope>): Overlay {
    if env.Some? then map[KEY := env.value] else map[]
  }

  datatype Stage = Fresh | Created | Deleted | Forgotten

  /** C at a stage of its record's life. */
  function Owner(stage: Stage, sessions: map<NodeId, Peer>): Node {
    match stage
    case Fresh => Node(C, D, map[], 0, map[], map[], Saved(0, map[], map[]), map[], sessions, map[])
    case Created =>
      Node(C, D, map[RECORD := "x"], 1, map[RECORD := ENV.version], map[],
           Saved(1, map[RECORD := ENV.version], map[]), map[], sessions, map[])
    case Deleted =>
      var t := map[RECORD := Tombstone(TOMB.version, 2)];
      Node(C, D, map[], 2, map[], t, Saved(2, map[], t), map[], sessions, map[])
    case Forgotten => Node(C, D, map[], 2, map[], map[], Saved(2, map[], map[]), map[], sessions, map[])
  }

  function OwnerServes(stage: Stage): Option<Envelope> {
    match stage
    case Created => Some(ENV)
    case Deleted => Some(TOMB)
    case _ => None
  }

  function Stageful(now: real, a: Node, b: Node, c: Node, net: set<Msg>, built: set<Envelope>): World {
    World(map[A := a, B := b, C := c], net, now, built)
  }

  lemma SetA(now: real, a: Node, b: Node, c: Node, net: set<Msg>, built: set<Envelope>, a': Node)
    requires a'.id == A
    ensures WithNode(Stageful(now, a, b, c, net, built), a') == Stageful(now, a', b, c, net, built)
  {
  }

  lemma SetB(now: real, a: Node, b: Node, c: Node, net: set<Msg>, built: set<Envelope>, b': Node)
    requires b'.id == B
    ensures WithNode(Stageful(now, a, b, c, net, built), b') == Stageful(now, a, b', c, net, built)
  {
  }

  lemma SetC(now: real, a: Node, b: Node, c: Node, net: set<Msg>, built: set<Envelope>, c': Node)
    requires c'.id == C
    ensures WithNode(Stageful(now, a, b, c, net, built), c') == Stageful(now, a, b, c', net, built)
  {
  }

  // ---- what the nodes serve and store ----

  /** The node serves the one record, or nothing. */
  predicate ServesOne(n: Node, env: Option<Envelope>) {
    OverlayOk(n) && (env.Some? ==> env.value.key == KEY) && n.datasets == D
  }

  ghost predicate Serves(n: Node, env: Option<Envelope>) {
    ServesOne(n, env) && forall k :: BuildFor(n, k) == Get(One(env), k)
  }

  lemma ReplicaServes(id: NodeId, holds: Option<Envelope>, sessions: map<NodeId, Peer>, until: map<NodeId, real>)
    requires id != C && (holds.Some? ==> holds.value.key == KEY)
    ensures Serves(Replica(id, holds, sessions, until), holds)
  {
  }

  lemma OwnerServesIts(stage: Stage, sessions: map<NodeId, Peer>)
    ensures Serves(Owner(stage, sessions), OwnerServes(stage))
  {
    assert KeyOf(C, RECORD) == KEY && LocalOf(KEY) == RECORD;
    forall k ensures BuildFor(Owner(stage, sessions), k) == Get(One(OwnerServes(stage)), k) {
      if k.origin == C && LocalOf(k) == RECORD { assert k == KEY; }
    }
  }

  lemma OfferOver(n: Node, env: Option<Envelope>, idx: Index)
    requires Serves(n, env) && forall k :: k in idx <==> k in One(env)
    ensures Offer(n, idx) == One(env)
  {
  }

  lemma OfferOne(n: Node, env: Option<Envelope>, ns: set<string>)
    requires Serves(n, env) && "d" in ns
    ensures Offer(n, VisibleIndex(n, ns)) == One(env) && Offer(n, FullIndex(n, ns)) == One(env)
  {
    forall k
      ensures k in VisibleIndex(n, ns) <==> k in One(env)
      ensures k in FullIndex(n, ns) <==> k in One(env)
    {
      VisibleEntry(n, ns, k);
      IndexEntry(n, ns, k);
    }
    OfferOver(n, env, VisibleIndex(n, ns));
    OfferOver(n, env, FullIndex(n, ns));
  }

  function Better(mine: Option<Envelope>, theirs: Option<Envelope>): Option<Envelope> {
    if theirs.Some? && (mine.None? || After(theirs.value.version, mine.value.version)) then theirs else mine
  }

  /** A replica that does not suppress C takes the newer version. */
  lemma ReplicaAbsorbs(n: Node, holds: Option<Envelope>, offer: Option<Envelope>, now: real)
    requires n.id != C && n.foreign == One(holds) && !Suppressed(n, C, now)
    requires (holds.Some? ==> holds.value.key == KEY) && (offer.Some? ==> offer.value.key == KEY)
    ensures Absorb(n, One(offer), now) == One(Better(holds, offer))
  {
  }

  lemma OwnerAbsorbsNothing(n: Node, offer: Option<Envelope>, now: real)
    requires n.id == C && n.foreign == map[] && (offer.Some? ==> offer.value.key == KEY)
    ensures Absorb(n, One(offer), now) == map[]
  {
  }

  // ---- opening a session and reconciling ----

  function Peered(sessions: map<NodeId, Peer>, peer: NodeId, now: real): map<NodeId, Peer> {
    sessions[peer := Peer(D, now)]
  }

  lemma OpenServes(n: Node, env: Option<Envelope>, peer: NodeId, now: real)
    requires Serves(n, env)
    ensures Serves(Open(n, peer, D, now), env) && Touch(Open(n, peer, D, now), peer, now) == Open(n, peer, D, now)
  {
    forall k ensures BuildFor(Open(n, peer, D, now), k) == BuildFor(n, k) {}
  }

  /** Both ends of `i` connecting to `j` when each serves the record or nothing. */
  lemma ConnectSmall(cfg: Config, w: World, i: NodeId, j: NodeId, oi: Option<Envelope>, oj: Option<Envelope>)
    requires i in w.nodes && j in w.nodes && i != j && w.nodes[i].id == i && w.nodes[j].id == j
    requires Serves(w.nodes[i], oi) && Serves(w.nodes[j], oj)
    ensures var a, b := Open(w.nodes[i], j, D, w.now), Open(w.nodes[j], i, D, w.now);
            Next(cfg, w, Connect(i, j, D))
            == WithNode(WithNode(w, a.(foreign := Absorb(a, One(oj), w.now))), b.(foreign := Absorb(b, One(oi), w.now)))
  {
    var a, b := Open(w.nodes[i], j, D, w.now), Open(w.nodes[j], i, D, w.now);
    assert Accepted(w.nodes[j], D) == D;
    ConnectShape(cfg, w, i, j, D);
    OpenServes(w.nodes[i], oi, j, w.now);
    OpenServes(w.nodes[j], oj, i, w.now);
    OfferOne(a, oi, D);
    OfferOne(b, oj, D);
  }

  lemma ReplicaOpens(
      id: NodeId, holds: Option<Envelope>, sessions: map<NodeId, Peer>, until: map<NodeId, real>, peer: NodeId,
      now: real)
    ensures Open(Replica(id, holds, sessions, until), peer, D, now)
         == Replica(id, holds, Peered(sessions, peer, now), until - {peer})
  {
  }

  lemma OwnerOpens(stage: Stage, sessions: map<NodeId, Peer>, peer: NodeId, now: real)
    ensures Open(Owner(stage, sessions), peer, D, now) == Owner(stage, Peered(sessions, peer, now))
  {
    var none: map<NodeId, real> := map[];
    assert none - {peer} == none;
  }

  /** A replica connects to C and takes what it serves. */
  lemma ReplicaMeetsOwner(
      cfg: Config, w: World, id: NodeId, holds: Option<Envelope>, sessions: map<NodeId, Peer>, stage: Stage,
      others: map<NodeId, Peer>)
    requires id != C && id in w.nodes && C in w.nodes && (holds.Some? ==> holds.value.key == KEY)
    requires w.nodes[id] == Replica(id, holds, sessions, map[]) && w.nodes[C] == Owner(stage, others)
    ensures Next(cfg, w, Connect(id, C, D))
         == WithNode(WithNode(w, Replica(id, Better(holds, OwnerServes(stage)), Peered(sessions, C, w.now), map[])),
                     Owner(stage, Peered(others, id, w.now)))
  {
    ReplicaServes(id, holds, sessions, map[]);
    OwnerServesIts(stage, others);
    ConnectSmall(cfg, w, id, C, holds, OwnerServes(stage));
    ReplicaOpens(id, holds, sessions, map[], C, w.now);
    OwnerOpens(stage, others, id, w.now);
    var none: map<NodeId, real> := map[];
    assert none - {C} == none;
    ReplicaAbsorbs(Replica(id, holds, Peered(sessions, C, w.now), map[]), holds, OwnerServes(stage), w.now);
    OwnerAbsorbsNothing(Owner(stage, Peered(others, id, w.now)), holds, w.now);
  }

  /** Two replicas that hold the same connect. */
  lemma ReplicasMeet(
      cfg: Config, w: World, i: NodeId, j: NodeId, holds: Option<Envelope>, si: map<NodeId, Peer>, sj: map<NodeId,
      Peer>)
    requires i != C && j != C && i != j && i in w.nodes && j in w.nodes && (holds.Some? ==> holds.value.key == KEY)
    requires w.nodes[i] == Replica(i, holds, si, map[]) && w.nodes[j] == Replica(j, holds, sj, map[])
    ensures Next(cfg, w, Connect(i, j, D))
         == WithNode(WithNode(w, Replica(i, holds, Peered(si, j, w.now), map[])),
                     Replica(j, holds, Peered(sj, i, w.now), map[]))
  {
    ReplicaServes(i, holds, si, map[]);
    ReplicaServes(j, holds, sj, map[]);
    ConnectSmall(cfg, w, i, j, holds, holds);
    ReplicaOpens(i, holds, si, map[], j, w.now);
    ReplicaOpens(j, holds, sj, map[], i, w.now);
    var none: map<NodeId, real> := map[];
    assert none - {i} == none && none - {j} == none;
    if holds.Some? { VersionOrder(holds.value.version, holds.value.version, holds.value.version); }
    ReplicaAbsorbs(Replica(i, holds, Peered(si, j, w.now), map[]), holds, holds, w.now);
    ReplicaAbsorbs(Replica(j, holds, Peered(sj, i, w.now), map[]), holds, holds, w.now);
  }

  /** A replica with a session to C, and C with one to it, reconcile. */
  lemma ReplicaReconciles(
      cfg: Config, w: World, id: NodeId, holds: Option<Envelope>, sessions: map<NodeId, Peer>, stage: Stage,
      others: map<NodeId, Peer>)
    returns (s: Step)
    requires id != C && id in w.nodes && C in w.nodes && (holds.Some? ==> holds.value.key == KEY)
    requires w.nodes[id] == Replica(id, holds, sessions, map[]) && w.nodes[C] == Owner(stage, others)
    requires C in sessions && sessions[C].namespaces == D && id in others && others[id].namespaces == D
    ensures s.Reconcile? && s.i == id && s.peer == C && Enabled(w, s)
    ensures Next(cfg, w, s)
         == WithNode(WithNode(w, Replica(id, Better(holds, OwnerServes(stage)), sessions, map[])),
                     Owner(stage, Peered(others, id, w.now)))
  {
    s := Reconcile(id, C);
    var a, c := w.nodes[id], w.nodes[C];
    ReplicaServes(id, holds, sessions, map[]);
    OwnerServesIts(stage, others);
    OfferOne(a, holds, D);
    OfferOne(c, OwnerServes(stage), D);
    assert Allowed(c, id, D) == D;
    ReplicaAbsorbs(a, holds, OwnerServes(stage), w.now);
    OwnerAbsorbsNothing(c, holds, w.now);
    assert Touch(c, id, w.now) == Owner(stage, Peered(others, id, w.now));
  }

  /** Two replicas that hold the same and have sessions with each other reconcile. */
  lemma ReplicasReconcile(
      cfg: Config, w: World, i: NodeId, j: NodeId, holds: Option<Envelope>, si: map<NodeId, Peer>, sj: map<NodeId,
      Peer>)
    returns (s: Step)
    requires i != C && j != C && i != j && i in w.nodes && j in w.nodes && (holds.Some? ==> holds.value.key == KEY)
    requires w.nodes[i] == Replica(i, holds, si, map[]) && w.nodes[j] == Replica(j, holds, sj, map[])
    requires j in si && si[j].namespaces == D && i in sj && sj[i].namespaces == D
    ensures s == Reconcile(i, j) && Enabled(w, s)
    ensures Next(cfg, w, s) == WithNode(w, Replica(j, holds, Peered(sj, i, w.now), map[]))
  {
    s := Reconcile(i, j);
    var a, b := w.nodes[i], w.nodes[j];
    ReplicaServes(i, holds, si, map[]);
    ReplicaServes(j, holds, sj, map[]);
    OfferOne(a, holds, D);
    OfferOne(b, holds, D);
    assert Allowed(b, i, D) == D;
    if holds.Some? { VersionOrder(holds.value.version, holds.value.version, holds.value.version); }
    ReplicaAbsorbs(a, holds, holds, w.now);
    ReplicaAbsorbs(b, holds, holds, w.now);
    assert Touch(b, i, w.now) == Replica(j, holds, Peered(sj, i, w.now), map[]);
    assert WithNode(w, a) == w;
  }

  // ---- from rest to a meshed cluster ----

  function AtRest(now: real): World {
    Stageful(now, Replica(A, None, map[], map[]), Replica(B, None, map[], map[]), Owner(Fresh, map[]), {}, {})
  }

  function Sessions(p: NodeId, seenP: real, q: NodeId, seenQ: real): map<NodeId, Peer> {
    map[p := Peer(D, seenP), q := Peer(D, seenQ)]
  }

  /** All three know each other and the record. */
  function Meshed(now: real): World {
    Stageful(now, Replica(A, Some(ENV), Sessions(C, now, B, now), map[]),
             Replica(B, Some(ENV), Sessions(C, now, A, now), map[]),
             Owner(Created, Sessions(A, now, B, now)), {}, {ENV})
  }

  lemma AtRestInit(now: real)
    ensures Init(AtRest(now))
  {
    var w := AtRest(now);
    forall i | i in w.nodes ensures NodeOk(w.nodes[i]) {}
    forall e
      ensures e in w.built <==> e.key.origin in w.nodes && BuildLocal(w.nodes[e.key.origin], LocalOf(e.key)) == Some(e)
    {
      
    }
  }

  lemma Creation(cfg: Config, now: real)
    ensures Next(cfg, AtRest(now), LocalChange(C, 1, RECORD, Put("x"))) == Founded(now)
  {
    var n := Mutate(Owner(Fresh, map[]), 1, RECORD, Put("x"));
    assert n == Owner(Created, map[]);
    OwnerServesIts(Created, map[]);
    assert BuildLocal(n, RECORD) == BuildFor(n, KEY) == Some(ENV);
  }

  /** The stages in between: C has the record; then A, then B has met C. */
  function Founded(now: real): World {
    Stageful(now, Replica(A, None, map[], map[]), Replica(B, None, map[], map[]), Owner(Created, map[]), {}, {ENV})
  }

  function Joined(now: real): World {
    Stageful(now, Replica(A, Some(ENV), map[C := Peer(D, now)], map[]), Replica(B, None, map[], map[]),
             Owner(Created, map[A := Peer(D, now)]), {}, {ENV})
  }

  function AllJoined(now: real): World {
    Stageful(now, Replica(A, Some(ENV), map[C := Peer(D, now)], map[]),
             Replica(B, Some(ENV), map[C := Peer(D, now)], map[]),
             Owner(Created, Sessions(A, now, B, now)), {}, {ENV})
  }

  lemma AJoins(cfg: Config, now: real)
    ensures Next(cfg, Founded(now), Connect(A, C, D)) == Joined(now)
  {
    var none: map<NodeId, Peer> := map[];
    var a, b, c := Replica(A, None, none, map[]), Replica(B, None, none, map[]), Owner(Created, none);
    var a', c' := Replica(A, Some(ENV), map[C := Peer(D, now)], map[]), Owner(Created, map[A := Peer(D, now)]);
    ReplicaMeetsOwner(cfg, Founded(now), A, None, none, Created, none);
    assert Peered(none, C, now) == map[C := Peer(D, now)] && Peered(none, A, now) == map[A := Peer(D, now)];
    SetA(now, a, b, c, {}, {ENV}, a');
    SetC(now, a', b, c, {}, {ENV}, c');
  }

  lemma BJoins(cfg: Config, now: real)
    ensures Next(cfg, Joined(now), Connect(B, C, D)) == AllJoined(now)
  {
    var none: map<NodeId, Peer> := map[];
    var one := map[A := Peer(D, now)];
    var a, b, c := Replica(A, Some(ENV), map[C := Peer(D, now)], map[]), Replica(B, None, none, map[]),
                   Owner(Created, one);
    var b', c' := Replica(B, Some(ENV), map[C := Peer(D, now)], map[]), Owner(Created, Sessions(A, now, B, now));
    ReplicaMeetsOwner(cfg, Joined(now), B, None, none, Created, one);
    assert Peered(none, C, now) == map[C := Peer(D, now)] && Peered(one, B, now) == Sessions(A, now, B, now);
    SetB(now, a, b, c, {}, {ENV}, b');
    SetC(now, a, b', c, {}, {ENV}, c');
  }

  lemma AMeetsB(cfg: Config, now: real)
    ensures Next(cfg, AllJoined(now), Connect(A, B, D)) == Meshed(now)
  {
    var one := map[C := Peer(D, now)];
    var a, b, c := Replica(A, Some(ENV), one, map[]), Replica(B, Some(ENV), one, map[]),
                   Owner(Created, Sessions(A, now, B, now));
    var a', b' := Replica(A, Some(ENV), Sessions(C, now, B, now), map[]),
                  Replica(B, Some(ENV), Sessions(C, now, A, now), map[]);
    ReplicasMeet(cfg, AllJoined(now), A, B, Some(ENV), one, one);
    assert Peered(one, B, now) == Sessions(C, now, B, now) && Peered(one, A, now) == Sessions(C, now, A, now);
    SetA(now, a, b, c, {}, {ENV}, a');
    SetB(now, a', b, c, {}, {ENV}, b');
  }

  lemma MeshedIsReachable(cfg: Config, now: real)
    ensures Reachable(cfg, Meshed(now))
  {
    AtRestInit(now);
    AtRestIsReachable(cfg, AtRest(now));
    Creation(cfg, now);
    ReachableNext(cfg, AtRest(now), LocalChange(C, 1, RECORD, Put("x")));
    AJoins(cfg, now);
    ReachableNext(cfg, Founded(now), Connect(A, C, D));
    BJoins(cfg, now);
    ReachableNext(cfg, Joined(now), Connect(B, C, D));
    AMeetsB(cfg, now);
    ReachableNext(cfg, AllJoined(now), Connect(A, B, D));
  }

  // ---- the deletion ----

  /** The same cluster right after C deleted the record; A and B still hold it. */
  function JustAfterDeletion(now: real): World {
    Meshed(now).(nodes := Meshed(now).nodes[C := Owner(Deleted, Sessions(A, now, B, now))], built := {ENV, TOMB})
  }

  lemma Deletion(cfg: Config, now: real)
    ensures Enabled(Meshed(now), LocalChange(C, 2, RECORD, Delete))
    ensures Next(cfg, Meshed(now), LocalChange(C, 2, RECORD, Delete)) == JustAfterDeletion(now)
  {
    var others := Sessions(A, now, B, now);
    var n := Mutate(Owner(Created, others), 2, RECORD, Delete);
    assert n == Owner(Deleted, others);
    OwnerServesIts(Deleted, others);
    assert BuildLocal(n, RECORD) == BuildFor(n, KEY) == Some(TOMB);
  }

  lemma DeletionIsReachable(cfg: Config, now: real)
    ensures Reachable(cfg, JustAfterDeletion(now))
  {
    MeshedIsReachable(cfg, now);
    Deletion(cfg, now);
    ReachableNext(cfg, Meshed(now), LocalChange(C, 2, RECORD, Delete));
  }
}
