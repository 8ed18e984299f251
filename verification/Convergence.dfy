/** Once nothing is written, evicted or collected any more, meeting every other node once is enough
    for all nodes to agree. */
module Convergence {
  import opened Envelope
  import opened Merkle
  import opened Node
  import opened Exchange
  import opened Protocol

  // ---- calm runs ----

  predicate Unsuppressed(w: World) {
    forall i, o | i in w.nodes && o in w.nodes[i].evictedUntil :: w.now >= w.nodes[i].evictedUntil[o]
  }

  /** No mutation, eviction, garbage collection or restart. Anything else may happen in any order:
      broadcasts and late deliveries, keepalives, HOLD ticks that find nobody silent, OPENs,
      membership mints, reconciles. */
  predicate Calm(cfg: Config, w: World, s: Step) {
    match s
    case LocalChange(i, wall, lk, change) => false
    case StampOne(i, wall, lk) => i in w.nodes && !Unversioned(w.nodes[i], lk)
    case Disconnect(i, peer) => false
    case Collect(i, wall) => false
    case Reboot(i) => false
    case HoldTick(i) => i in w.nodes && Stale(cfg, w.nodes[i], w.now) == {}
    case _ => true
  }

  predicate CalmRun(cfg: Config, w: World, run: seq<Step>)
    requires Valid(cfg, w, run)
    decreases |run|
  {
    run == [] || (CalmRun(cfg, w, Front(run)) && Calm(cfg, Exec(cfg, w, Front(run)), Last(run)))
  }

  /** The step completes a reconcile between `i` and `j`, in either direction, over a session that
      covers the datasets `d` on both sides. */
  predicate Meets(w: World, s: Step, i: NodeId, j: NodeId, d: set<string>) {
    match s
    case Reconcile(a, b) =>
      && ((a == i && b == j) || (a == j && b == i)) && a in w.nodes && b in w.nodes && b in w.nodes[a].sessions
      && d <= w.nodes[a].sessions[b].namespaces && d <= Allowed(w.nodes[b], a, w.nodes[a].sessions[b].namespaces)
    case Connect(a, b, offered) =>
      ((a == i && b == j) || (a == j && b == i)) && b in w.nodes && d <= Accepted(w.nodes[b], offered)
    case _ => false
  }

  predicate MeetsAt(cfg: Config, w: World, run: seq<Step>, t: nat, i: NodeId, j: NodeId, d: set<string>)
    requires Valid(cfg, w, run) && t < |run|
  {
    Meets(At(cfg, w, run, t), run[t], i, j, d)
  }

  /** A reconcile of `i` with `j` whose calls other steps come between: `i` reads its own index at
      `own`, `j` answers with its bucket hashes at `hashes` and with its rows at `rows`. The bucket
      counts are those of `i` and `j`. */
  datatype Talk = Talk(
    i: NodeId, j: NodeId, namespaces: set<string>, sha: Sha, ours: nat, theirs: nat, own: nat, hashes: nat, rows: nat)

  predicate InOrder(run: seq<Step>, a: Talk) {
    a.own <= a.hashes <= a.rows <= |run| && a.ours > 0 && a.theirs > 0 && a.i != a.j
  }

  function ViewOf(w: World, i: NodeId, ns: set<string>): Index {
    if i in w.nodes then OurView(w.nodes[i], ns) else map[]
  }

  function ShownBy(w: World, j: NodeId, from: NodeId, ns: set<string>): Index {
    if j in w.nodes then TheirView(w.nodes[j], from, ns) else map[]
  }

  /** What the reconcile compares. */
  function OwnRows(cfg: Config, w: World, run: seq<Step>, a: Talk): Index
    requires Valid(cfg, w, run) && InOrder(run, a)
  {
    ViewOf(At(cfg, w, run, a.own), a.i, a.namespaces)
  }

  function HashedRows(cfg: Config, w: World, run: seq<Step>, a: Talk): Index
    requires Valid(cfg, w, run) && InOrder(run, a)
  {
    ShownBy(At(cfg, w, run, a.hashes), a.j, a.i, a.namespaces)
  }

  function ReadRows(cfg: Config, w: World, run: seq<Step>, a: Talk): Index
    requires Valid(cfg, w, run) && InOrder(run, a)
  {
    ShownBy(At(cfg, w, run, a.rows), a.j, a.i, a.namespaces)
  }

  ghost function Differing(cfg: Config, w: World, run: seq<Step>, a: Talk): set<nat>
    requires Valid(cfg, w, run) && InOrder(run, a)
  {
    DifferingBuckets(BucketHashes(a.sha, OwnRows(cfg, w, run, a), a.ours),
                     BucketHashes(a.sha, HashedRows(cfg, w, run, a), a.theirs))
  }

  ghost function ToPull(cfg: Config, w: World, run: seq<Step>, a: Talk): set<Key>
    requires Valid(cfg, w, run) && InOrder(run, a)
  {
    var diff := Differing(cfg, w, run, a);
    NewerKeys(RowsIn(a.sha, ReadRows(cfg, w, run, a), a.theirs, diff),
              RowsIn(a.sha, OwnRows(cfg, w, run, a), a.ours, diff))
  }

  ghost function ToPush(cfg: Config, w: World, run: seq<Step>, a: Talk): set<Key>
    requires Valid(cfg, w, run) && InOrder(run, a)
  {
    var diff := Differing(cfg, w, run, a);
    NewerKeys(RowsIn(a.sha, OwnRows(cfg, w, run, a), a.ours, diff),
              RowsIn(a.sha, ReadRows(cfg, w, run, a), a.theirs, diff))
  }

  /** What `from` serves for `k` at some time after `t` arrives at `to` at some time after that. */
  predicate Handed(cfg: Config, w: World, run: seq<Step>, t: nat, from: NodeId, to: NodeId, k: Key)
    requires Valid(cfg, w, run)
  {
    exists s, u :: t <= s <= u < |run| && HandedAt(cfg, w, run, s, u, from, to, k)
  }

  predicate HandedAt(cfg: Config, w: World, run: seq<Step>, s: nat, u: nat, from: NodeId, to: NodeId, k: Key)
    requires Valid(cfg, w, run) && s <= u < |run|
  {
    && run[u].Deliver? && run[u].m.to == to && from in At(cfg, w, run, s).nodes
    && BuildFor(At(cfg, w, run, s).nodes[from], k) == Some(run[u].m.env)
  }

  /** The session covers `d`, no two hashed inputs collide, and every row of `d` that is to be pulled or
      pushed gets there. */
  ghost predicate Talks(cfg: Config, w: World, run: seq<Step>, a: Talk, d: set<string>)
    requires Valid(cfg, w, run)
  {
    && Compares(cfg, w, run, a, d)
    && (forall k | k in ToPull(cfg, w, run, a) && k.dataset in d :: Handed(cfg, w, run, a.rows, a.j, a.i, k))
    && (forall k | k in ToPush(cfg, w, run, a) && k.dataset in d :: Handed(cfg, w, run, a.rows, a.i, a.j, k))
  }

  ghost predicate Compares(cfg: Config, w: World, run: seq<Step>, a: Talk, d: set<string>)
    requires Valid(cfg, w, run)
  {
    && InOrder(run, a) && d <= a.namespaces
    && Shows(At(cfg, w, run, a.hashes), a, d) && Shows(At(cfg, w, run, a.rows), a, d)
    && var x, y := OwnRows(cfg, w, run, a), HashedRows(cfg, w, run, a);
    && CleanIndex(x) && CleanIndex(y) && !Collision(a.sha, x, a.ours, y, a.theirs)
  }

  predicate Shows(w: World, a: Talk, d: set<string>) {
    a.j in w.nodes && d <= Allowed(w.nodes[a.j], a.i, a.namespaces)
  }

  ghost predicate TalksBetween(cfg: Config, w: World, run: seq<Step>, a: Talk, i: NodeId, j: NodeId, d: set<string>)
    requires Valid(cfg, w, run)
  {
    Talks(cfg, w, run, a, d) && ((a.i == i && a.j == j) || (a.i == j && a.j == i))
  }

  /** Every two nodes reconcile at some time, at one instant or call by call. */
  ghost predicate EveryPairMeets(cfg: Config, w: World, run: seq<Step>, d: set<string>)
    requires Valid(cfg, w, run)
  {
    forall i, j | i in w.nodes && j in w.nodes && i != j ::
      || (exists t :: 0 <= t < |run| && MeetsAt(cfg, w, run, t, i, j, d))
      || (exists a :: TalksBetween(cfg, w, run, a, i, j, d))
  }

  // ---- what everybody converges to ----

  ghost predicate Holds(w: World, i: NodeId, k: Key, e: Envelope) {
    i in w.nodes && BuildFor(w.nodes[i], k) == Some(e)
  }

  predicate BelowAt(n: Node, k: Key, e: Envelope) {
    BuildFor(n, k).Some? ==> !After(BuildFor(n, k).value.version, e.version)
  }

  /** Nobody holds, and no message carries, a version of `k` after that of `e`. */
  ghost predicate Below(w: World, k: Key, e: Envelope) {
    && e.key == k
    && (forall i | i in w.nodes :: BelowAt(w.nodes[i], k, e))
    && (forall m | m in w.net && m.env.key == k :: !After(m.env.version, e.version))
  }

  /** `e` is the newest envelope of `k` anywhere, and some node holds it. */
  ghost predicate Top(w: World, k: Key, e: Envelope) {
    Below(w, k, e) && exists i :: Holds(w, i, k, e)
  }

  // ---- one node ----

  predicate OfferBelow(o: Overlay, k: Key, e: Envelope) {
    k in o ==> o[k].key == k && !After(o[k].version, e.version)
  }

  predicate NoCooldown(n: Node, now: real) {
    forall o | o in n.evictedUntil :: now >= n.evictedUntil[o]
  }

  lemma AbsorbKeepsTop(n: Node, offer: Overlay, now: real, k: Key, e: Envelope)
    requires OverlayOk(n) && BelowAt(n, k, e) && OfferBelow(offer, k, e)
    ensures var n' := n.(foreign := Absorb(n, offer, now));
            BelowAt(n', k, e) && (BuildFor(n, k) == Some(e) ==> BuildFor(n', k) == Some(e))
  {
  }

  lemma AbsorbLearns(n: Node, offer: Overlay, now: real, k: Key, e: Envelope)
    requires OverlayOk(n) && BelowAt(n, k, e) && NoCooldown(n, now) && k.origin != n.id
    requires k in offer && offer[k] == e && e.key == k
    requires BuildFor(n, k).Some? && BuildFor(n, k).value.version == e.version ==> BuildFor(n, k) == Some(e)
    ensures BuildFor(n.(foreign := Absorb(n, offer, now)), k) == Some(e)
  {
    if k in n.foreign { VersionOrder(e.version, n.foreign[k].version, e.version); }
  }

  /** What a node serves depends only on what it owns and stores. */
  predicate SameRecords(n: Node, m: Node) {
    && n.id == m.id && n.registry == m.registry && n.localVersions == m.localVersions
    && n.tombstones == m.tombstones && n.foreign == m.foreign
  }

  lemma SameRecordsServed(n: Node, m: Node, k: Key)
    requires SameRecords(n, m)
    ensures BuildFor(n, k) == BuildFor(m, k)
  {
  }

  // ---- one step ----

  ghost predicate Ready(w: World) {
    Inv(w) && Unsuppressed(w)
  }

  ghost predicate Kept(w: World, w': World, k: Key, e: Envelope) {
    && Below(w', k, e) && w'.nodes.Keys == w.nodes.Keys
    && (forall i :: Holds(w, i, k, e) ==> Holds(w', i, k, e))
  }

  lemma HeldIsBuilt(w: World, i: NodeId, k: Key)
    requires Inv(w) && i in w.nodes && BuildFor(w.nodes[i], k).Some?
    ensures BuildFor(w.nodes[i], k).value in w.built && BuildFor(w.nodes[i], k).value.key == k
  {
    assert NodeInv(w.nodes[i], w.built);
  }

  lemma OfferIsBelow(n: Node, idx: Index, k: Key, e: Envelope)
    requires OverlayOk(n) && BelowAt(n, k, e)
    ensures OfferBelow(Offer(n, idx), k, e)
  {
  }

  lemma CallerKept(w: World, i: NodeId, j: NodeId, ns: set<string>, k: Key, e: Envelope)
    requires i in w.nodes && j in w.nodes && OverlayOk(w.nodes[i]) && OverlayOk(w.nodes[j])
    requires BelowAt(w.nodes[i], k, e) && BelowAt(w.nodes[j], k, e)
    ensures BelowAt(Caller(w, i, j, ns), k, e)
    ensures BuildFor(w.nodes[i], k) == Some(e) ==> BuildFor(Caller(w, i, j, ns), k) == Some(e)
  {
    OfferIsBelow(w.nodes[j], TheirView(w.nodes[j], i, ns), k, e);
    AbsorbKeepsTop(w.nodes[i], Offer(w.nodes[j], TheirView(w.nodes[j], i, ns)), w.now, k, e);
  }

  lemma CalleeServes(w: World, i: NodeId, j: NodeId, ns: set<string>, k: Key)
    requires i in w.nodes && j in w.nodes
    ensures var o := Absorb(w.nodes[j], Offer(w.nodes[i], OurView(w.nodes[i], ns)), w.now);
            BuildFor(Callee(w, i, j, ns), k) == BuildFor(w.nodes[j].(foreign := o), k)
  {
    var b := w.nodes[j];
    SameRecordsServed(Callee(w, i, j, ns), b.(foreign := Absorb(b, Offer(w.nodes[i], OurView(w.nodes[i], ns)), w.now)),
        k);
  }

  lemma CalleeKept(w: World, i: NodeId, j: NodeId, ns: set<string>, k: Key, e: Envelope)
    requires i in w.nodes && j in w.nodes && OverlayOk(w.nodes[i]) && OverlayOk(w.nodes[j])
    requires BelowAt(w.nodes[i], k, e) && BelowAt(w.nodes[j], k, e)
    ensures BelowAt(Callee(w, i, j, ns), k, e)
    ensures BuildFor(w.nodes[j], k) == Some(e) ==> BuildFor(Callee(w, i, j, ns), k) == Some(e)
  {
    OfferIsBelow(w.nodes[i], OurView(w.nodes[i], ns), k, e);
    AbsorbKeepsTop(w.nodes[j], Offer(w.nodes[i], OurView(w.nodes[i], ns)), w.now, k, e);
    CalleeServes(w, i, j, ns, k);
  }

  lemma TwoKept(w: World, w': World, i: NodeId, j: NodeId, a: Node, b: Node, k: Key, e: Envelope)
    requires Below(w, k, e) && i in w.nodes && j in w.nodes
    requires w'.nodes == w.nodes[i := a][j := b] && w'.net == w.net
    requires i != j && BelowAt(a, k, e) && BelowAt(b, k, e)
    requires BuildFor(w.nodes[i], k) == Some(e) ==> BuildFor(a, k) == Some(e)
    requires BuildFor(w.nodes[j], k) == Some(e) ==> BuildFor(b, k) == Some(e)
    ensures Kept(w, w', k, e)
  {
  }

  lemma MeetKept(w: World, i: NodeId, j: NodeId, ns: set<string>, k: Key, e: Envelope)
    requires Inv(w) && Below(w, k, e) && i in w.nodes && j in w.nodes && i != j
    ensures Kept(w, Meet(w, i, j, ns), k, e)
  {
    IdsMatch(w, i);
    IdsMatch(w, j);
    MeetNodes(w, i, j, ns);
    CallerKept(w, i, j, ns, k, e);
    CalleeKept(w, i, j, ns, k, e);
    TwoKept(w, Meet(w, i, j, ns), i, j, Caller(w, i, j, ns), Callee(w, i, j, ns), k, e);
  }

  lemma Shown(n: Node, from: NodeId, ns: set<string>, k: Key)
    requires OverlayOk(n) && BuildFor(n, k).Some? && k.dataset in ns
    ensures k.dataset in Allowed(n, from, ns) ==> k in Offer(n, TheirView(n, from, ns))
    ensures k in Offer(n, OurView(n, ns))
  {
    VisibleEntry(n, Allowed(n, from, ns), k);
    IndexEntry(n, ns, k);
  }

  lemma SameVersionSame(w: World, i: NodeId, j: NodeId, k: Key, e: Envelope)
    requires Inv(w) && i in w.nodes && Holds(w, j, k, e)
    requires BuildFor(w.nodes[i], k).Some? && BuildFor(w.nodes[i], k).value.version == e.version
    ensures BuildFor(w.nodes[i], k) == Some(e)
  {
    HeldIsBuilt(w, i, k);
    HeldIsBuilt(w, j, k);
  }

  predicate NotAhead(n: Node, k: Key, e: Envelope) {
    && BelowAt(n, k, e)
    && (BuildFor(n, k).Some? && BuildFor(n, k).value.version == e.version ==> BuildFor(n, k) == Some(e))
  }

  lemma NobodyAhead(w: World, i: NodeId, j: NodeId, k: Key, e: Envelope)
    requires Inv(w) && Below(w, k, e) && i in w.nodes && Holds(w, j, k, e)
    ensures NotAhead(w.nodes[i], k, e) && OverlayOk(w.nodes[i]) && OverlayOk(w.nodes[j])
  {
    IdsMatch(w, i);
    IdsMatch(w, j);
    if BuildFor(w.nodes[i], k).Some? && BuildFor(w.nodes[i], k).value.version == e.version {
      SameVersionSame(w, i, j, k, e);
    }
  }

  lemma CallerLearns(w: World, i: NodeId, j: NodeId, ns: set<string>, k: Key, e: Envelope)
    requires Unsuppressed(w) && i in w.nodes && Holds(w, j, k, e) && e.key == k
    requires k.dataset in ns && k.dataset in Allowed(w.nodes[j], i, ns)
    requires NotAhead(w.nodes[i], k, e) && OverlayOk(w.nodes[i]) && OverlayOk(w.nodes[j]) && k.origin != w.nodes[i].id
    ensures BuildFor(Caller(w, i, j, ns), k) == Some(e)
  {
    Shown(w.nodes[j], i, ns, k);
    AbsorbLearns(w.nodes[i], Offer(w.nodes[j], TheirView(w.nodes[j], i, ns)), w.now, k, e);
  }

  lemma CalleeLearns(w: World, i: NodeId, j: NodeId, ns: set<string>, k: Key, e: Envelope)
    requires Unsuppressed(w) && j in w.nodes && Holds(w, i, k, e) && e.key == k && k.dataset in ns
    requires NotAhead(w.nodes[j], k, e) && OverlayOk(w.nodes[i]) && OverlayOk(w.nodes[j]) && k.origin != w.nodes[j].id
    ensures BuildFor(Callee(w, i, j, ns), k) == Some(e)
  {
    Shown(w.nodes[i], j, ns, k);
    AbsorbLearns(w.nodes[j], Offer(w.nodes[i], OurView(w.nodes[i], ns)), w.now, k, e);
    CalleeServes(w, i, j, ns, k);
  }

  predicate WellNamed(w: World, i: NodeId) {
    i in w.nodes && w.nodes[i].id == i && OverlayOk(w.nodes[i])
  }

  lemma MeetTeaches(w: World, i: NodeId, j: NodeId, ns: set<string>, k: Key, e: Envelope)
    requires Unsuppressed(w) && WellNamed(w, i) && WellNamed(w, j) && i != j
    requires k.dataset in ns && k.dataset in Allowed(w.nodes[j], i, ns) && e.key == k
    ensures Holds(w, j, k, e) && k.origin != i && NotAhead(w.nodes[i], k, e) ==> Holds(Meet(w, i, j, ns), i, k, e)
    ensures Holds(w, i, k, e) && k.origin != j && NotAhead(w.nodes[j], k, e) ==> Holds(Meet(w, i, j, ns), j, k, e)
  {
    MeetNodes(w, i, j, ns);
    if Holds(w, j, k, e) && k.origin != i && NotAhead(w.nodes[i], k, e) { CallerLearns(w, i, j, ns, k, e); }
    if Holds(w, i, k, e) && k.origin != j && NotAhead(w.nodes[j], k, e) { CalleeLearns(w, i, j, ns, k, e); }
  }

  /** Meeting a holder of the newest version is enough to hold it, whichever side asked. */
  lemma MeetLearns(w: World, i: NodeId, j: NodeId, ns: set<string>, k: Key, e: Envelope)
    requires Ready(w) && Below(w, k, e) && i in w.nodes && j in w.nodes && i != j
    requires k.dataset in ns && k.dataset in Allowed(w.nodes[j], i, ns)
    ensures Holds(w, j, k, e) && k.origin != i ==> Holds(Meet(w, i, j, ns), i, k, e)
    ensures Holds(w, i, k, e) && k.origin != j ==> Holds(Meet(w, i, j, ns), j, k, e)
  {
    IdsMatch(w, i);
    IdsMatch(w, j);
    if Holds(w, j, k, e) { NobodyAhead(w, i, j, k, e); }
    if Holds(w, i, k, e) { NobodyAhead(w, j, i, k, e); }
    MeetTeaches(w, i, j, ns, k, e);
  }

  /** Replacing nodes by ones that serve the same, and adding messages that carry nothing newer. */
  lemma SilentKept(w: World, w': World, k: Key, e: Envelope)
    requires Below(w, k, e) && w'.nodes.Keys == w.nodes.Keys
    requires forall i | i in w.nodes :: SameRecords(w'.nodes[i], w.nodes[i])
    requires forall m | m in w'.net && m !in w.net && m.env.key == k :: !After(m.env.version, e.version)
    ensures Kept(w, w', k, e)
  {
    forall i | i in w.nodes ensures BuildFor(w'.nodes[i], k) == BuildFor(w.nodes[i], k) {
      SameRecordsServed(w'.nodes[i], w.nodes[i], k);
    }
  }

  predicate Silent(s: Step) {
    || s.StampOne? || s.MintMembership? || s.Observe? || s.SaveState? || s.Hear?
    || s.OpenSession? || s.HoldTick? || s.Forget?
  }

  lemma NobodyStale(cfg: Config, n: Node, now: real)
    requires Stale(cfg, n, now) == {}
    ensures CheckHold(cfg, n, now) == n
  {
  }

  lemma SilentNode(cfg: Config, w: World, s: Step)
    requires Enabled(w, s) && Calm(cfg, w, s) && Silent(s) && s.i in w.nodes && w.nodes[s.i].id == s.i
    ensures Next(cfg, w, s).nodes.Keys == w.nodes.Keys && SameRecords(Next(cfg, w, s).nodes[s.i], w.nodes[s.i])
    ensures Next(cfg, w, s).net == w.net && Next(cfg, w, s).now == w.now
    ensures forall i | i in w.nodes && i != s.i :: Next(cfg, w, s).nodes[i] == w.nodes[i]
  {
    if s.HoldTick? { NobodyStale(cfg, w.nodes[s.i], w.now); }
  }

  lemma SilentStep(cfg: Config, w: World, s: Step, k: Key, e: Envelope)
    requires Inv(w) && Below(w, k, e) && Enabled(w, s) && Calm(cfg, w, s) && Silent(s)
    ensures Kept(w, Next(cfg, w, s), k, e)
  {
    IdsMatch(w, s.i);
    SilentNode(cfg, w, s);
    SilentKept(w, Next(cfg, w, s), k, e);
  }

  lemma DeliverKept(cfg: Config, w: World, m: Msg, k: Key, e: Envelope)
    requires Below(w, k, e) && Enabled(w, Deliver(m)) && WellNamed(w, m.to)
    ensures Kept(w, Next(cfg, w, Deliver(m)), k, e)
  {
    ApplyIsAbsorb(w.nodes[m.to], m.env, w.now);
    AbsorbKeepsTop(w.nodes[m.to], map[m.env.key := m.env], w.now, k, e);
  }

  lemma SentKept(w: World, i: NodeId, to: NodeId, key: Key, k: Key, e: Envelope)
    requires WellNamed(w, i) && Below(w, k, e) && BuildFor(w.nodes[i], key).Some?
    ensures Kept(w, w.(net := w.net + {Msg(to, BuildFor(w.nodes[i], key).value, w.now)}), k, e)
  {
    SilentKept(w, w.(net := w.net + {Msg(to, BuildFor(w.nodes[i], key).value, w.now)}), k, e);
  }

  lemma OpenedKept(w: World, i: NodeId, j: NodeId, ns: set<string>, k: Key, e: Envelope)
    requires WellNamed(w, i) && WellNamed(w, j) && Below(w, k, e) && i != j
    ensures Kept(w, Opened(w, i, j, ns), k, e)
  {
    OpenedNodes(w, i, j, ns);
    SilentKept(w, Opened(w, i, j, ns), k, e);
  }

  lemma StepKept(cfg: Config, w: World, s: Step, k: Key, e: Envelope)
    requires Inv(w) && Below(w, k, e) && Enabled(w, s) && Calm(cfg, w, s)
    ensures Kept(w, Next(cfg, w, s), k, e)
  {
    match s
    case Send(i, to, key) =>
      IdsMatch(w, i);
      SentKept(w, i, to, key, k, e);
    case Deliver(m) =>
      IdsMatch(w, m.to);
      DeliverKept(cfg, w, m, k, e);
    case Reconcile(i, peer) => MeetKept(w, i, peer, w.nodes[i].sessions[peer].namespaces, k, e);
    case Connect(i, peer, offered) =>
      var ns := Accepted(w.nodes[peer], offered);
      IdsMatch(w, i);
      IdsMatch(w, peer);
      OpenedInv(w, i, peer, ns);
      OpenedKept(w, i, peer, ns, k, e);
      MeetKept(Opened(w, i, peer, ns), i, peer, ns, k, e);
    case Advance(t) => SilentKept(w, w.(now := t), k, e);
    case _ => SilentStep(cfg, w, s, k, e);
  }

  // ---- what calm steps leave alone ----

  /** Same records of its own, no new cooldown. */
  predicate Steady(n: Node, m: Node) {
    && m.id == n.id && m.registry == n.registry && m.localVersions == n.localVersions && m.tombstones == n.tombstones
    && (forall o | o in m.evictedUntil :: o in n.evictedUntil && m.evictedUntil[o] == n.evictedUntil[o])
  }

  ghost predicate AllSteady(w: World, w': World) {
    && w'.nodes.Keys == w.nodes.Keys && w'.now >= w.now
    && (forall i | i in w.nodes :: Steady(w.nodes[i], w'.nodes[i]))
  }

  lemma SteadyStays(w: World, w': World)
    requires Unsuppressed(w) && AllSteady(w, w')
    ensures Unsuppressed(w')
  {
    forall i, o | i in w'.nodes && o in w'.nodes[i].evictedUntil ensures w'.now >= w'.nodes[i].evictedUntil[o] {
      assert Steady(w.nodes[i], w'.nodes[i]);
    }
  }

  lemma TwoSteady(w: World, w': World, i: NodeId, j: NodeId, a: Node, b: Node)
    requires i in w.nodes && j in w.nodes && w'.nodes == w.nodes[i := a][j := b] && w'.now == w.now
    requires Steady(w.nodes[i], a) && Steady(w.nodes[j], b)
    ensures AllSteady(w, w')
  {
  }

  lemma MeetSteady(w: World, i: NodeId, j: NodeId, ns: set<string>)
    requires WellNamed(w, i) && WellNamed(w, j) && i != j
    ensures AllSteady(w, Meet(w, i, j, ns))
  {
    MeetNodes(w, i, j, ns);
    TwoSteady(w, Meet(w, i, j, ns), i, j, Caller(w, i, j, ns), Callee(w, i, j, ns));
  }

  lemma OpenedSteady(w: World, i: NodeId, j: NodeId, ns: set<string>)
    requires WellNamed(w, i) && WellNamed(w, j) && i != j
    ensures AllSteady(w, Opened(w, i, j, ns))
  {
    OpenedNodes(w, i, j, ns);
  }

  lemma SilentSteady(cfg: Config, w: World, s: Step)
    requires Enabled(w, s) && Calm(cfg, w, s) && Silent(s) && WellNamed(w, s.i)
    ensures AllSteady(w, Next(cfg, w, s))
  {
    if s.HoldTick? { NobodyStale(cfg, w.nodes[s.i], w.now); }
  }

  /** An OPEN leaves a world ready for the reconcile that follows it. */
  lemma OpenedReady(w: World, i: NodeId, j: NodeId, ns: set<string>)
    requires Ready(w) && i in w.nodes && j in w.nodes && i != j
    ensures Ready(Opened(w, i, j, ns)) && AllSteady(w, Opened(w, i, j, ns))
    ensures WellNamed(w, i) && WellNamed(w, j) && WellNamed(Opened(w, i, j, ns), i) && WellNamed(Opened(w, i, j, ns), j)
  {
    IdsMatch(w, i);
    IdsMatch(w, j);
    OpenedInv(w, i, j, ns);
    OpenedSteady(w, i, j, ns);
    SteadyStays(w, Opened(w, i, j, ns));
    IdsMatch(Opened(w, i, j, ns), i);
    IdsMatch(Opened(w, i, j, ns), j);
  }

  lemma SteadyTwice(w: World, v: World, u: World)
    requires AllSteady(w, v) && AllSteady(v, u)
    ensures AllSteady(w, u)
  {
    forall i | i in w.nodes ensures Steady(w.nodes[i], u.nodes[i]) {
      assert Steady(w.nodes[i], v.nodes[i]);
    }
  }

  lemma ConnectSteady(w: World, i: NodeId, j: NodeId, ns: set<string>)
    requires Ready(w) && i in w.nodes && j in w.nodes && i != j
    ensures i in Opened(w, i, j, ns).nodes && j in Opened(w, i, j, ns).nodes
    ensures AllSteady(w, Meet(Opened(w, i, j, ns), i, j, ns))
  {
    OpenedReady(w, i, j, ns);
    MeetSteady(Opened(w, i, j, ns), i, j, ns);
    SteadyTwice(w, Opened(w, i, j, ns), Meet(Opened(w, i, j, ns), i, j, ns));
  }

  lemma DeliverSteady(cfg: Config, w: World, m: Msg)
    requires Enabled(w, Deliver(m)) && WellNamed(w, m.to)
    ensures AllSteady(w, Next(cfg, w, Deliver(m)))
  {
  }

  lemma MeetStepSteady(cfg: Config, w: World, s: Step)
    requires Ready(w) && Enabled(w, s) && (s.Reconcile? || s.Connect?)
    ensures AllSteady(w, Next(cfg, w, s))
  {
    match s
    case Reconcile(i, peer) =>
      IdsMatch(w, i);
      IdsMatch(w, peer);
      MeetSteady(w, i, peer, w.nodes[i].sessions[peer].namespaces);
    case Connect(i, peer, offered) => ConnectSteady(w, i, peer, Accepted(w.nodes[peer], offered));
  }

  lemma StepSteady(cfg: Config, w: World, s: Step)
    requires Ready(w) && Enabled(w, s) && Calm(cfg, w, s)
    ensures AllSteady(w, Next(cfg, w, s))
  {
    if Silent(s) {
      IdsMatch(w, s.i);
      SilentSteady(cfg, w, s);
    } else if s.Deliver? {
      IdsMatch(w, s.m.to);
      DeliverSteady(cfg, w, s.m);
    } else if s.Reconcile? || s.Connect? {
      MeetStepSteady(cfg, w, s);
    }
  }

  // ---- whole runs ----

  lemma {:induction false} RunReady(cfg: Config, w: World, run: seq<Step>)
    requires Ready(w) && Valid(cfg, w, run) && CalmRun(cfg, w, run)
    ensures Ready(Exec(cfg, w, run)) && AllSteady(w, Exec(cfg, w, run))
    decreases |run|
  {
    if run != [] {
      var v := Exec(cfg, w, Front(run));
      RunReady(cfg, w, Front(run));
      StepInv(cfg, v, Last(run));
      StepSteady(cfg, v, Last(run));
      SteadyStays(v, Exec(cfg, w, run));
      SteadyTwice(w, v, Exec(cfg, w, run));
    }
  }

  lemma {:induction false} RunKept(cfg: Config, w: World, run: seq<Step>, k: Key, e: Envelope)
    requires Ready(w) && Valid(cfg, w, run) && CalmRun(cfg, w, run) && Below(w, k, e)
    ensures Kept(w, Exec(cfg, w, run), k, e)
    decreases |run|
  {
    if run != [] {
      var v := Exec(cfg, w, Front(run));
      RunReady(cfg, w, Front(run));
      RunKept(cfg, w, Front(run), k, e);
      StepKept(cfg, v, Last(run), k, e);
    }
  }

  // ---- reconciles call by call ----

  /** One step of a run, and the worlds before and after it. */
  lemma AtStep(cfg: Config, w: World, run: seq<Step>, t: nat)
    requires Valid(cfg, w, run) && CalmRun(cfg, w, run) && t < |run|
    ensures var v := At(cfg, w, run, t);
            Enabled(v, run[t]) && Calm(cfg, v, run[t]) && At(cfg, w, run, t + 1) == Next(cfg, v, run[t])
    decreases |run|
  {
    ValidPrefix(cfg, w, run, t);
    if t == |run| - 1 {
      assert run[..t] == Front(run) && run[..t + 1] == run;
    } else {
      AtStep(cfg, w, Front(run), t);
      assert Front(run)[..t] == run[..t] && Front(run)[..t + 1] == run[..t + 1] && Front(run)[t] == run[t];
    }
  }

  lemma {:induction false} AtKept(cfg: Config, w: World, run: seq<Step>, t: nat, k: Key, e: Envelope)
    requires Ready(w) && Valid(cfg, w, run) && CalmRun(cfg, w, run) && Below(w, k, e) && t <= |run|
    ensures Ready(At(cfg, w, run, t)) && Below(At(cfg, w, run, t), k, e)
    ensures At(cfg, w, run, t).nodes.Keys == w.nodes.Keys
    decreases t
  {
    if t == 0 {
      assert run[..0] == [];
    } else {
      var v := At(cfg, w, run, t - 1);
      AtKept(cfg, w, run, t - 1, k, e);
      AtStep(cfg, w, run, t - 1);
      StepInv(cfg, v, run[t - 1]);
      StepSteady(cfg, v, run[t - 1]);
      SteadyStays(v, At(cfg, w, run, t));
      StepKept(cfg, v, run[t - 1], k, e);
    }
  }

  lemma AtStepKept(cfg: Config, w: World, run: seq<Step>, t: nat, k: Key, e: Envelope)
    requires Ready(w) && Valid(cfg, w, run) && CalmRun(cfg, w, run) && Below(w, k, e) && t < |run|
    ensures forall i | Holds(At(cfg, w, run, t), i, k, e) :: Holds(At(cfg, w, run, t + 1), i, k, e)
  {
    AtKept(cfg, w, run, t, k, e);
    AtStep(cfg, w, run, t);
    StepKept(cfg, At(cfg, w, run, t), run[t], k, e);
  }

  /** A holder stays one. */
  lemma {:induction false} HeldFrom(
      cfg: Config, w: World, run: seq<Step>, t: nat, u: nat, i: NodeId, k: Key, e: Envelope)
    requires Ready(w) && Valid(cfg, w, run) && CalmRun(cfg, w, run) && Below(w, k, e) && t <= u <= |run|
    requires Holds(At(cfg, w, run, t), i, k, e)
    ensures Holds(At(cfg, w, run, u), i, k, e)
    decreases u
  {
    if t < u {
      HeldFrom(cfg, w, run, t, u - 1, i, k, e);
      AtStepKept(cfg, w, run, u - 1, k, e);
    }
  }

  lemma DeliverLearns(cfg: Config, v: World, m: Msg, i: NodeId, k: Key, e: Envelope)
    requires Ready(v) && Below(v, k, e) && Enabled(v, Deliver(m)) && m.env == e && k.origin != m.to && Holds(v, i, k, e)
    ensures Holds(Next(cfg, v, Deliver(m)), m.to, k, e)
  {
    NobodyAhead(v, m.to, i, k, e);
    IdsMatch(v, m.to);
    ApplyIsAbsorb(v.nodes[m.to], e, v.now);
    AbsorbLearns(v.nodes[m.to], map[e.key := e], v.now, k, e);
  }

  /** What is handed on by a holder is held. */
  lemma HandedLearns(cfg: Config, w: World, run: seq<Step>, t: nat, from: NodeId, to: NodeId, k: Key, e: Envelope)
    requires Ready(w) && Valid(cfg, w, run) && CalmRun(cfg, w, run) && Below(w, k, e) && t <= |run|
    requires Holds(At(cfg, w, run, t), from, k, e) && k.origin != to && Handed(cfg, w, run, t, from, to, k)
    ensures Holds(Exec(cfg, w, run), to, k, e)
  {
    var s, u :| t <= s <= u < |run| && HandedAt(cfg, w, run, s, u, from, to, k);
    HeldFrom(cfg, w, run, t, s, from, k, e);
    HandedOver(cfg, w, run, s, u, from, to, k, e);
  }

  lemma HandedOver(cfg: Config, w: World, run: seq<Step>, s: nat, u: nat, from: NodeId, to: NodeId, k: Key, e: Envelope)
    requires Ready(w) && Valid(cfg, w, run) && CalmRun(cfg, w, run) && Below(w, k, e) && s <= u < |run|
    requires Holds(At(cfg, w, run, s), from, k, e) && k.origin != to && HandedAt(cfg, w, run, s, u, from, to, k)
    ensures Holds(Exec(cfg, w, run), to, k, e)
  {
    HeldFrom(cfg, w, run, s, u, from, k, e);
    ArrivalLearns(cfg, w, run, u, from, k, e);
    HeldToTheEnd(cfg, w, run, u + 1, to, k, e);
  }

  lemma ArrivalLearns(cfg: Config, w: World, run: seq<Step>, u: nat, i: NodeId, k: Key, e: Envelope)
    requires Ready(w) && Valid(cfg, w, run) && CalmRun(cfg, w, run) && Below(w, k, e) && u < |run| && run[u].Deliver?
    requires Holds(At(cfg, w, run, u), i, k, e) && run[u].m.env == e && k.origin != run[u].m.to
    ensures Holds(At(cfg, w, run, u + 1), run[u].m.to, k, e)
  {
    AtKept(cfg, w, run, u, k, e);
    AtStep(cfg, w, run, u);
    DeliverLearns(cfg, At(cfg, w, run, u), run[u].m, i, k, e);
  }

  /** What an index says about a record nobody has a newer version of. */
  lemma ViewEntry(w: World, i: NodeId, ns: set<string>, k: Key, e: Envelope)
    requires Inv(w) && i in w.nodes && k.dataset in ns
    ensures Holds(w, i, k, e) ==> k in ViewOf(w, i, ns) && ViewOf(w, i, ns)[k] == e.version
    ensures Below(w, k, e) && (exists j :: Holds(w, j, k, e)) && !Holds(w, i, k, e) ==>
              Newer(e.version, Get(ViewOf(w, i, ns), k))
  {
    IdsMatch(w, i);
    IndexEntry(w.nodes[i], ns, k);
    if Below(w, k, e) && (exists j :: Holds(w, j, k, e)) && !Holds(w, i, k, e) { BehindIsOlder(w, i, k, e); }
  }

  lemma BehindIsOlder(w: World, i: NodeId, k: Key, e: Envelope)
    requires Inv(w) && i in w.nodes && Below(w, k, e) && (exists j :: Holds(w, j, k, e)) && !Holds(w, i, k, e)
    ensures BuildFor(w.nodes[i], k).Some? ==> After(e.version, BuildFor(w.nodes[i], k).value.version)
  {
    var j :| Holds(w, j, k, e);
    NobodyAhead(w, i, j, k, e);
    if BuildFor(w.nodes[i], k).Some? { VersionOrder(e.version, BuildFor(w.nodes[i], k).value.version, e.version); }
  }

  lemma ShownEntry(w: World, j: NodeId, from: NodeId, ns: set<string>, k: Key, e: Envelope)
    requires Inv(w) && j in w.nodes && k.dataset in Allowed(w.nodes[j], from, ns)
    ensures Holds(w, j, k, e) ==> k in ShownBy(w, j, from, ns) && ShownBy(w, j, from, ns)[k] == e.version
    ensures Below(w, k, e) && (exists i :: Holds(w, i, k, e)) && !Holds(w, j, k, e) ==>
              Newer(e.version, Get(ShownBy(w, j, from, ns), k))
  {
    IdsMatch(w, j);
    VisibleEntry(w.nodes[j], Allowed(w.nodes[j], from, ns), k);
    if Below(w, k, e) && (exists i :: Holds(w, i, k, e)) && !Holds(w, j, k, e) { BehindIsOlder(w, j, k, e); }
  }

  /** Who holds the newest version keeps it through the talk. */
  lemma HeldThroughout(cfg: Config, w: World, run: seq<Step>, a: Talk, i: NodeId, k: Key, e: Envelope)
    requires Ready(w) && Valid(cfg, w, run) && CalmRun(cfg, w, run) && Below(w, k, e) && InOrder(run, a)
    requires Holds(w, i, k, e)
    ensures Holds(At(cfg, w, run, a.own), i, k, e) && Holds(At(cfg, w, run, a.hashes), i, k, e)
    ensures Holds(At(cfg, w, run, a.rows), i, k, e)
  {
    assert run[..0] == [];
    HeldFrom(cfg, w, run, 0, a.own, i, k, e);
    HeldFrom(cfg, w, run, a.own, a.hashes, i, k, e);
    HeldFrom(cfg, w, run, a.hashes, a.rows, i, k, e);
  }

  lemma OwnEntry(cfg: Config, w: World, run: seq<Step>, a: Talk, k: Key, e: Envelope)
    requires Ready(w) && Valid(cfg, w, run) && CalmRun(cfg, w, run) && Below(w, k, e) && InOrder(run, a)
    requires a.i in w.nodes && k.dataset in a.namespaces
    ensures var v, x := At(cfg, w, run, a.own), OwnRows(cfg, w, run, a);
            && (Holds(v, a.i, k, e) ==> k in x && x[k] == e.version)
            && ((exists j :: Holds(v, j, k, e)) && !Holds(v, a.i, k, e) ==> Newer(e.version, Get(x, k)))
  {
    AtKept(cfg, w, run, a.own, k, e);
    ViewEntry(At(cfg, w, run, a.own), a.i, a.namespaces, k, e);
  }

  lemma ShownAt(cfg: Config, w: World, run: seq<Step>, a: Talk, t: nat, k: Key, e: Envelope)
    requires Ready(w) && Valid(cfg, w, run) && CalmRun(cfg, w, run) && Below(w, k, e) && t <= |run|
    requires Shows(At(cfg, w, run, t), a, {k.dataset})
    ensures var v := At(cfg, w, run, t);
            var y := ShownBy(v, a.j, a.i, a.namespaces);
            && (Holds(v, a.j, k, e) ==> k in y && y[k] == e.version)
            && ((exists i :: Holds(v, i, k, e)) && !Holds(v, a.j, k, e) ==> Newer(e.version, Get(y, k)))
  {
    AtKept(cfg, w, run, t, k, e);
    assert k.dataset in {k.dataset};
    ShownEntry(At(cfg, w, run, t), a.j, a.i, a.namespaces, k, e);
  }

  /** What the talk compares when the callee alone holds the newest version, */
  lemma CalleeNewer(cfg: Config, w: World, run: seq<Step>, a: Talk, k: Key, e: Envelope)
    requires Ready(w) && Valid(cfg, w, run) && CalmRun(cfg, w, run) && Below(w, k, e) && InOrder(run, a)
    requires a.i in w.nodes && k.dataset in a.namespaces
    requires Shows(At(cfg, w, run, a.hashes), a, {k.dataset}) && Shows(At(cfg, w, run, a.rows), a, {k.dataset})
    requires Holds(At(cfg, w, run, a.own), a.j, k, e) && Holds(At(cfg, w, run, a.hashes), a.j, k, e)
    requires Holds(At(cfg, w, run, a.rows), a.j, k, e) && !Holds(At(cfg, w, run, a.own), a.i, k, e)
    ensures var x, y, z := OwnRows(cfg, w, run, a), HashedRows(cfg, w, run, a), ReadRows(cfg, w, run, a);
            k in y && k in z && y[k] == z[k] && Newer(y[k], Get(x, k))
  {
    OwnEntry(cfg, w, run, a, k, e);
    ShownAt(cfg, w, run, a, a.hashes, k, e);
    ShownAt(cfg, w, run, a, a.rows, k, e);
  }

  /** and when the caller alone does. */
  lemma CallerNewer(cfg: Config, w: World, run: seq<Step>, a: Talk, k: Key, e: Envelope)
    requires Ready(w) && Valid(cfg, w, run) && CalmRun(cfg, w, run) && Below(w, k, e) && InOrder(run, a)
    requires a.i in w.nodes && k.dataset in a.namespaces
    requires Shows(At(cfg, w, run, a.hashes), a, {k.dataset}) && Shows(At(cfg, w, run, a.rows), a, {k.dataset})
    requires Holds(At(cfg, w, run, a.own), a.i, k, e) && Holds(At(cfg, w, run, a.hashes), a.i, k, e)
    requires Holds(At(cfg, w, run, a.rows), a.i, k, e)
    requires !Holds(At(cfg, w, run, a.hashes), a.j, k, e) && !Holds(At(cfg, w, run, a.rows), a.j, k, e)
    ensures var x, y, z := OwnRows(cfg, w, run, a), HashedRows(cfg, w, run, a), ReadRows(cfg, w, run, a);
            k in x && Newer(x[k], Get(y, k)) && Newer(x[k], Get(z, k))
  {
    OwnEntry(cfg, w, run, a, k, e);
    ShownAt(cfg, w, run, a, a.hashes, k, e);
    ShownAt(cfg, w, run, a, a.rows, k, e);
  }

  /** What the hashes and rows then select. */
  lemma PullSelected(cfg: Config, w: World, run: seq<Step>, a: Talk, d: set<string>, k: Key)
    requires Valid(cfg, w, run) && Compares(cfg, w, run, a, d)
    requires var x, y, z := OwnRows(cfg, w, run, a), HashedRows(cfg, w, run, a), ReadRows(cfg, w, run, a);
             k in y && k in z && y[k] == z[k] && Newer(y[k], Get(x, k))
    ensures k in ToPull(cfg, w, run, a)
  {
    PullCovers(a.sha, OwnRows(cfg, w, run, a), a.ours, HashedRows(cfg, w, run, a), a.theirs, ReadRows(cfg, w, run, a),
        k);
  }

  lemma PushSelected(cfg: Config, w: World, run: seq<Step>, a: Talk, d: set<string>, k: Key)
    requires Valid(cfg, w, run) && Compares(cfg, w, run, a, d)
    requires var x, y, z := OwnRows(cfg, w, run, a), HashedRows(cfg, w, run, a), ReadRows(cfg, w, run, a);
             k in x && Newer(x[k], Get(y, k)) && Newer(x[k], Get(z, k))
    ensures k in ToPush(cfg, w, run, a)
  {
    PushCovers(a.sha, OwnRows(cfg, w, run, a), a.ours, HashedRows(cfg, w, run, a), a.theirs, ReadRows(cfg, w, run, a),
        k);
  }

  lemma Covered(cfg: Config, w: World, run: seq<Step>, a: Talk, d: set<string>, k: Key)
    requires Valid(cfg, w, run) && Compares(cfg, w, run, a, d) && k.dataset in d
    ensures k.dataset in a.namespaces
    ensures Shows(At(cfg, w, run, a.hashes), a, {k.dataset}) && Shows(At(cfg, w, run, a.rows), a, {k.dataset})
  {
  }

  /** So the caller pulls what the callee alone holds, */
  lemma NewestIsPulled(cfg: Config, w: World, run: seq<Step>, a: Talk, d: set<string>, k: Key, e: Envelope)
    requires Ready(w) && Valid(cfg, w, run) && CalmRun(cfg, w, run) && Below(w, k, e) && k.dataset in d
    requires Compares(cfg, w, run, a, d) && a.i in w.nodes
    requires Holds(At(cfg, w, run, a.own), a.j, k, e) && Holds(At(cfg, w, run, a.hashes), a.j, k, e)
    requires Holds(At(cfg, w, run, a.rows), a.j, k, e) && !Holds(At(cfg, w, run, a.own), a.i, k, e)
    ensures k in ToPull(cfg, w, run, a)
  {
    Covered(cfg, w, run, a, d, k);
    CalleeNewer(cfg, w, run, a, k, e);
    PullSelected(cfg, w, run, a, d, k);
  }

  /** and pushes what it alone holds. */
  lemma NewestIsPushed(cfg: Config, w: World, run: seq<Step>, a: Talk, d: set<string>, k: Key, e: Envelope)
    requires Ready(w) && Valid(cfg, w, run) && CalmRun(cfg, w, run) && Below(w, k, e) && k.dataset in d
    requires Compares(cfg, w, run, a, d) && a.i in w.nodes
    requires Holds(At(cfg, w, run, a.own), a.i, k, e) && Holds(At(cfg, w, run, a.hashes), a.i, k, e)
    requires Holds(At(cfg, w, run, a.rows), a.i, k, e)
    requires !Holds(At(cfg, w, run, a.hashes), a.j, k, e) && !Holds(At(cfg, w, run, a.rows), a.j, k, e)
    ensures k in ToPush(cfg, w, run, a)
  {
    Covered(cfg, w, run, a, d, k);
    CallerNewer(cfg, w, run, a, k, e);
    PushSelected(cfg, w, run, a, d, k);
  }

  /** The caller learns what the callee held when the talk began, */
  lemma CallerIsTold(cfg: Config, w: World, run: seq<Step>, a: Talk, d: set<string>, k: Key, e: Envelope)
    requires Ready(w) && Valid(cfg, w, run) && CalmRun(cfg, w, run) && Below(w, k, e) && k.dataset in d
    requires Talks(cfg, w, run, a, d) && Holds(w, a.j, k, e) && a.i in w.nodes && k.origin != a.i
    ensures Holds(Exec(cfg, w, run), a.i, k, e)
  {
    HeldThroughout(cfg, w, run, a, a.j, k, e);
    if Holds(At(cfg, w, run, a.own), a.i, k, e) {
      HeldToTheEnd(cfg, w, run, a.own, a.i, k, e);
    } else {
      NewestIsPulled(cfg, w, run, a, d, k, e);
      HandedLearns(cfg, w, run, a.rows, a.j, a.i, k, e);
    }
  }

  lemma HeldToTheEnd(cfg: Config, w: World, run: seq<Step>, t: nat, i: NodeId, k: Key, e: Envelope)
    requires Ready(w) && Valid(cfg, w, run) && CalmRun(cfg, w, run) && Below(w, k, e) && t <= |run|
    requires Holds(At(cfg, w, run, t), i, k, e)
    ensures Holds(Exec(cfg, w, run), i, k, e)
  {
    HeldFrom(cfg, w, run, t, |run|, i, k, e);
    assert run[..|run|] == run;
  }

  /** and the callee what the caller held. */
  lemma CalleeIsTold(cfg: Config, w: World, run: seq<Step>, a: Talk, d: set<string>, k: Key, e: Envelope)
    requires Ready(w) && Valid(cfg, w, run) && CalmRun(cfg, w, run) && Below(w, k, e) && k.dataset in d
    requires Talks(cfg, w, run, a, d) && Holds(w, a.i, k, e) && a.j in w.nodes && k.origin != a.j
    ensures Holds(Exec(cfg, w, run), a.j, k, e)
  {
    HeldThroughout(cfg, w, run, a, a.i, k, e);
    if Holds(At(cfg, w, run, a.hashes), a.j, k, e) {
      HeldToTheEnd(cfg, w, run, a.hashes, a.j, k, e);
    } else if Holds(At(cfg, w, run, a.rows), a.j, k, e) {
      HeldToTheEnd(cfg, w, run, a.rows, a.j, k, e);
    } else {
      NewestIsPushed(cfg, w, run, a, d, k, e);
      HandedLearns(cfg, w, run, a.rows, a.i, a.j, k, e);
    }
  }

  // ---- reconciles in one instant ----

  lemma ConnectLearns(w: World, i: NodeId, j: NodeId, ns: set<string>, k: Key, e: Envelope)
    requires Ready(w) && Below(w, k, e) && i in w.nodes && j in w.nodes && i != j && k.dataset in ns
    ensures i in Opened(w, i, j, ns).nodes && j in Opened(w, i, j, ns).nodes
    ensures Holds(w, j, k, e) && k.origin != i ==> Holds(Meet(Opened(w, i, j, ns), i, j, ns), i, k, e)
    ensures Holds(w, i, k, e) && k.origin != j ==> Holds(Meet(Opened(w, i, j, ns), i, j, ns), j, k, e)
  {
    OpenedReady(w, i, j, ns);
    OpenedKept(w, i, j, ns, k, e);
    OpenedNodes(w, i, j, ns);
    OpenAllows(w.nodes[j], i, ns, w.now);
    MeetLearns(Opened(w, i, j, ns), i, j, ns, k, e);
  }

  lemma StepLearns(cfg: Config, w: World, d: set<string>, s: Step, i: NodeId, j: NodeId, k: Key, e: Envelope)
    requires Ready(w) && Below(w, k, e) && Enabled(w, s) && k.dataset in d
    requires Meets(w, s, i, j, d) && Holds(w, j, k, e) && k.origin != i
    ensures Holds(Next(cfg, w, s), i, k, e)
  {
    match s
    case Reconcile(a, b) => MeetLearns(w, a, b, w.nodes[a].sessions[b].namespaces, k, e);
    case Connect(a, b, offered) => ConnectLearns(w, a, b, Accepted(w.nodes[b], offered), k, e);
  }

  lemma {:induction false} RunLearns(
      cfg: Config, w: World, d: set<string>, run: seq<Step>, i: NodeId, j: NodeId, t: nat, k: Key, e: Envelope)
    requires Ready(w) && Valid(cfg, w, run) && CalmRun(cfg, w, run) && Below(w, k, e) && k.dataset in d
    requires t < |run| && MeetsAt(cfg, w, run, t, i, j, d) && Holds(w, j, k, e) && k.origin != i
    ensures Holds(Exec(cfg, w, run), i, k, e)
    decreases |run|
  {
    var v := Exec(cfg, w, Front(run));
    RunReady(cfg, w, Front(run));
    RunKept(cfg, w, Front(run), k, e);
    MeetsInFront(cfg, w, run, t, i, j, d);
    if t == |run| - 1 {
      StepLearns(cfg, v, d, Last(run), i, j, k, e);
    } else {
      RunLearns(cfg, w, d, Front(run), i, j, t, k, e);
      StepKept(cfg, v, Last(run), k, e);
    }
  }

  lemma MeetsInFront(cfg: Config, w: World, run: seq<Step>, t: nat, i: NodeId, j: NodeId, d: set<string>)
    requires Valid(cfg, w, run) && t < |run| && MeetsAt(cfg, w, run, t, i, j, d)
    ensures t == |run| - 1 ==> Meets(Exec(cfg, w, Front(run)), Last(run), i, j, d)
    ensures t < |run| - 1 ==> MeetsAt(cfg, w, Front(run), t, i, j, d)
  {
    if t == |run| - 1 {
      assert run[..t] == Front(run);
    } else {
      assert run[..t] == Front(run)[..t] && Front(run)[t] == run[t];
    }
  }

  /** An origin that still owns the record holds the newest version of it. */
  lemma OriginHoldsTop(w: World, j: NodeId, k: Key, e: Envelope)
    requires Inv(w) && Below(w, k, e) && Holds(w, j, k, e) && k.origin in w.nodes
    requires OwnsRecord(w.nodes[k.origin], LocalOf(k))
    ensures Holds(w, k.origin, k, e)
  {
    HeldIsBuilt(w, j, k);
    var n := w.nodes[k.origin];
    OwnNotOlder(w, e);
    assert BuildFor(n, k).value.version == OwnVersion(n, LocalOf(k));
    SameVersionSame(w, k.origin, j, k, e);
  }

  lemma OwnNotOlder(w: World, e: Envelope)
    requires Inv(w) && e in w.built && e.key.origin in w.nodes && OwnsRecord(w.nodes[e.key.origin], LocalOf(e.key))
    ensures var v := OwnVersion(w.nodes[e.key.origin], LocalOf(e.key)); v == e.version || After(v, e.version)
  {
    assert NodeInv(w.nodes[e.key.origin], w.built);
  }

  /** Convergence, record by record: the newest envelope of `k` anywhere in the cluster ends up on
      every node that can show the record at all, that is on all but an origin that no longer
      owns it. */
  lemma Converges(cfg: Config, w: World, d: set<string>, run: seq<Step>, k: Key, e: Envelope)
    requires Ready(w) && Valid(cfg, w, run) && CalmRun(cfg, w, run) && EveryPairMeets(cfg, w, run, d)
    requires Top(w, k, e) && k.dataset in d
    ensures var u := Exec(cfg, w, run);
            && Top(u, k, e) && u.nodes.Keys == w.nodes.Keys
            && (forall i | i in u.nodes && (i == k.origin ==> OwnsRecord(u.nodes[i], LocalOf(k))) :: Holds(u, i, k, e))
  {
    var u := Exec(cfg, w, run);
    RunReady(cfg, w, run);
    RunKept(cfg, w, run, k, e);
    var j :| Holds(w, j, k, e);
    assert Holds(u, j, k, e);
    forall i | i in u.nodes && (i == k.origin ==> OwnsRecord(u.nodes[i], LocalOf(k))) ensures Holds(u, i, k, e) {
      if i == k.origin {
        OriginHoldsTop(u, j, k, e);
      } else if i != j {
        PairLearns(cfg, w, d, run, i, j, k, e);
      }
    }
  }

  /** However two nodes reconcile, one ends up with what the other held. */
  lemma PairLearns(cfg: Config, w: World, d: set<string>, run: seq<Step>, i: NodeId, j: NodeId, k: Key, e: Envelope)
    requires Ready(w) && Valid(cfg, w, run) && CalmRun(cfg, w, run) && EveryPairMeets(cfg, w, run, d)
    requires Below(w, k, e) && k.dataset in d && i in w.nodes && j in w.nodes && i != j
    requires Holds(w, j, k, e) && k.origin != i
    ensures Holds(Exec(cfg, w, run), i, k, e)
  {
    if t :| 0 <= t < |run| && MeetsAt(cfg, w, run, t, i, j, d) {
      RunLearns(cfg, w, d, run, i, j, t, k, e);
    } else {
      var a :| TalksBetween(cfg, w, run, a, i, j, d);
      if a.i == i { CallerIsTold(cfg, w, run, a, d, k, e); } else { CalleeIsTold(cfg, w, run, a, d, k, e); }
    }
  }

  // ---- all indexes equal the union of the origins' own ----

  /** The origins' own indexes, put together. */
  function Union(w: World, ns: set<string>): Index {
    map i, k | i in w.nodes && k in LocalIndex(w.nodes[i], ns) && k.origin == i :: k := LocalIndex(w.nodes[i], ns)[k]
  }

  lemma UnionEntry(w: World, ns: set<string>, k: Key)
    requires forall i | i in w.nodes :: w.nodes[i].id == i
    ensures k in Union(w, ns) <==>
              InScope(ns, k.dataset) && k.origin in w.nodes && OwnsRecord(w.nodes[k.origin], LocalOf(k))
    ensures k in Union(w, ns) ==> Union(w, ns)[k] == OwnVersion(w.nodes[k.origin], LocalOf(k))
  {
    if k.origin in w.nodes { OwnKeysExact(w.nodes[k.origin], k); }
  }

  /** Every replica is of a record its origin still owns, live or as a tombstone. */
  ghost predicate Backed(w: World) {
    forall i, k | i in w.nodes && k in w.nodes[i].foreign ::
      k.origin in w.nodes && OwnsRecord(w.nodes[k.origin], LocalOf(k))
  }

  /** Nothing in flight is newer than what somebody holds. */
  ghost predicate NothingNewInFlight(w: World) {
    forall m | m in w.net :: exists i :: i in w.nodes && HoldsNotOlder(w.nodes[i], m.env)
  }

  predicate HoldsNotOlder(n: Node, e: Envelope) {
    BuildFor(n, e.key).Some? && !After(e.version, BuildFor(n, e.key).value.version)
  }

  /** All records are in the datasets `d`. */
  ghost predicate Within(w: World, d: set<string>) {
    forall i, k | i in w.nodes && BuildFor(w.nodes[i], k).Some? :: k.dataset in d
  }

  lemma {:induction false} NewestAmong(w: World, k: Key, ids: set<NodeId>) returns (top: NodeId)
    requires ids <= w.nodes.Keys && exists i :: i in ids && BuildFor(w.nodes[i], k).Some?
    ensures top in ids && BuildFor(w.nodes[top], k).Some?
    ensures forall i | i in ids :: BelowAt(w.nodes[i], k, BuildFor(w.nodes[top], k).value)
    decreases |ids|
  {
    top :| top in ids && BuildFor(w.nodes[top], k).Some?;
    var rest := ids - {top};
    var v := BuildFor(w.nodes[top], k).value.version;
    VersionOrder(v, v, v);
    if i :| i in rest && BuildFor(w.nodes[i], k).Some? {
      var other := NewestAmong(w, k, rest);
      var u := BuildFor(w.nodes[other], k).value.version;
      VersionOrder(v, u, v);
      if After(v, u) {
        forall l | l in ids ensures BelowAt(w.nodes[l], k, BuildFor(w.nodes[top], k).value) {
          if l != top && BuildFor(w.nodes[l], k).Some? { VersionOrder(BuildFor(w.nodes[l], k).value.version, v, u); }
        }
      } else {
        top := other;
      }
    }
  }

  /** Every record somebody holds has a newest envelope. */
  lemma TopExists(w: World, j: NodeId, k: Key) returns (e: Envelope)
    requires Inv(w) && NothingNewInFlight(w) && j in w.nodes && BuildFor(w.nodes[j], k).Some?
    ensures Top(w, k, e)
  {
    var top := NewestAmong(w, k, w.nodes.Keys);
    e := BuildFor(w.nodes[top], k).value;
    HeldIsBuilt(w, top, k);
    forall m | m in w.net && m.env.key == k ensures !After(m.env.version, e.version) {
      var i :| i in w.nodes && HoldsNotOlder(w.nodes[i], m.env);
      assert BelowAt(w.nodes[i], k, e);
      var v := BuildFor(w.nodes[i], k).value.version;
      VersionOrder(m.env.version, e.version, v);
      VersionOrder(v, e.version, e.version);
      VersionOrder(e.version, m.env.version, v);
    }
    assert Holds(w, top, k, e);
  }

  /** A held record whose origin owns it is held in its own version in the end. */
  lemma ConvergesToOwn(cfg: Config, w: World, d: set<string>, run: seq<Step>, i: NodeId, k: Key)
    requires Ready(w) && Valid(cfg, w, run) && CalmRun(cfg, w, run) && EveryPairMeets(cfg, w, run, d)
    requires NothingNewInFlight(w) && Within(w, d)
    requires i in w.nodes && k.origin in w.nodes && OwnsRecord(w.nodes[k.origin], LocalOf(k))
    ensures i in Exec(cfg, w, run).nodes
    ensures BuildFor(Exec(cfg, w, run).nodes[i], k) == BuildLocal(w.nodes[k.origin], LocalOf(k)) != None
  {
    var u := Exec(cfg, w, run);
    var o := k.origin;
    IdsMatch(w, o);
    assert BuildFor(w.nodes[o], k).Some?;
    var e := TopExists(w, o, k);
    Converges(cfg, w, d, run, k, e);
    RunReady(cfg, w, run);
    assert Steady(w.nodes[o], u.nodes[o]);
    assert Holds(u, o, k, e) && Holds(u, i, k, e);
    IdsMatch(u, o);
  }

  /** Nothing appears that nobody held before: otherwise an envelope older than it would be one that
      nobody is ahead of at the start, but somebody is in the end. */
  lemma NothingFromNowhere(cfg: Config, w: World, run: seq<Step>, k: Key, i: NodeId)
    requires Ready(w) && Valid(cfg, w, run) && CalmRun(cfg, w, run)
    requires NothingNewInFlight(w) && forall j | j in w.nodes :: BuildFor(w.nodes[j], k).None?
    requires i in Exec(cfg, w, run).nodes
    ensures BuildFor(Exec(cfg, w, run).nodes[i], k).None?
  {
    var u := Exec(cfg, w, run);
    if BuildFor(u.nodes[i], k).Some? {
      forall m | m in w.net ensures m.env.key != k {
        var j :| j in w.nodes && HoldsNotOlder(w.nodes[j], m.env);
      }
      var v := BuildFor(u.nodes[i], k).value.version;
      var older := Envelope(k, Version(v.ms - 1, v.node), true, None);
      NewerIsNotBelow(u, i, k, older);
      RunKept(cfg, w, run, k, older);
    }
  }

  lemma NewerIsNotBelow(u: World, i: NodeId, k: Key, e: Envelope)
    requires i in u.nodes && BuildFor(u.nodes[i], k).Some? && BuildFor(u.nodes[i], k).value.version.ms > e.version.ms
    ensures !Below(u, k, e)
  {
    assert !BelowAt(u.nodes[i], k, e);
  }

  lemma NobodyHolds(w: World, k: Key)
    requires Inv(w) && Backed(w) && !(k.origin in w.nodes && OwnsRecord(w.nodes[k.origin], LocalOf(k)))
    ensures forall j | j in w.nodes :: BuildFor(w.nodes[j], k).None?
  {
    forall j | j in w.nodes ensures BuildFor(w.nodes[j], k).None? {
      IdsMatch(w, j);
    }
  }

  function ServedByOrigin(w: World, k: Key): Option<Envelope> {
    if k.origin in w.nodes then BuildLocal(w.nodes[k.origin], LocalOf(k)) else None
  }

  /** After a calm run in which every two nodes meet, a cluster whose replicas are all backed serves
      the same envelope for every record on every node: its origin's. */
  lemma AllServeTheSame(cfg: Config, w: World, d: set<string>, run: seq<Step>, i: NodeId, k: Key)
    requires Ready(w) && Valid(cfg, w, run) && CalmRun(cfg, w, run) && EveryPairMeets(cfg, w, run, d)
    requires NothingNewInFlight(w) && Within(w, d) && Backed(w) && i in Exec(cfg, w, run).nodes
    ensures BuildFor(Exec(cfg, w, run).nodes[i], k) == ServedByOrigin(w, k)
  {
    RunReady(cfg, w, run);
    if k.origin in w.nodes && OwnsRecord(w.nodes[k.origin], LocalOf(k)) {
      ConvergesToOwn(cfg, w, d, run, i, k);
    } else {
      NobodyHolds(w, k);
      NothingFromNowhere(cfg, w, run, k, i);
    }
  }

  ghost predicate IndexesAgree(w: World, u: World) {
    forall i, ns | i in u.nodes :: FullIndex(u.nodes[i], ns) == Union(w, ns)
  }

  lemma ServedIsIndexed(w: World, n: Node, ns: set<string>)
    requires OverlayOk(n) && (forall i | i in w.nodes :: w.nodes[i].id == i)
    requires forall k :: BuildFor(n, k) == ServedByOrigin(w, k)
    ensures FullIndex(n, ns) == Union(w, ns)
  {
    forall k
      ensures k in FullIndex(n, ns) <==> k in Union(w, ns)
      ensures k in Union(w, ns) ==> FullIndex(n, ns)[k] == Union(w, ns)[k]
    {
      IndexEntry(n, ns, k);
      UnionEntry(w, ns, k);
    }
  }

  lemma NamesMatch(w: World)
    requires Inv(w)
    ensures forall i | i in w.nodes :: w.nodes[i].id == i
  {
  }

  lemma AllIndexesEqual(cfg: Config, w: World, d: set<string>, run: seq<Step>, i: NodeId, ns: set<string>)
    requires Ready(w) && Valid(cfg, w, run) && CalmRun(cfg, w, run) && EveryPairMeets(cfg, w, run, d)
    requires NothingNewInFlight(w) && Within(w, d) && Backed(w) && i in Exec(cfg, w, run).nodes
    ensures FullIndex(Exec(cfg, w, run).nodes[i], ns) == Union(w, ns)
  {
    var n := Exec(cfg, w, run).nodes[i];
    RunReady(cfg, w, run);
    IdsMatch(Exec(cfg, w, run), i);
    NamesMatch(w);
    forall k ensures BuildFor(n, k) == ServedByOrigin(w, k) {
      AllServeTheSame(cfg, w, d, run, i, k);
    }
    ServedIsIndexed(w, n, ns);
  }

  lemma OrphanShows(cfg: Config, w: World, d: set<string>, run: seq<Step>, i: NodeId, k: Key)
    requires Ready(w) && Valid(cfg, w, run) && CalmRun(cfg, w, run) && EveryPairMeets(cfg, w, run, d)
    requires NothingNewInFlight(w) && Within(w, d)
    requires i in w.nodes && k in w.nodes[i].foreign
    requires !(k.origin in w.nodes && OwnsRecord(w.nodes[k.origin], LocalOf(k)))
    ensures i in Exec(cfg, w, run).nodes && FullIndex(Exec(cfg, w, run).nodes[i], {}) != Union(w, {})
  {
    OrphanStays(cfg, w, d, run, i, k);
    NamesMatch(w);
    ShowsOrphan(w, Exec(cfg, w, run).nodes[i], k);
  }

  lemma OrphanStays(cfg: Config, w: World, d: set<string>, run: seq<Step>, i: NodeId, k: Key)
    requires Ready(w) && Valid(cfg, w, run) && CalmRun(cfg, w, run) && EveryPairMeets(cfg, w, run, d)
    requires NothingNewInFlight(w) && Within(w, d) && i in w.nodes && k in w.nodes[i].foreign
    ensures i in Exec(cfg, w, run).nodes && OverlayOk(Exec(cfg, w, run).nodes[i])
    ensures BuildFor(Exec(cfg, w, run).nodes[i], k).Some?
  {
    IdsMatch(w, i);
    var e := TopExists(w, i, k);
    Converges(cfg, w, d, run, k, e);
    RunReady(cfg, w, run);
    IdsMatch(Exec(cfg, w, run), i);
    assert Holds(Exec(cfg, w, run), i, k, e);
  }

  lemma ShowsOrphan(w: World, n: Node, k: Key)
    requires OverlayOk(n) && BuildFor(n, k).Some? && (forall j | j in w.nodes :: w.nodes[j].id == j)
    requires !(k.origin in w.nodes && OwnsRecord(w.nodes[k.origin], LocalOf(k)))
    ensures FullIndex(n, {}) != Union(w, {})
  {
    IndexEntry(n, {}, k);
    UnionEntry(w, {}, k);
  }

  /** Quiescent convergence, exactly: once every two nodes have met, all full indexes equal the union
      of the origins' own indexes if and only if every replica was backed by its origin when the
      calm began. */
  lemma ConvergesIffBacked(cfg: Config, w: World, d: set<string>, run: seq<Step>)
    requires Ready(w) && Valid(cfg, w, run) && CalmRun(cfg, w, run) && EveryPairMeets(cfg, w, run, d)
    requires NothingNewInFlight(w) && Within(w, d)
    ensures IndexesAgree(w, Exec(cfg, w, run)) <==> Backed(w)
  {
    if Backed(w) {
      forall i, ns | i in Exec(cfg, w, run).nodes ensures FullIndex(Exec(cfg, w, run).nodes[i], ns) == Union(w, ns) {
        AllIndexesEqual(cfg, w, d, run, i, ns);
      }
    } else {
      var i, k :| i in w.nodes && k in w.nodes[i].foreign &&
        !(k.origin in w.nodes && OwnsRecord(w.nodes[k.origin], LocalOf(k)));
      OrphanShows(cfg, w, d, run, i, k);
    }
  }

  lemma ShownWhole(r: Node, from: NodeId, ns: set<string>, d: set<string>)
    requires OverlayOk(r) && d <= ns && d <= Allowed(r, from, ns)
    requires forall k | BuildFor(r, k).Some? :: k.dataset in d
    ensures TheirView(r, from, ns) == FullIndex(r, ns)
  {
    forall k
      ensures k in TheirView(r, from, ns) <==> k in FullIndex(r, ns)
      ensures k in FullIndex(r, ns) ==> TheirView(r, from, ns)[k] == FullIndex(r, ns)[k]
    {
      VisibleEntry(r, Allowed(r, from, ns), k);
      IndexEntry(r, ns, k);
    }
  }

  /** From then on both sides of every reconcile compare equal indexes: with equal bucket counts no
      bucket differs, whatever the hash does, so the reconcile ends after its first call; and with
      any bucket counts there is nothing to pull and nothing to push. */
  lemma FurtherReconcilesAreIdle(
      cfg: Config, w: World, d: set<string>, run: seq<Step>, i: NodeId, j: NodeId, ns: set<string>, sha: Sha, n: nat)
    requires Ready(w) && Valid(cfg, w, run) && CalmRun(cfg, w, run) && EveryPairMeets(cfg, w, run, d)
    requires NothingNewInFlight(w) && Within(w, d) && Backed(w)
    requires var u := Exec(cfg, w, run);
             i in u.nodes && j in u.nodes && i != j && d <= ns && d <= Allowed(u.nodes[j], i, ns) && n > 0
    ensures var u := Exec(cfg, w, run);
            var x, y := OurView(u.nodes[i], ns), TheirView(u.nodes[j], i, ns);
            && x == y && DifferingBuckets(BucketHashes(sha, x, n), BucketHashes(sha, y, n)) == {}
            && Taken(u.nodes[i], Offer(u.nodes[j], y), u.now) == {}
            && Taken(u.nodes[j], Offer(u.nodes[i], x), u.now) == {}
  {
    var u := Exec(cfg, w, run);
    RunReady(cfg, w, run);
    IdsMatch(u, i);
    IdsMatch(u, j);
    SameViews(cfg, w, d, run, i, j, ns);
    SameViewsIdle(u.nodes[i], u.nodes[j], ns, u.now);
  }

  lemma ServedInScope(w: World, d: set<string>, k: Key)
    requires Inv(w) && Within(w, d) && ServedByOrigin(w, k).Some?
    ensures k.dataset in d
  {
    IdsMatch(w, k.origin);
    assert BuildFor(w.nodes[k.origin], k).Some?;
  }

  lemma SameViews(cfg: Config, w: World, d: set<string>, run: seq<Step>, i: NodeId, j: NodeId, ns: set<string>)
    requires Ready(w) && Valid(cfg, w, run) && CalmRun(cfg, w, run) && EveryPairMeets(cfg, w, run, d)
    requires NothingNewInFlight(w) && Within(w, d) && Backed(w)
    requires var u := Exec(cfg, w, run); i in u.nodes && j in u.nodes && d <= ns && d <= Allowed(u.nodes[j], i, ns)
    ensures var u := Exec(cfg, w, run); OurView(u.nodes[i], ns) == TheirView(u.nodes[j], i, ns)
  {
    var r := Exec(cfg, w, run).nodes[j];
    RunReady(cfg, w, run);
    IdsMatch(Exec(cfg, w, run), j);
    AllIndexesEqual(cfg, w, d, run, i, ns);
    AllIndexesEqual(cfg, w, d, run, j, ns);
    forall k | BuildFor(r, k).Some? ensures k.dataset in d {
      AllServeTheSame(cfg, w, d, run, j, k);
      ServedInScope(w, d, k);
    }
    ShownWhole(r, i, ns, d);
  }
}
