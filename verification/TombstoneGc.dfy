/** Forgetting a deletion after the retention window never brings the deleted record back, provided
    everybody learned of it, or evicted its origin, in time, and whoever gave up that protection again
    got it back in time. */
module TombstoneGc {
  import opened Envelope
  import opened Merkle
  import opened Node
  import opened Exchange
  import opened Protocol

  /** The deletion under study: origin, record, version of the tombstone and when it happened. The
      environment: everybody has dealt with it after `settle`; `delay` bounds message delay. A node
      lapses when it restarts, or opens a session with the origin, which lifts its cooldown, without
      holding the tombstone. Lapses happen before `early`, and are made good within `gap`, or after
      `late`. Wall clocks run ahead of the tombstone's stamp by at most `skew` milliseconds. */
  datatype Case = Case(
    cfg: Config, c: NodeId, lk: LocalKey, v: Version, at: real,
    settle: real, delay: real, gap: real, early: real, late: real, skew: real)

  predicate Sane(p: Case) {
    && p.cfg.hold >= 0.0 && p.cfg.keepalive >= 0.0
    && p.settle > 0.0 && p.delay >= 0.0 && p.gap >= 0.0 && p.settle <= p.early <= p.late
  }

  /** From here on nobody holds anything from before the deletion. A lapse that is made good at once
      lets nothing in, unless something is still on its way. */
  function Done(p: Case): real {
    if p.gap > 0.0 || p.delay > 0.0 then p.early + p.gap else p.settle
  }

  /** And from here on nothing from before the deletion is on its way. */
  function Horizon(p: Case): real {
    Done(p) + p.delay
  }

  /** What the environment has to satisfy: neither a cooldown nor a tombstone, whose first possible
      collection counts, ends before the horizon, and lapses that nobody makes good come after it. */
  predicate Enough(p: Case) {
    && Horizon(p) <= p.cfg.Retention()
    && p.late >= Horizon(p)
    && (p.cfg.RetentionMs() + 1) as real - p.skew >= Horizon(p) * 1000.0
  }

  function RecordKey(p: Case): Key {
    KeyOf(p.c, p.lk)
  }

  /** A version of the record from before the deletion. */
  predicate Old(p: Case, e: Envelope) {
    e.key == RecordKey(p) && After(p.v, e.version)
  }

  predicate HoldsOld(p: Case, n: Node) {
    RecordKey(p) in n.foreign && After(p.v, n.foreign[RecordKey(p)].version)
  }

  predicate HoldsNew(p: Case, n: Node) {
    RecordKey(p) in n.foreign && !After(p.v, n.foreign[RecordKey(p)].version)
  }

  // ---- who has settled ----

  /** Nodes that have settled, by merging the tombstone (or something newer) or evicting the origin,
      and have not lapsed since; and when the others lapsed. */
  datatype Ledger = Ledger(settled: set<NodeId>, lapsed: map<NodeId, real>)

  /** Opening a session with the origin exposes a node that does not hold the tombstone. */
  function Exposed(p: Case, w: World, i: NodeId): set<NodeId> {
    if i == p.c || (i in w.nodes && HoldsNew(p, w.nodes[i])) then {} else {i}
  }

  /** The node, if any, that gives up its protection. */
  function Lapsing(p: Case, w: World, s: Step): set<NodeId> {
    match s
    case Reboot(i) => if i == p.c then {} else {i}
    case OpenSession(i, peer, ns) => if peer == p.c then Exposed(p, w, i) else {}
    case Connect(i, peer, offered) =>
      if peer == p.c then Exposed(p, w, i) else if i == p.c then Exposed(p, w, peer) else {}
    case _ => {}
  }

  /** Late lapses need not be made good. */
  function Lapse(p: Case, w: World, l: Ledger, s: Step): Ledger {
    if w.now >= p.at + p.late then l
    else
      var gone := Lapsing(p, w, s);
      Ledger(l.settled - gone, l.lapsed + map i | i in gone :: w.now)
  }

  /** The step evicts the origin at the node that takes it. */
  predicate EvictsOrigin(p: Case, w: World, s: Step) {
    || (s.Disconnect? && s.peer == p.c)
    || (s.HoldTick? && s.i in w.nodes && p.c in Stale(p.cfg, w.nodes[s.i], w.now))
  }

  function Settle(p: Case, w: World, l: Ledger, s: Step, w': World): Ledger {
    var merged := set i | i in w'.nodes && HoldsNew(p, w'.nodes[i]);
    l.(settled := l.settled + merged + if EvictsOrigin(p, w, s) then {s.i} else {})
  }

  function Noted(p: Case, w: World, l: Ledger, s: Step, w': World): Ledger {
    Settle(p, w, Lapse(p, w, l, s), s, w')
  }

  predicate Accounted(p: Case, w: World, l: Ledger, t: real) {
    forall i | i in w.nodes && i != p.c :: i in l.settled || (i in l.lapsed && t <= l.lapsed[i] + p.gap)
  }

  /** What the environment has to respect. */
  predicate Fair(p: Case, w: World, l: Ledger, s: Step) {
    match s
    case Advance(t) => t >= p.at + p.settle ==> Accounted(p, w, l, t)
    case Collect(i, wall) => (wall - p.v.ms) as real <= (w.now - p.at) * 1000.0 + p.skew
    case Deliver(m) => w.now <= m.sentAt + p.delay
    case _ => Lapsing(p, w, s) == {} || w.now < p.at + p.early || w.now >= p.at + p.late
  }

  function LedgerAfter(p: Case, w: World, run: seq<Step>): Ledger
    requires Valid(p.cfg, w, run)
    decreases |run|
  {
    if run == [] then Ledger({}, map[])
    else
      var before := Exec(p.cfg, w, Front(run));
      Noted(p, before, LedgerAfter(p, w, Front(run)), Last(run), Exec(p.cfg, w, run))
  }

  predicate FairRun(p: Case, w: World, run: seq<Step>)
    requires Valid(p.cfg, w, run)
    decreases |run|
  {
    run == [] ||
    (&& FairRun(p, w, Front(run))
     && Fair(p, Exec(p.cfg, w, Front(run)), LedgerAfter(p, w, Front(run)), Last(run)))
  }

  /** Any reachable state right after the origin deleted the record. */
  ghost predicate JustDeleted(p: Case, w: World) {
    && Inv(w) && w.now == p.at && p.c in w.nodes
    && p.lk in w.nodes[p.c].tombstones && w.nodes[p.c].tombstones[p.lk].version == p.v
    && (forall m | m in w.net :: m.sentAt <= w.now)
  }

  // ---- invariant ----

  /** The origin never goes back behind the deletion. */
  predicate OriginOk(p: Case, n: Node) {
    n.disk.clock >= p.v.ms && (OwnsRecord(n, p.lk) ==> OwnVersion(n, p.lk).ms >= p.v.ms)
  }

  /** A settled node has no old version, and before the horizon cannot get one. */
  predicate SettledOk(p: Case, n: Node, now: real) {
    && !HoldsOld(p, n)
    && (now < p.at + Horizon(p) ==>
          HoldsNew(p, n) || (p.c in n.evictedUntil && n.evictedUntil[p.c] >= p.at + Horizon(p)))
  }

  predicate Safe(p: Case, w: World, l: Ledger) {
    && p.at <= w.now && p.c in w.nodes && OriginOk(p, w.nodes[p.c])
    && (forall i | i in w.nodes && i != p.c && i in l.settled :: SettledOk(p, w.nodes[i], w.now))
    && (w.now >= p.at + p.settle ==> Accounted(p, w, l, w.now))
    && (forall i | i in l.lapsed :: l.lapsed[i] <= w.now && l.lapsed[i] < p.at + p.early)
    && (w.now >= p.at + Done(p) ==> forall i | i in w.nodes && i != p.c :: !HoldsOld(p, w.nodes[i]))
    && (forall m | m in w.net && Old(p, m.env) :: m.sentAt < p.at + Done(p))
  }

  /** While something may still be on its way, everybody has settled for good. */
  lemma AllSettled(p: Case, w: World, l: Ledger)
    requires Sane(p) && Safe(p, w, l) && w.now >= p.at + Done(p) && (p.gap > 0.0 || p.delay > 0.0)
    ensures forall i | i in w.nodes && i != p.c :: i in l.settled
  {
  }

  // ---- the origin ----

  lemma MsOrder(p: Case, e: Envelope, w: World)
    requires Inv(w) && e in w.built && e.key == RecordKey(p) && p.c in w.nodes && p.v.node == p.c
    ensures After(p.v, e.version) <==> e.version.ms < p.v.ms
  {
    assert NodeInv(w.nodes[p.c], w.built);
    VersionOrder(p.v, e.version, e.version);
  }

  lemma OriginCollects(p: Case, n: Node, wall: int)
    requires NodeOk(n) && OriginOk(p, n)
    ensures OriginOk(p, Gc(p.cfg, n, wall))
  {
    GcNodeOk(p.cfg, n, wall);
    GcOwns(p.cfg, n, wall, p.lk);
  }

  lemma OriginMutates(p: Case, n: Node, wall: int, lk: LocalKey, change: Change)
    requires NodeOk(n) && OriginOk(p, n)
    ensures OriginOk(p, Mutate(n, wall, lk, change))
  {
  }

  lemma OriginStamps(p: Case, n: Node, wall: int, lk: LocalKey)
    requires NodeOk(n) && OriginOk(p, n)
    ensures OriginOk(p, Stamp(n, wall, lk))
  {
  }

  lemma OriginUntouched(p: Case, n: Node, n': Node)
    requires OriginOk(p, n)
    requires n'.registry == n.registry && n'.localVersions == n.localVersions && n'.tombstones == n.tombstones
    requires n'.disk.clock >= n.disk.clock
    ensures OriginOk(p, n')
  {
  }

  // ---- a settled node ----

  /** Nothing that happens to other records, or to sessions with others, unsettles a node. */
  lemma SettledUntouched(p: Case, n: Node, n': Node, now: real)
    requires SettledOk(p, n, now) && Get(n'.foreign, RecordKey(p)) == Get(n.foreign, RecordKey(p))
    requires now < p.at + Horizon(p) && !HoldsNew(p, n) ==>
               p.c in n'.evictedUntil && n'.evictedUntil[p.c] == n.evictedUntil[p.c]
    ensures SettledOk(p, n', now)
  {
  }

  /** Evicting the origin settles a node. */
  lemma EvictionSettles(p: Case, n: Node, gone: set<NodeId>, now: real)
    requires Enough(p) && p.at <= now && p.c in gone
    ensures SettledOk(p, Evict(p.cfg, n, gone, now), now)
  {
  }

  lemma EvictionKeeps(p: Case, n: Node, gone: set<NodeId>, now: real)
    requires Enough(p) && SettledOk(p, n, now) && p.at <= now
    ensures SettledOk(p, Evict(p.cfg, n, gone, now), now)
  {
    if p.c in gone {
      EvictionSettles(p, n, gone, now);
    } else {
      SettledUntouched(p, n, Evict(p.cfg, n, gone, now), now);
    }
  }

  /** Expiry by a clock that is not too far ahead takes until the horizon. */
  lemma ExpiryTakesTheWindow(p: Case, ms: int, wall: int, now: real)
    requires Enough(p) && ms >= p.v.ms && (wall - p.v.ms) as real <= (now - p.at) * 1000.0 + p.skew
    requires Expired(p.cfg, ms, wall)
    ensures now >= p.at + Horizon(p)
  {
    assert (wall - p.v.ms) as real >= (p.cfg.RetentionMs() + 1) as real;
  }

  /** Collecting garbage does not unsettle a node: its tombstone cannot expire before the horizon. */
  lemma CollectKeeps(p: Case, n: Node, wall: int, now: real)
    requires Enough(p) && SettledOk(p, n, now) && (wall - p.v.ms) as real <= (now - p.at) * 1000.0 + p.skew
    requires HoldsNew(p, n) ==> n.foreign[RecordKey(p)].version.ms >= p.v.ms
    ensures SettledOk(p, Gc(p.cfg, n, wall), now)
  {
    var k := RecordKey(p);
    GcForeignSubset(p.cfg, n.foreign, wall);
    if HoldsNew(p, n) && Expired(p.cfg, n.foreign[k].version.ms, wall) {
      ExpiryTakesTheWindow(p, n.foreign[k].version.ms, wall, now);
    }
    if k in n.foreign && k in Gc(p.cfg, n, wall).foreign {
      assert Gc(p.cfg, n, wall).foreign[k] == n.foreign[k];
    }
  }

  // ---- taking what is offered ----

  predicate OffersOld(p: Case, offer: Overlay) {
    RecordKey(p) in offer && Old(p, offer[RecordKey(p)])
  }

  /** Absorbing offers unsettles nobody as long as old versions are only offered before the horizon. */
  lemma AbsorbKeepsSettled(p: Case, n: Node, offer: Overlay, now: real)
    requires SettledOk(p, n, now) && Keyed(offer) && (now >= p.at + Horizon(p) ==> !OffersOld(p, offer))
    ensures SettledOk(p, n.(foreign := Absorb(n, offer, now)), now)
  {
    var k := RecordKey(p);
    if k in offer && k in n.foreign {
      VersionOrder(p.v, offer[k].version, n.foreign[k].version);
      VersionOrder(p.v, n.foreign[k].version, p.v);
    }
  }

  lemma AbsorbStaysNew(p: Case, n: Node, offer: Overlay, now: real)
    requires !HoldsOld(p, n) && Keyed(offer) && !OffersOld(p, offer)
    ensures !HoldsOld(p, n.(foreign := Absorb(n, offer, now)))
  {
  }

  lemma OriginOffersNew(p: Case, w: World, idx: Index)
    requires p.v.node == p.c && Inv(w) && p.c in w.nodes && OriginOk(p, w.nodes[p.c])
    ensures Keyed(Offer(w.nodes[p.c], idx)) && !OffersOld(p, Offer(w.nodes[p.c], idx))
  {
    var n := w.nodes[p.c];
    assert NodeInv(n, w.built);
    OfferBuilt(n, w.built, idx);
    if RecordKey(p) in Offer(n, idx) {
      assert LocalOf(RecordKey(p)) == p.lk;
      MsOrder(p, BuildLocal(n, p.lk).value, w);
    }
  }

  /** Once nobody holds an old version, nobody offers one. */
  lemma NothingOldOffered(p: Case, w: World, l: Ledger, j: NodeId, idx: Index)
    requires Inv(w) && Safe(p, w, l) && p.v.node == p.c && j in w.nodes
    ensures Keyed(Offer(w.nodes[j], idx))
    ensures w.now >= p.at + Done(p) ==> !OffersOld(p, Offer(w.nodes[j], idx))
  {
    if j == p.c {
      OriginOffersNew(p, w, idx);
    } else {
      IdsMatch(w, j);
      OfferBuilt(w.nodes[j], w.built, idx);
    }
  }

  // ---- from the nodes after a step to the invariant after it ----

  /** What a node other than the origin has to satisfy after a step. */
  predicate NodeFine(p: Case, l: Ledger, n: Node, now: real) {
    && (n.id in l.settled ==> SettledOk(p, n, now))
    && (now >= p.at + Done(p) ==> !HoldsOld(p, n))
  }

  lemma NewIsSettledOk(p: Case, n: Node, now: real)
    requires HoldsNew(p, n)
    ensures SettledOk(p, n, now)
  {
  }

  /** Noting a lapse keeps the books right. */
  lemma LapsedSafe(p: Case, w: World, l: Ledger, s: Step)
    requires Sane(p) && Safe(p, w, l) && Fair(p, w, l, s) && !s.Advance?
    ensures Safe(p, w, Lapse(p, w, l, s))
  {
  }

  /** So does noting who has settled. */
  lemma SettlingSafe(p: Case, w: World, w': World, l: Ledger, s: Step)
    requires Safe(p, w', l) && (EvictsOrigin(p, w, s) ==> s.i in w'.nodes && SettledOk(p, w'.nodes[s.i], w'.now))
    ensures Safe(p, w', Settle(p, w, l, s, w'))
  {
    var l' := Settle(p, w, l, s, w');
    assert l.settled <= l'.settled && l'.lapsed == l.lapsed;
    forall k | k in w'.nodes && k != p.c && k in l'.settled ensures SettledOk(p, w'.nodes[k], w'.now) {
      if HoldsNew(p, w'.nodes[k]) { NewIsSettledOk(p, w'.nodes[k], w'.now); }
    }
  }

  /** A node that is fine takes the place of another. */
  lemma OneReplaced(p: Case, w: World, l: Ledger, n': Node, w': World)
    requires Safe(p, w, l) && n'.id in w.nodes
    requires w'.nodes == w.nodes[n'.id := n'] && w'.net == w.net && w'.now == w.now
    requires if n'.id == p.c then OriginOk(p, n') else NodeFine(p, l, n', w.now)
    ensures Safe(p, w', l)
  {
  }

  /** A step that replaces one node and leaves the network alone. */
  lemma ConcludeOne(p: Case, w: World, l: Ledger, s: Step, n': Node, w': World)
    requires Sane(p) && Safe(p, w, l) && Fair(p, w, l, s) && !s.Advance? && n'.id in w.nodes
    requires w'.nodes == w.nodes[n'.id := n'] && w'.net == w.net && w'.now == w.now
    requires if n'.id == p.c then OriginOk(p, n') else NodeFine(p, Lapse(p, w, l, s), n', w.now)
    requires EvictsOrigin(p, w, s) ==> s.i == n'.id && SettledOk(p, n', w.now)
    ensures Safe(p, w', Noted(p, w, l, s, w'))
  {
    LapsedSafe(p, w, l, s);
    OneReplaced(p, w, Lapse(p, w, l, s), n', w');
    SettlingSafe(p, w, w', Lapse(p, w, l, s), s);
  }

  // ---- steps of one node ----

  predicate NoLapse(s: Step) {
    !s.Reboot? && !s.OpenSession? && !s.Connect?
  }

  lemma NothingLapses(p: Case, w: World, l: Ledger, s: Step)
    requires NoLapse(s)
    ensures Lapse(p, w, l, s) == l
  {
  }

  /** A step that leaves the overlay, and the cooldown of the origin unless it has run out, alone. */
  lemma KeptFine(p: Case, w: World, l: Ledger, i: NodeId, n': Node)
    requires Enough(p) && Safe(p, w, l) && i in w.nodes && i != p.c && w.nodes[i].id == i && n'.id == i
    requires n'.foreign == w.nodes[i].foreign
    requires Suppressed(w.nodes[i], p.c, w.now) ==> Get(n'.evictedUntil, p.c) == Get(w.nodes[i].evictedUntil, p.c)
    ensures NodeFine(p, l, n', w.now)
  {
    if i in l.settled { SettledUntouched(p, w.nodes[i], n', w.now); }
  }

  lemma SessionStepSafe(p: Case, w: World, l: Ledger, s: Step, n': Node)
    requires s.MintMembership? || s.Observe? || s.SaveState? || s.Hear? || s.Forget?
    requires Sane(p) && Enough(p) && Inv(w) && Safe(p, w, l) && Enabled(w, s) && Fair(p, w, l, s)
    requires n' == SessionNode(w.nodes[s.i], s, w.now)
    ensures Safe(p, WithNode(w, n'), Noted(p, w, l, s, WithNode(w, n')))
  {
    NothingLapses(p, w, l, s);
    SessionFine(p, w, l, s);
    ConcludeOne(p, w, l, s, n', WithNode(w, n'));
  }

  lemma SessionFine(p: Case, w: World, l: Ledger, s: Step)
    requires (s.MintMembership? || s.Observe? || s.SaveState? || s.Hear? || s.Forget?) && s.i in w.nodes
    requires Enough(p) && Inv(w) && Safe(p, w, l)
    ensures var n' := SessionNode(w.nodes[s.i], s, w.now);
            n'.id == s.i && if s.i == p.c then OriginOk(p, n') else NodeFine(p, l, n', w.now)
  {
    IdsMatch(w, s.i);
    OkNode(w, s.i);
    var n := w.nodes[s.i];
    var n' := SessionNode(n, s, w.now);
    SessionKeeps(n, s, w.now, p.c);
    if s.i == p.c { OriginUntouched(p, n, n'); } else { KeptFine(p, w, l, s.i, n'); }
  }

  lemma SessionKeeps(n: Node, s: Step, now: real, c: NodeId)
    requires (s.MintMembership? || s.Observe? || s.SaveState? || s.Hear? || s.Forget?) && n.disk.clock <= n.clock
    ensures var n' := SessionNode(n, s, now);
            && n'.id == n.id && n'.foreign == n.foreign && n'.registry == n.registry
            && n'.localVersions == n.localVersions && n'.tombstones == n.tombstones && n'.disk.clock >= n.disk.clock
            && (Suppressed(n, c, now) ==> Get(n'.evictedUntil, c) == Get(n.evictedUntil, c))
  {
    if s.Forget? { assert Suppressed(n, c, now) ==> Get(Prune(n, now).evictedUntil, c) == Get(n.evictedUntil, c); }
  }

  /** The node after such a step. */
  function SessionNode(n: Node, s: Step, now: real): Node {
    match s
    case MintMembership(i, wall, floor) => n.(clock := NextTsAfter(n.clock, wall, floor))
    case Observe(i, ms) => n.(clock := Max(n.clock, ms))
    case SaveState(i) => Save(n)
    case Hear(i, peer) => Touch(n, peer, now)
    case _ => Prune(n, now)
  }

  lemma CollectStepSafe(p: Case, w: World, l: Ledger, i: NodeId, wall: int)
    requires Sane(p) && Enough(p) && p.v.node == p.c && Inv(w) && Safe(p, w, l) && i in w.nodes
    requires Fair(p, w, l, Collect(i, wall))
    ensures var w' := WithNode(w, Gc(p.cfg, w.nodes[i], wall)); Safe(p, w', Noted(p, w, l, Collect(i, wall), w'))
  {
    var n, n' := w.nodes[i], Gc(p.cfg, w.nodes[i], wall);
    IdsMatch(w, i);
    OkNode(w, i);
    NothingLapses(p, w, l, Collect(i, wall));
    if i == p.c { OriginCollects(p, n, wall); } else { CollectFine(p, w, l, i, wall); }
    ConcludeOne(p, w, l, Collect(i, wall), n', WithNode(w, n'));
  }

  lemma CollectFine(p: Case, w: World, l: Ledger, i: NodeId, wall: int)
    requires Enough(p) && p.v.node == p.c && Inv(w) && Safe(p, w, l) && i in w.nodes && i != p.c
    requires (wall - p.v.ms) as real <= (w.now - p.at) * 1000.0 + p.skew
    ensures Gc(p.cfg, w.nodes[i], wall).id == i && NodeFine(p, l, Gc(p.cfg, w.nodes[i], wall), w.now)
  {
    IdsMatch(w, i);
    OkNode(w, i);
    GcNodeOk(p.cfg, w.nodes[i], wall);
    GcForeignSubset(p.cfg, w.nodes[i].foreign, wall);
    if i in l.settled {
      if HoldsNew(p, w.nodes[i]) {
        assert NodeInv(w.nodes[i], w.built);
        MsOrder(p, w.nodes[i].foreign[RecordKey(p)], w);
      }
      CollectKeeps(p, w.nodes[i], wall, w.now);
    }
  }

  lemma EvictStepSafe(p: Case, w: World, l: Ledger, s: Step, gone: set<NodeId>)
    requires Sane(p) && Enough(p) && Inv(w) && Safe(p, w, l) && Enabled(w, s) && Fair(p, w, l, s)
    requires s.HoldTick? || s.Disconnect?
    requires gone == if s.HoldTick? then Stale(p.cfg, w.nodes[s.i], w.now) else {s.peer}
    ensures var w' := WithNode(w, Evict(p.cfg, w.nodes[s.i], gone, w.now)); Safe(p, w', Noted(p, w, l, s, w'))
  {
    var n, n' := w.nodes[s.i], Evict(p.cfg, w.nodes[s.i], gone, w.now);
    IdsMatch(w, s.i);
    NothingLapses(p, w, l, s);
    if p.c in gone { EvictionSettles(p, n, gone, w.now); }
    if s.i == p.c {
      OriginUntouched(p, n, n');
    } else if s.i in l.settled {
      EvictionKeeps(p, n, gone, w.now);
    }
    ConcludeOne(p, w, l, s, n', WithNode(w, n'));
  }

  lemma PublishStepSafe(p: Case, w: World, l: Ledger, s: Step, n': Node)
    requires s.LocalChange? || s.StampOne?
    requires Sane(p) && Enough(p) && Inv(w) && Safe(p, w, l) && Enabled(w, s) && Fair(p, w, l, s)
    requires n' == Published(w.nodes[s.i], s)
    ensures var w' := Publish(w, n', s.lk); Safe(p, w', Noted(p, w, l, s, w'))
  {
    NothingLapses(p, w, l, s);
    PublishedFine(p, w, l, s);
    ConcludeOne(p, w, l, s, n', Publish(w, n', s.lk));
  }

  function Published(n: Node, s: Step): Node
    requires s.LocalChange? || s.StampOne?
  {
    if s.LocalChange? then Mutate(n, s.wall, s.lk, s.change) else Stamp(n, s.wall, s.lk)
  }

  lemma PublishedFine(p: Case, w: World, l: Ledger, s: Step)
    requires (s.LocalChange? || s.StampOne?) && s.i in w.nodes
    requires Enough(p) && Inv(w) && Safe(p, w, l)
    ensures var n' := Published(w.nodes[s.i], s);
            n'.id == s.i && if s.i == p.c then OriginOk(p, n') else NodeFine(p, l, n', w.now)
  {
    IdsMatch(w, s.i);
    OkNode(w, s.i);
    PublishedKeeps(w.nodes[s.i], s);
    if s.i == p.c {
      OriginPublishes(p, w.nodes[s.i], s);
    } else {
      KeptFine(p, w, l, s.i, Published(w.nodes[s.i], s));
    }
  }

  lemma PublishedKeeps(n: Node, s: Step)
    requires s.LocalChange? || s.StampOne?
    ensures var n' := Published(n, s);
            n'.id == n.id && n'.foreign == n.foreign && n'.evictedUntil == n.evictedUntil
  {
  }

  lemma OriginPublishes(p: Case, n: Node, s: Step)
    requires (s.LocalChange? || s.StampOne?) && NodeOk(n) && OriginOk(p, n)
    ensures OriginOk(p, Published(n, s))
  {
    if s.LocalChange? {
      OriginMutates(p, n, s.wall, s.lk, s.change);
    } else {
      OriginStamps(p, n, s.wall, s.lk);
    }
  }

  // ---- messages ----

  lemma SentIsNew(p: Case, w: World, l: Ledger, i: NodeId, key: Key)
    requires p.v.node == p.c && Inv(w) && Safe(p, w, l) && i in w.nodes && BuildFor(w.nodes[i], key).Some?
    ensures Old(p, BuildFor(w.nodes[i], key).value) ==> w.now < p.at + Done(p)
  {
    var n := w.nodes[i];
    var e := BuildFor(n, key).value;
    var idx: Index := map[key := e.version];
    NothingOldOffered(p, w, l, i, idx);
    assert key in Offer(n, idx) && Offer(n, idx)[key] == e;
  }

  lemma SentSafe(p: Case, w: World, l: Ledger, s: Step, e: Envelope)
    requires Safe(p, w, l) && s.Send? && (Old(p, e) ==> w.now < p.at + Done(p))
    ensures var w' := w.(net := w.net + {Msg(s.to, e, w.now)}); Safe(p, w', Noted(p, w, l, s, w'))
  {
    var w' := w.(net := w.net + {Msg(s.to, e, w.now)});
    NothingLapses(p, w, l, s);
    assert Safe(p, w', l);
    SettlingSafe(p, w, w', l, s);
  }

  lemma SendStepSafe(p: Case, w: World, l: Ledger, s: Step)
    requires Sane(p) && p.v.node == p.c && Inv(w) && Safe(p, w, l) && Enabled(w, s) && s.Send?
    ensures Safe(p, Next(p.cfg, w, s), Noted(p, w, l, s, Next(p.cfg, w, s)))
  {
    SentIsNew(p, w, l, s.i, s.key);
    SentSafe(p, w, l, s, BuildFor(w.nodes[s.i], s.key).value);
  }

  /** What arrives finds a settled node, before the horizon, or is not old. */
  lemma DeliveredFine(p: Case, w: World, l: Ledger, m: Msg)
    requires Sane(p) && Inv(w) && Safe(p, w, l) && m in w.net && m.to in w.nodes && m.to != p.c
    requires w.now <= m.sentAt + p.delay
    ensures Apply(w.nodes[m.to], m.env, w.now).id == m.to && NodeFine(p, l, Apply(w.nodes[m.to], m.env, w.now), w.now)
  {
    IdsMatch(w, m.to);
    ApplyIsAbsorb(w.nodes[m.to], m.env, w.now);
    var offer: Overlay := map[m.env.key := m.env];
    if w.now >= p.at + Done(p) {
      if p.gap > 0.0 || p.delay > 0.0 {
        AllSettled(p, w, l);
      } else {
        AbsorbStaysNew(p, w.nodes[m.to], offer, w.now);
      }
    }
    if m.to in l.settled { AbsorbKeepsSettled(p, w.nodes[m.to], offer, w.now); }
  }

  lemma DeliverStepSafe(p: Case, w: World, l: Ledger, m: Msg)
    requires Sane(p) && Inv(w) && Safe(p, w, l) && m in w.net && m.to in w.nodes && Fair(p, w, l, Deliver(m))
    ensures var w' := WithNode(w, Apply(w.nodes[m.to], m.env, w.now)); Safe(p, w', Noted(p, w, l, Deliver(m), w'))
  {
    var n, n' := w.nodes[m.to], Apply(w.nodes[m.to], m.env, w.now);
    IdsMatch(w, m.to);
    NothingLapses(p, w, l, Deliver(m));
    if m.to == p.c { OriginUntouched(p, n, n'); } else { DeliveredFine(p, w, l, m); }
    ConcludeOne(p, w, l, Deliver(m), n', WithNode(w, n'));
  }

  // ---- exchanges ----

  /** What one side of an exchange keeps. */
  lemma SideFine(p: Case, w: World, l: Ledger, i: NodeId, j: NodeId, idx: Index)
    requires p.v.node == p.c && p.delay >= 0.0 && Inv(w) && Safe(p, w, l) && i in w.nodes && j in w.nodes
    ensures var n' := w.nodes[i].(foreign := Absorb(w.nodes[i], Offer(w.nodes[j], idx), w.now));
            n'.id == i && if i == p.c then OriginOk(p, n') else NodeFine(p, l, n', w.now)
  {
    var n := w.nodes[i];
    var offer := Offer(w.nodes[j], idx);
    IdsMatch(w, i);
    NothingOldOffered(p, w, l, j, idx);
    if i == p.c {
      OriginUntouched(p, n, n.(foreign := Absorb(n, offer, w.now)));
    } else {
      if i in l.settled { AbsorbKeepsSettled(p, n, offer, w.now); }
      if w.now >= p.at + Done(p) { AbsorbStaysNew(p, n, offer, w.now); }
    }
  }

  lemma CalleeFine(p: Case, w: World, l: Ledger, i: NodeId, j: NodeId, ns: set<string>)
    requires p.v.node == p.c && p.delay >= 0.0 && Inv(w) && Safe(p, w, l) && i in w.nodes && j in w.nodes
    ensures var n' := Callee(w, i, j, ns);
            n'.id == j && if j == p.c then OriginOk(p, n') else NodeFine(p, l, n', w.now)
  {
    SideFine(p, w, l, j, i, OurView(w.nodes[i], ns));
    var n := w.nodes[j].(foreign := Absorb(w.nodes[j], Offer(w.nodes[i], OurView(w.nodes[i], ns)), w.now));
    assert Touch(n, i, w.now) == Callee(w, i, j, ns);
  }

  /** An exchange, by a ledger that has noted the lapses already. */
  lemma MeetSafe(p: Case, w: World, l: Ledger, s: Step, i: NodeId, j: NodeId, ns: set<string>)
    requires p.v.node == p.c && p.delay >= 0.0 && Inv(w) && Safe(p, w, l) && i in w.nodes && j in w.nodes && i != j
    requires s.Reconcile? || s.Connect?
    ensures Safe(p, Meet(w, i, j, ns), Settle(p, w, l, s, Meet(w, i, j, ns)))
  {
    IdsMatch(w, i);
    IdsMatch(w, j);
    MeetNodes(w, i, j, ns);
    SideFine(p, w, l, i, j, TheirView(w.nodes[j], i, ns));
    CalleeFine(p, w, l, i, j, ns);
    ConcludeTwo(p, w, l, s, i, j, Caller(w, i, j, ns), Callee(w, i, j, ns), Meet(w, i, j, ns));
  }

  lemma ConcludeTwo(p: Case, w: World, l: Ledger, s: Step, i: NodeId, j: NodeId, a: Node, b: Node, w': World)
    requires Safe(p, w, l) && (s.Reconcile? || s.Connect?) && i in w.nodes && j in w.nodes && i != j
    requires w'.nodes == w.nodes[i := a][j := b] && w'.net == w.net && w'.now == w.now
    requires a.id == i && if i == p.c then OriginOk(p, a) else NodeFine(p, l, a, w.now)
    requires b.id == j && if j == p.c then OriginOk(p, b) else NodeFine(p, l, b, w.now)
    ensures Safe(p, w', Settle(p, w, l, s, w'))
  {
    assert w'.nodes[i] == a && w'.nodes[j] == b;
    TwoReplaced(p, w, l, i, j, a, b, w');
    SettlingSafe(p, w, w', l, s);
  }

  /** Two nodes that are fine take the place of two others. */
  lemma TwoReplaced(p: Case, w: World, l: Ledger, i: NodeId, j: NodeId, a: Node, b: Node, w': World)
    requires Safe(p, w, l) && i in w.nodes && j in w.nodes && i != j
    requires w'.nodes.Keys == w.nodes.Keys && w'.nodes[i] == a && w'.nodes[j] == b && w'.net == w.net && w'.now == w.now
    requires forall k | k in w.nodes && k != i && k != j :: w'.nodes[k] == w.nodes[k]
    requires a.id == i && if i == p.c then OriginOk(p, a) else NodeFine(p, l, a, w.now)
    requires b.id == j && if j == p.c then OriginOk(p, b) else NodeFine(p, l, b, w.now)
    ensures Safe(p, w', l)
  {
  }

  // ---- lapses ----

  /** A node that restarts has settled no longer, or the horizon is past. */
  lemma RebootSafe(p: Case, w: World, l: Ledger, i: NodeId)
    requires Sane(p) && Enough(p) && Inv(w) && Safe(p, w, l) && i in w.nodes && Fair(p, w, l, Reboot(i))
    ensures var w' := WithNode(w, Restart(w.nodes[i])); Safe(p, w', Noted(p, w, l, Reboot(i), w'))
  {
    IdsMatch(w, i);
    OkNode(w, i);
    ConcludeOne(p, w, l, Reboot(i), Restart(w.nodes[i]), WithNode(w, Restart(w.nodes[i])));
  }

  /** A node that opens a session with the origin holds the tombstone, has settled no longer, or the
      horizon is past; sessions with others do not matter. */
  lemma OpenFine(p: Case, w: World, l: Ledger, i: NodeId, peer: NodeId, ns: set<string>)
    requires Enough(p) && Safe(p, w, l) && i in w.nodes && w.nodes[i].id == i
    requires MayOpen(p, w, l, i, peer)
    ensures var n' := Open(w.nodes[i], peer, ns, w.now);
            n'.id == i && if i == p.c then OriginOk(p, n') else NodeFine(p, l, n', w.now)
  {
    var n, n' := w.nodes[i], Open(w.nodes[i], peer, ns, w.now);
    if i == p.c {
      OriginUntouched(p, n, n');
    } else if i in l.settled && w.now < p.at + p.late {
      SettledUntouched(p, n, n', w.now);
    }
  }

  lemma OpenStepSafe(p: Case, w: World, l: Ledger, i: NodeId, peer: NodeId, ns: set<string>)
    requires Sane(p) && Enough(p) && Inv(w) && Safe(p, w, l) && i in w.nodes && Fair(p, w, l, OpenSession(i, peer, ns))
    ensures var w' := WithNode(w, Open(w.nodes[i], peer, ns, w.now));
            Safe(p, w', Noted(p, w, l, OpenSession(i, peer, ns), w'))
  {
    var s, n' := OpenSession(i, peer, ns), Open(w.nodes[i], peer, ns, w.now);
    IdsMatch(w, i);
    LapsedSafe(p, w, l, s);
    OpenFine(p, w, Lapse(p, w, l, s), i, peer, ns);
    ConcludeOne(p, w, l, s, n', WithNode(w, n'));
  }

  /** Whoever opens a session with the origin may do so by a ledger that counts it as settled. */
  predicate MayOpen(p: Case, w: World, l: Ledger, i: NodeId, peer: NodeId)
    requires i in w.nodes
  {
    peer == p.c != i && i in l.settled ==> HoldsNew(p, w.nodes[i]) || w.now >= p.at + p.late
  }

  /** Both OPENs of a connect. */
  lemma OpenedSafe(p: Case, w: World, l: Ledger, i: NodeId, j: NodeId, ns: set<string>)
    requires Enough(p) && Safe(p, w, l) && i in w.nodes && j in w.nodes && i != j
    requires w.nodes[i].id == i && w.nodes[j].id == j && MayOpen(p, w, l, i, j) && MayOpen(p, w, l, j, i)
    ensures Safe(p, Opened(w, i, j, ns), l)
  {
    OpenedNodes(w, i, j, ns);
    OpenFine(p, w, l, i, j, ns);
    OpenFine(p, w, l, j, i, ns);
    TwoReplaced(p, w, l, i, j, Open(w.nodes[i], j, ns, w.now), Open(w.nodes[j], i, ns, w.now), Opened(w, i, j, ns));
  }

  lemma ConnectStepSafe(p: Case, w: World, l: Ledger, s: Step)
    requires Sane(p) && Enough(p) && p.v.node == p.c && Inv(w) && Safe(p, w, l) && Enabled(w, s) && s.Connect?
    requires Fair(p, w, l, s)
    ensures Safe(p, Next(p.cfg, w, s), Noted(p, w, l, s, Next(p.cfg, w, s)))
  {
    var ns, l1 := Accepted(w.nodes[s.peer], s.offered), Lapse(p, w, l, s);
    OpenedInv(w, s.i, s.peer, ns);
    IdsMatch(w, s.i);
    IdsMatch(w, s.peer);
    LapsedSafe(p, w, l, s);
    OpenedSafe(p, w, l1, s.i, s.peer, ns);
    MeetSafe(p, Opened(w, s.i, s.peer, ns), l1, s, s.i, s.peer, ns);
    assert !EvictsOrigin(p, w, s);
  }

  // ---- whole runs ----

  lemma AdvanceSafe(p: Case, w: World, l: Ledger, t: real)
    requires Sane(p) && Inv(w) && Safe(p, w, l) && t >= w.now && Fair(p, w, l, Advance(t))
    ensures Safe(p, w.(now := t), Noted(p, w, l, Advance(t), w.(now := t)))
  {
    var w' := w.(now := t);
    NothingLapses(p, w, l, Advance(t));
    var l' := Settle(p, w, l, Advance(t), w');
    forall i | i in w.nodes && i != p.c && i in l'.settled ensures SettledOk(p, w.nodes[i], t) {
      StillSettled(p, w, l, t, i);
    }
    forall i | i in w.nodes && i != p.c && t >= p.at + Done(p) ensures !HoldsOld(p, w.nodes[i]) {
      if w.now < p.at + Done(p) { CrossingIsSettled(p, w, l, t, i); }
    }
  }

  lemma StillSettled(p: Case, w: World, l: Ledger, t: real, i: NodeId)
    requires Safe(p, w, l) && t >= w.now && i in w.nodes && i != p.c && (i in l.settled || HoldsNew(p, w.nodes[i]))
    ensures SettledOk(p, w.nodes[i], t)
  {
    if HoldsNew(p, w.nodes[i]) { NewIsSettledOk(p, w.nodes[i], t); }
  }

  lemma CrossingIsSettled(p: Case, w: World, l: Ledger, t: real, i: NodeId)
    requires Sane(p) && Safe(p, w, l) && Fair(p, w, l, Advance(t)) && w.now < p.at + Done(p) <= t
    requires i in w.nodes && i != p.c
    ensures i in l.settled
  {
  }

  /** Messages, evictions and housekeeping. */
  lemma QuietStepSafe(p: Case, w: World, l: Ledger, s: Step)
    requires Sane(p) && Enough(p) && p.v.node == p.c && Inv(w) && Safe(p, w, l) && Enabled(w, s) && Fair(p, w, l, s)
    requires NoLapse(s) && !s.Reconcile? && !s.LocalChange? && !s.StampOne? && !s.Advance?
    ensures Safe(p, Next(p.cfg, w, s), Noted(p, w, l, s, Next(p.cfg, w, s)))
  {
    if s.Send? {
      SendStepSafe(p, w, l, s);
    } else if s.Deliver? {
      DeliverStepSafe(p, w, l, s.m);
    } else if s.Collect? {
      CollectStepSafe(p, w, l, s.i, s.wall);
    } else if s.HoldTick? {
      EvictStepSafe(p, w, l, s, Stale(p.cfg, w.nodes[s.i], w.now));
    } else if s.Disconnect? {
      EvictStepSafe(p, w, l, s, {s.peer});
    } else {
      SessionStepSafe(p, w, l, s, SessionNode(w.nodes[s.i], s, w.now));
    }
  }

  lemma ReconcileStepSafe(p: Case, w: World, l: Ledger, s: Step)
    requires Sane(p) && p.v.node == p.c && Inv(w) && Safe(p, w, l) && Enabled(w, s) && s.Reconcile?
    ensures Safe(p, Next(p.cfg, w, s), Noted(p, w, l, s, Next(p.cfg, w, s)))
  {
    NothingLapses(p, w, l, s);
    MeetSafe(p, w, l, s, s.i, s.peer, w.nodes[s.i].sessions[s.peer].namespaces);
  }

  lemma StepSafe(p: Case, w: World, l: Ledger, s: Step)
    requires Sane(p) && Enough(p) && p.v.node == p.c && Inv(w) && Safe(p, w, l) && Enabled(w, s) && Fair(p, w, l, s)
    ensures Safe(p, Next(p.cfg, w, s), Noted(p, w, l, s, Next(p.cfg, w, s)))
  {
    if s.Advance? {
      AdvanceSafe(p, w, l, s.t);
    } else if s.LocalChange? || s.StampOne? {
      PublishStepSafe(p, w, l, s, Published(w.nodes[s.i], s));
    } else if s.Reconcile? {
      ReconcileStepSafe(p, w, l, s);
    } else if s.Connect? {
      ConnectStepSafe(p, w, l, s);
    } else if s.Reboot? {
      RebootSafe(p, w, l, s.i);
    } else if s.OpenSession? {
      OpenStepSafe(p, w, l, s.i, s.peer, s.namespaces);
    } else {
      QuietStepSafe(p, w, l, s);
    }
  }

  lemma {:induction false} RunSafe(p: Case, w: World, run: seq<Step>)
    requires Sane(p) && Enough(p) && JustDeleted(p, w) && Valid(p.cfg, w, run) && FairRun(p, w, run)
    ensures Safe(p, Exec(p.cfg, w, run), LedgerAfter(p, w, run)) && p.v.node == p.c
    decreases |run|
  {
    assert NodeInv(w.nodes[p.c], w.built);
    if run != [] {
      RunSafe(p, w, Front(run));
      RunKeepsInv(p.cfg, w, Front(run));
      StepSafe(p, Exec(p.cfg, w, Front(run)), LedgerAfter(p, w, Front(run)), Last(run));
    }
  }

  /** Garbage collection never revives a delete: a node that has settled, and has not lapsed since,
      never holds a version of the record from before its deletion again; and from `Done` on nobody
      does. OPENs and reconciles are separate steps, with anything in between. */
  lemma NoRevival(p: Case, w: World, run: seq<Step>, i: NodeId)
    requires Sane(p) && Enough(p) && JustDeleted(p, w) && Valid(p.cfg, w, run) && FairRun(p, w, run)
    requires i in Exec(p.cfg, w, run).nodes
    requires i in LedgerAfter(p, w, run).settled || Exec(p.cfg, w, run).now >= p.at + Done(p)
    ensures !HoldsOld(p, Exec(p.cfg, w, run).nodes[i])
  {
    RunSafe(p, w, run);
    RunKeepsInv(p.cfg, w, run);
    IdsMatch(Exec(p.cfg, w, run), i);
  }
}
