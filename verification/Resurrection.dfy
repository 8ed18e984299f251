/** A node that goes silent for good disappears from every overlay and stays gone, exactly when
    the retention window is long enough for how far apart ticks and keepalives are. */
module Resurrection {
  import opened Envelope
  import opened Node
  import opened Exchange
  import opened Merkle
  import opened Protocol

  /** `spacing` bounds the gap between two HOLD ticks of a node and between two contacts with a
      peer; `delay` bounds how long an envelope is on its way; live nodes restart only later than
      `restart` after the silence began. */
  datatype Timing = Timing(cfg: Config, spacing: real, delay: real, restart: real)

  predicate Sane(p: Timing) {
    p.cfg.hold >= 0.0 && p.cfg.keepalive >= 0.0 && p.spacing > 0.0 && p.delay >= 0.0
  }

  /** The cooldown is long enough for how far apart ticks and contacts are. */
  predicate LongEnough(p: Timing) {
    if p.cfg.hold >= p.spacing then p.cfg.hold + p.cfg.keepalive >= 2.0 * p.spacing + p.delay
    else p.cfg.keepalive > p.spacing + p.delay
  }

  /** How long after the silence began the last envelope of the silent node can arrive. */
  function LastArrival(p: Timing): real {
    p.cfg.hold + p.spacing + p.delay
  }

  /** What configuration and operation have to satisfy. */
  predicate Enough(p: Timing) {
    LongEnough(p) && p.restart >= LastArrival(p)
  }

  type Ticks = map<NodeId, real>

  /** At the moment `c` falls silent every live node has a session with it, heard from it at most
      `spacing` ago and ticked at most `spacing` ago. */
  ghost predicate Start(p: Timing, w: World, ticks: Ticks, c: NodeId) {
    && (forall i | i in w.nodes :: w.nodes[i].id == i && OverlayOk(w.nodes[i]))
    && (forall i | i in w.nodes && i != c ::
          && i in ticks && w.now - p.spacing <= ticks[i] <= w.now
          && c in w.nodes[i].sessions
          && w.now - p.spacing <= w.nodes[i].sessions[c].lastSeen <= w.now)
    && (forall m | m in w.net :: m.sentAt <= w.now)
  }

  /** A step of a run in which nothing of `c` reaches anyone any more since `t0` (whatever `c` does on
      its own), live nodes restart late, sessions with `c` end only by HOLD, ticks are punctual and
      envelopes arrive within the delay. */
  predicate Quiet(p: Timing, t0: real, w: World, ticks: Ticks, c: NodeId, s: Step) {
    match s
    case Advance(t) => forall i | i in w.nodes && i != c :: i in ticks && t <= ticks[i] + p.spacing
    case Deliver(m) => w.now <= m.sentAt + p.delay
    case Send(i, to, key) => i != c
    case Hear(i, peer) => peer != c || i == c
    case OpenSession(i, peer, ns) => peer != c || i == c
    case Reconcile(i, peer) => i != c && peer != c
    case Connect(i, peer, offered) => i != c && peer != c
    case Disconnect(i, peer) => peer != c || i == c
    case Reboot(i) => i == c || w.now > t0 + p.restart
    case _ => true
  }

  function Ticked(w: World, ticks: Ticks, s: Step): Ticks {
    if s.HoldTick? then ticks[s.i := w.now] else ticks
  }

  function TicksAfter(p: Timing, w: World, ticks: Ticks, run: seq<Step>): Ticks
    requires Valid(p.cfg, w, run)
    decreases |run|
  {
    if run == [] then ticks
    else Ticked(Exec(p.cfg, w, Front(run)), TicksAfter(p, w, ticks, Front(run)), Last(run))
  }

  predicate QuietRun(p: Timing, w: World, ticks: Ticks, c: NodeId, run: seq<Step>)
    requires Valid(p.cfg, w, run)
    decreases |run|
  {
    run == [] ||
    (&& QuietRun(p, w, ticks, c, Front(run))
     && Quiet(p, w.now, Exec(p.cfg, w, Front(run)), TicksAfter(p, w, ticks, Front(run)), c, Last(run)))
  }

  predicate Clear(o: Overlay, c: NodeId) {
    forall k | k in o :: k.origin != c
  }

  /** Past `silentSince + hold + spacing` no live node holds a record of `c`. */
  predicate Gone(p: Timing, silentSince: real, w: World, c: NodeId) {
    w.now > silentSince + p.cfg.hold + p.spacing ==>
      forall i | i in w.nodes && i != c :: Clear(w.nodes[i].foreign, c)
  }

  // ---- sufficiency ----

  /** Not evicted yet: the last tick still saw `c` within its HOLD window. */
  predicate Waiting(p: Timing, t0: real, n: Node, tick: real, c: NodeId) {
    && c in n.sessions && t0 - p.spacing <= n.sessions[c].lastSeen <= t0
    && tick <= t0 + p.cfg.hold
  }

  /** Evicted, and shielded for as long as any envelope of `c` can still arrive. */
  predicate Evicted(p: Timing, t0: real, n: Node, now: real, c: NodeId) {
    var end := t0 + LastArrival(p);
    && c !in n.sessions && Clear(n.foreign, c)
    && (now <= end ==> c in n.evictedUntil && n.evictedUntil[c] > end)
  }

  predicate Shielded(p: Timing, t0: real, w: World, ticks: Ticks, c: NodeId) {
    && t0 <= w.now
    && (forall i | i in w.nodes :: w.nodes[i].id == i && OverlayOk(w.nodes[i]))
    && (forall i | i in w.nodes && i != c ::
          && i in ticks && w.now <= ticks[i] + p.spacing
          && (Waiting(p, t0, w.nodes[i], ticks[i], c) || Evicted(p, t0, w.nodes[i], w.now, c)))
    && (forall m | m in w.net && m.env.key.origin == c :: m.sentAt <= t0 + p.cfg.hold + p.spacing)
  }

  /** The one step where the retention matters: a HOLD tick that evicts `c` shields long enough. */
  lemma HoldTickShields(p: Timing, t0: real, n: Node, tick: real, now: real, c: NodeId)
    requires Sane(p) && Enough(p) && t0 <= now
    requires Waiting(p, t0, n, tick, c) || Evicted(p, t0, n, now, c)
    ensures var n' := CheckHold(p.cfg, n, now);
            Waiting(p, t0, n', now, c) || Evicted(p, t0, n', now, c)
  {
    var gone := Stale(p.cfg, n, now);
    assert c in gone <==> c in n.sessions && now - n.sessions[c].lastSeen > p.cfg.hold;
  }

  /** Whether a node is waiting or evicted is not changed by a step that keeps its view of `c`. */
  lemma SameView(p: Timing, t0: real, n: Node, n': Node, tick: real, now: real, c: NodeId)
    requires Waiting(p, t0, n, tick, c) || Evicted(p, t0, n, now, c)
    requires Get(n'.sessions, c) == Get(n.sessions, c)
    requires Clear(n.foreign, c) && (Suppressed(n, c, now) || now > t0 + LastArrival(p)) ==> Clear(n'.foreign, c)
    requires Suppressed(n, c, now) ==> Get(n'.evictedUntil, c) == Get(n.evictedUntil, c)
    ensures Waiting(p, t0, n', tick, c) || Evicted(p, t0, n', now, c)
  {
  }

  lemma ShieldedNode(p: Timing, t0: real, w: World, ticks: Ticks, c: NodeId, n': Node)
    requires Shielded(p, t0, w, ticks, c) && n'.id in w.nodes && OverlayOk(n')
    requires n'.id != c ==> Waiting(p, t0, n', ticks[n'.id], c) || Evicted(p, t0, n', w.now, c)
    ensures Shielded(p, t0, WithNode(w, n'), ticks, c)
  {
  }

  lemma DeliverShields(p: Timing, t0: real, w: World, ticks: Ticks, c: NodeId, m: Msg)
    requires Shielded(p, t0, w, ticks, c) && m in w.net && m.to in w.nodes && w.now <= m.sentAt + p.delay
    ensures Shielded(p, t0, WithNode(w, Apply(w.nodes[m.to], m.env, w.now)), ticks, c)
  {
    var n' := Apply(w.nodes[m.to], m.env, w.now);
    if m.to != c { SameView(p, t0, w.nodes[m.to], n', ticks[m.to], w.now, c); }
    ShieldedNode(p, t0, w, ticks, c, n');
  }

  lemma OwnStepShields(p: Timing, t0: real, w: World, ticks: Ticks, c: NodeId, n': Node)
    requires Shielded(p, t0, w, ticks, c) && n'.id in w.nodes
    requires var n := w.nodes[n'.id];
             && (forall k | k in n'.foreign :: k in n.foreign && n'.foreign[k] == n.foreign[k])
    requires n'.id != c ==>
             var n := w.nodes[n'.id];
             && Get(n'.sessions, c) == Get(n.sessions, c)
             && (Suppressed(n, c, w.now) ==> Get(n'.evictedUntil, c) == Get(n.evictedUntil, c))
    ensures Shielded(p, t0, WithNode(w, n'), ticks, c)
  {
    if n'.id != c { SameView(p, t0, w.nodes[n'.id], n', ticks[n'.id], w.now, c); }
    ShieldedNode(p, t0, w, ticks, c, n');
  }

  /** A node that still waits for HOLD can only hand out records of `c` before the deadline; by then
      the other side waits as well or is suppressing. */
  lemma AbsorbShields(p: Timing, t0: real, n: Node, tick: real, now: real, offer: Overlay, c: NodeId)
    requires Waiting(p, t0, n, tick, c) || Evicted(p, t0, n, now, c)
    requires Keyed(offer)
    requires now > t0 + p.cfg.hold + p.spacing ==> Clear(offer, c)
    requires p.delay >= 0.0
    ensures var n' := n.(foreign := Absorb(n, offer, now));
            Waiting(p, t0, n', tick, c) || Evicted(p, t0, n', now, c)
  {
    if Evicted(p, t0, n, now, c) {
      assert forall k | k in Taken(n, offer, now) :: k.origin != c;
    }
  }

  lemma OfferClear(p: Timing, t0: real, w: World, ticks: Ticks, c: NodeId, j: NodeId, idx: Index)
    requires Shielded(p, t0, w, ticks, c) && j in w.nodes && j != c
    ensures Keyed(Offer(w.nodes[j], idx))
    ensures w.now > t0 + p.cfg.hold + p.spacing ==> Clear(Offer(w.nodes[j], idx), c)
  {
    assert OverlayOk(w.nodes[j]);
  }

  lemma MeetShields(p: Timing, t0: real, w: World, ticks: Ticks, c: NodeId, i: NodeId, j: NodeId, ns: set<string>)
    requires Sane(p) && Shielded(p, t0, w, ticks, c)
    requires i in w.nodes && j in w.nodes && i != j && i != c && j != c
    ensures Shielded(p, t0, Meet(w, i, j, ns), ticks, c)
  {
    var a, b := w.nodes[i], w.nodes[j];
    var forA, forB := Offer(b, TheirView(b, i, ns)), Offer(a, OurView(a, ns));
    OfferClear(p, t0, w, ticks, c, j, TheirView(b, i, ns));
    OfferClear(p, t0, w, ticks, c, i, OurView(a, ns));
    AbsorbShields(p, t0, a, ticks[i], w.now, forA, c);
    AbsorbShields(p, t0, b, ticks[j], w.now, forB, c);
    var a' := a.(foreign := Absorb(a, forA, w.now));
    AbsorbOk(a, forA, w.now);
    AbsorbOk(b, forB, w.now);
    ShieldedNode(p, t0, w, ticks, c, a');
    ShieldedNode(p, t0, WithNode(w, a'), ticks, c, Touch(b, i, w.now).(foreign := Absorb(b, forB, w.now)));
  }

  lemma OpenedShields(p: Timing, t0: real, w: World, ticks: Ticks, c: NodeId, i: NodeId, j: NodeId, ns: set<string>)
    requires Shielded(p, t0, w, ticks, c)
    requires i in w.nodes && j in w.nodes && i != j && i != c && j != c
    ensures Shielded(p, t0, Opened(w, i, j, ns), ticks, c)
  {
    var w1 := WithNode(w, Open(w.nodes[j], i, ns, w.now));
    OwnStepShields(p, t0, w, ticks, c, Open(w.nodes[j], i, ns, w.now));
    OwnStepShields(p, t0, w1, ticks, c, Open(w.nodes[i], j, ns, w.now));
  }

  lemma MeetStepShields(p: Timing, t0: real, w: World, ticks: Ticks, c: NodeId, s: Step)
    requires Sane(p) && Shielded(p, t0, w, ticks, c) && Enabled(w, s) && Quiet(p, t0, w, ticks, c, s)
    requires s.Reconcile? || s.Connect?
    ensures Shielded(p, t0, Next(p.cfg, w, s), ticks, c)
  {
    match s
    case Reconcile(i, peer) =>
      MeetShields(p, t0, w, ticks, c, i, peer, w.nodes[i].sessions[peer].namespaces);
    case Connect(i, peer, offered) =>
      var ns := Accepted(w.nodes[peer], offered);
      OpenedShields(p, t0, w, ticks, c, i, peer, ns);
      MeetShields(p, t0, Opened(w, i, peer, ns), ticks, c, i, peer, ns);
  }

  lemma SessionStepShields(p: Timing, t0: real, w: World, ticks: Ticks, c: NodeId, s: Step)
    requires Shielded(p, t0, w, ticks, c) && Enabled(w, s) && Quiet(p, t0, w, ticks, c, s)
    requires s.MintMembership? || s.Observe? || s.SaveState? || s.Hear? || s.OpenSession? || s.Disconnect? || s.Forget?
    ensures Shielded(p, t0, Next(p.cfg, w, s), ticks, c)
  {
    OwnStepShields(p, t0, w, ticks, c, Next(p.cfg, w, s).nodes[s.i]);
  }

  /** A live node that restarts has lost its cooldown, but nothing is left to shield it from. */
  lemma RebootShields(p: Timing, t0: real, w: World, ticks: Ticks, c: NodeId, i: NodeId)
    requires Enough(p) && Shielded(p, t0, w, ticks, c) && i in w.nodes && (i == c || w.now > t0 + p.restart)
    ensures Shielded(p, t0, WithNode(w, Restart(w.nodes[i])), ticks, c)
  {
    ShieldedNode(p, t0, w, ticks, c, Restart(w.nodes[i]));
  }

  lemma HoldStepShields(p: Timing, t0: real, w: World, ticks: Ticks, c: NodeId, i: NodeId)
    requires Sane(p) && Enough(p) && Shielded(p, t0, w, ticks, c) && i in w.nodes
    ensures Shielded(p, t0, WithNode(w, CheckHold(p.cfg, w.nodes[i], w.now)), ticks[i := w.now], c)
  {
    if i != c { HoldTickShields(p, t0, w.nodes[i], ticks[i], w.now, c); }
  }

  lemma StepShields(p: Timing, t0: real, w: World, ticks: Ticks, c: NodeId, s: Step)
    requires Sane(p) && Enough(p) && Shielded(p, t0, w, ticks, c) && Enabled(w, s) && Quiet(p, t0, w, ticks, c, s)
    ensures Shielded(p, t0, Next(p.cfg, w, s), Ticked(w, ticks, s), c)
  {
    match s
    case Advance(t) =>
    case Send(i, to, key) => SendShields(p, t0, w, ticks, c, i, key);
    case HoldTick(i) => HoldStepShields(p, t0, w, ticks, c, i);
    case Deliver(m) => DeliverShields(p, t0, w, ticks, c, m);
    case Collect(i, wall) => RecordStepShields(p, t0, w, ticks, c, s);
    case LocalChange(i, wall, lk, change) => RecordStepShields(p, t0, w, ticks, c, s);
    case StampOne(i, wall, lk) => RecordStepShields(p, t0, w, ticks, c, s);
    case Reconcile(i, peer) => MeetStepShields(p, t0, w, ticks, c, s);
    case Connect(i, peer, offered) => MeetStepShields(p, t0, w, ticks, c, s);
    case Reboot(i) => RebootShields(p, t0, w, ticks, c, i);
    case _ => SessionStepShields(p, t0, w, ticks, c, s);
  }

  lemma RecordStepShields(p: Timing, t0: real, w: World, ticks: Ticks, c: NodeId, s: Step)
    requires Shielded(p, t0, w, ticks, c) && Enabled(w, s) && (s.Collect? || s.LocalChange? || s.StampOne?)
    ensures Shielded(p, t0, Next(p.cfg, w, s), ticks, c)
  {
    match s
    case Collect(i, wall) =>
      GcForeignSubset(p.cfg, w.nodes[i].foreign, wall);
      OwnStepShields(p, t0, w, ticks, c, Gc(p.cfg, w.nodes[i], wall));
    case LocalChange(i, wall, lk, change) => OwnStepShields(p, t0, w, ticks, c, Mutate(w.nodes[i], wall, lk, change));
    case StampOne(i, wall, lk) => OwnStepShields(p, t0, w, ticks, c, Stamp(w.nodes[i], wall, lk));
  }

  lemma SendShields(p: Timing, t0: real, w: World, ticks: Ticks, c: NodeId, i: NodeId, key: Key)
    requires Shielded(p, t0, w, ticks, c) && i in w.nodes && i != c && BuildFor(w.nodes[i], key).Some?
    ensures BuildFor(w.nodes[i], key).value.key.origin == c ==> w.now <= t0 + p.cfg.hold + p.spacing
  {
    assert OverlayOk(w.nodes[i]);
    if key.origin == c {
      assert key in w.nodes[i].foreign;
    }
  }

  lemma {:induction false} RunShields(p: Timing, w: World, ticks: Ticks, c: NodeId, run: seq<Step>)
    requires Sane(p) && Enough(p) && Start(p, w, ticks, c) && Valid(p.cfg, w, run) && QuietRun(p, w, ticks, c, run)
    ensures Shielded(p, w.now, Exec(p.cfg, w, run), TicksAfter(p, w, ticks, run), c)
    decreases |run|
  {
    if run != [] {
      RunShields(p, w, ticks, c, Front(run));
      StepShields(p, w.now, Exec(p.cfg, w, Front(run)), TicksAfter(p, w, ticks, Front(run)), c, Last(run));
    }
  }

  /** Timed no-resurrection: under any interleaving of local changes, relays, deliveries, ticks,
      evictions, garbage collection and late restarts, no overlay holds a record of the silent node any more. */
  lemma NoResurrection(p: Timing, w: World, ticks: Ticks, c: NodeId, run: seq<Step>)
    requires Sane(p) && Enough(p) && Start(p, w, ticks, c) && Valid(p.cfg, w, run) && QuietRun(p, w, ticks, c, run)
    ensures Gone(p, w.now, Exec(p.cfg, w, run), c)
  {
    RunShields(p, w, ticks, c, run);
  }
}
